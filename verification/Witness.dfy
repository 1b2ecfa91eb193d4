/** States in which the driver goes wrong, reached from a new ring of two segments by ordinary
    traffic: two in which an expansion fails, and one in which a cancelled TD is performed. */
module Witness {
  import opened Trbs
  import opened Laps
  import opened Growth
  import opened Runs
  import opened Mirror
  import opened CachedRuns
  import opened Cancel

  const TRB := Trb(0, 0, Normal, false, true, false, true)

  function FreshSlot(j: nat): Trb {
    Trb(0, 0, if j % 64 == 63 then Link else Unused, false, false, j == 127, false)
  }

  /** A new ring of two segments, nothing queued. */
  function Fresh(): System {
    System(Producer(seq(128, j requires 0 <= j < 128 => FreshSlot(j)), 0, true, 0, 125, None),
           Consumer(0, true), false, [], [], [])
  }

  lemma FreshGood()
    ensures Good(Fresh())
  {
    var p := Fresh().p;
    assert forall j :: 0 <= j < 128 ==> p.tape[j] == FreshSlot(j);
    assert Geometry(p.tape) && Bits(p);
  }

  /** First lap, no TD under construction: where enqueue, dequeue and the controller are. */
  ghost predicate At(s: System, e: nat, d: nat, h: nat) {
    var at :=
      && Good(s)
      && |s.p.tape| == 128 && s.p.e == e && s.p.d == d && s.c.h == h
      && s.p.pcs && s.p.withheld.None?;
    at
  }

  function Repeat(ev: Event, m: nat): seq<Event> {
    if m == 0 then [] else [ev] + Repeat(ev, m - 1)
  }

  /** The events can happen from s on, and lead to t. */
  ghost predicate Leads(s: System, evs: seq<Event>, t: System) {
    var leads := Good(s) && Runnable(s, evs) && Run(s, evs) == t;
    leads
  }

  lemma LeadsNowhere(s: System)
    requires Good(s)
    ensures Leads(s, [], s)
  {
  }

  lemma LeadsOne(s: System, ev: Event)
    requires Good(s) && Enabled(s, ev)
    ensures Leads(s, [ev], Step(s, ev))
  {
    StepKeeps(s, ev);
    var t := Step(s, ev);
    assert [ev][1..] == [] && Runnable(t, []) && Run(t, []) == t;
  }

  lemma LeadsOn(s: System, a: seq<Event>, t: System, b: seq<Event>, u: System)
    requires Leads(s, a, t) && Leads(t, b, u)
    ensures Leads(s, a + b, u)
  {
    RunConcat(s, a, b);
  }

  lemma PlainEnqueue(s: System)
    requires Good(s) && Enabled(s, Enqueue(TRB, false)) && s.p.pcs && s.p.withheld.None?
    ensures var p, t := s.p, Step(s, Enqueue(TRB, false));
            && t.p.e == p.e + 1 && t.p.d == p.d && t.p.free == p.free - 1 && t.c == s.c
            && |t.p.tape| == |p.tape| && t.p.pcs && t.p.withheld.None?
  {
    WriteKeeps(s.p, s.c, TRB);
    PutCases(s.p, TRB, false, s.quirk);
  }

  /** Queue a TRB on slot i of the first or second segment, not in front of its link; the
      controller stands still. */
  lemma QueueOne(s: System, base: nat, i: nat, h: nat) returns (t: System)
    requires At(s, base + i, base, h) && (base == 0 || base == 64) && i < 63 && 1 < s.p.free
    ensures Leads(s, [Enqueue(TRB, false)], t)
    ensures At(t, base + (i + 1), base, h) && t.p.free == s.p.free - 1
  {
    var ev := Enqueue(TRB, false);
    assert Enabled(s, ev);
    LeadsOne(s, ev);
    StepKeeps(s, ev);
    PlainEnqueue(s);
    t := Step(s, ev);
  }

  lemma {:induction false} QueueMany(s: System, base: nat, i: nat, h: nat, m: nat) returns (t: System)
    requires At(s, base + i, base, h) && (base == 0 || base == 64) && i + m <= 63 && m < s.p.free
    ensures Leads(s, Repeat(Enqueue(TRB, false), m), t)
    ensures At(t, base + (i + m), base, h)
    decreases m
  {
    if m == 0 {
      LeadsNowhere(s);
      t := s;
    } else {
      var s1 := QueueOne(s, base, i, h);
      t := QueueMany(s1, base, i + 1, h, m - 1);
      LeadsOn(s, [Enqueue(TRB, false)], s1, Repeat(Enqueue(TRB, false), m - 1), t);
    }
  }

  lemma FetchOne(s: System, h: nat) returns (t: System)
    requires At(s, 63, 0, h) && h < 63
    ensures Leads(s, [Fetch], t) && At(t, 63, 0, h + 1)
  {
    OwnedIffQueued(s.p, s.c);
    LeadsOne(s, Fetch);
    StepKeeps(s, Fetch);
    t := Step(s, Fetch);
  }

  lemma {:induction false} FetchMany(s: System, h: nat, m: nat) returns (t: System)
    requires At(s, 63, 0, h) && h + m == 63
    ensures Leads(s, Repeat(Fetch, m), t) && At(t, 63, 0, 63)
    decreases m
  {
    if m == 0 {
      LeadsNowhere(s);
      t := s;
    } else {
      var s1 := FetchOne(s, h);
      t := FetchMany(s1, h + 1, m - 1);
      LeadsOn(s, [Fetch], s1, Repeat(Fetch, m - 1), t);
    }
  }

  /** Where dequeue is after giving up k slots of the first segment. */
  function Given(k: nat): nat {
    if k == 63 then 64 else k
  }

  lemma Counts(k: nat)
    requires k < 63
    ensures WorkCount(128, 63, 63) == 0 && Occupied(128, k, 63) == 63 - k
    ensures NextDequeue(128, k) == Given(k + 1)
  {
  }

  lemma ReclaimOne(s: System, k: nat) returns (t: System)
    requires At(s, 63, k, 63) && k < 63
    ensures Leads(s, [Event.Reclaim], t) && At(t, 63, Given(k + 1), 63)
  {
    Counts(k);
    LeadsOne(s, Event.Reclaim);
    StepKeeps(s, Event.Reclaim);
    t := Step(s, Event.Reclaim);
  }

  lemma {:induction false} ReclaimMany(s: System, k: nat, m: nat) returns (t: System)
    requires At(s, 63, Given(k), 63) && k + m == 63
    ensures Leads(s, Repeat(Event.Reclaim, m), t) && At(t, 63, 64, 63)
    decreases m
  {
    if m == 0 {
      LeadsNowhere(s);
      t := s;
    } else {
      var s1 := ReclaimOne(s, k);
      t := ReclaimMany(s1, k + 1, m - 1);
      LeadsOn(s, [Event.Reclaim], s1, Repeat(Event.Reclaim, m - 1), t);
    }
  }

  /** The TRBs a segment holds beside its link. */
  const FULL: nat := SLOTS - 1

  /** A segment's worth of TRBs queued, carried out and reclaimed. */
  function Drain(): seq<Event> {
    Repeat(Enqueue(TRB, false), FULL) + (Repeat(Fetch, FULL) + Repeat(Event.Reclaim, FULL))
  }

  /** It leaves enqueue on the first link and dequeue behind it. */
  lemma DrainRuns() returns (t: System)
    ensures Leads(Fresh(), Drain(), t) && At(t, 63, 64, 63)
  {
    FreshGood();
    var a, b, c := Repeat(Enqueue(TRB, false), FULL), Repeat(Fetch, FULL),
                   Repeat(Event.Reclaim, FULL);
    var s1 := QueueMany(Fresh(), 0, 0, 0, FULL);
    var s2 := FetchMany(s1, 0, FULL);
    t := ReclaimMany(s2, 0, FULL);
    LeadsOn(s1, b, s2, c, t);
    LeadsOn(Fresh(), a, s1, b + c, t);
  }

  /** An expansion in this state breaks the count of free slots. */
  lemma DrainedIsReached()
    ensures Good(Fresh()) && Runnable(Fresh(), Drain())
    ensures var s := Run(Fresh(), Drain());
            && Good(s) && Drained(|s.p.tape|, s.p.d, s.p.e)
            && forall blank, ptr :: Spliceable(s.p, blank) ==>
                 Shape(Grow(s.p, ptr, s.quirk, blank)) && !Accounting(Grow(s.p, ptr, s.quirk, blank))
  {
    var s := DrainRuns();
    forall blank, ptr | Spliceable(s.p, blank)
      ensures Shape(Grow(s.p, ptr, s.quirk, blank)) && !Accounting(Grow(s.p, ptr, s.quirk, blank))
    {
      AccountingIffNotDrained(s.p, ptr, s.quirk, blank);
    }
  }

  // ------------------------------------------------------------------- the other state

  /** Hand over the first link, fill the second segment, and let the last TRB carry enqueue
      across the second link into the first segment. */
  function Lap(): seq<Event> {
    [LeaveLink(false)] + Fill()
  }

  function Fill(): seq<Event> {
    Repeat(Enqueue(TRB, false), FULL - 1) + [Enqueue(TRB, true)]
  }

  lemma HandOverRuns(s: System) returns (t: System)
    requires At(s, 63, 64, 63)
    ensures Leads(s, [LeaveLink(false)], t) && At(t, 64, 64, 63) && 63 < t.p.free
  {
    LeadsOne(s, LeaveLink(false));
    StepKeeps(s, LeaveLink(false));
    t := Step(s, LeaveLink(false));
  }

  lemma CrossRuns(s: System) returns (t: System)
    requires At(s, 126, 64, 63)
    ensures Leads(s, [Enqueue(TRB, true)], t) && Good(t) && Lingers(t.p, t.c)
  {
    var ev := Enqueue(TRB, true);
    PutCases(s.p, TRB, true, s.quirk);
    LeadsOne(s, ev);
    StepKeeps(s, ev);
    t := Step(s, ev);
  }

  lemma FillRuns(s: System) returns (t: System)
    requires At(s, 64, 64, 63) && 63 < s.p.free
    ensures Leads(s, Fill(), t) && Good(t) && Lingers(t.p, t.c)
  {
    var s1 := QueueMany(s, 64, 0, 63, FULL - 1);
    t := CrossRuns(s1);
    LeadsOn(s, Repeat(Enqueue(TRB, false), FULL - 1), s1, [Enqueue(TRB, true)], t);
  }

  lemma LapRuns(s: System) returns (t: System)
    requires At(s, 63, 64, 63)
    ensures Leads(s, Lap(), t) && Good(t) && Lingers(t.p, t.c)
  {
    var s1 := HandOverRuns(s);
    t := FillRuns(s1);
    LeadsOn(s, [LeaveLink(false)], s1, Fill(), t);
  }

  /** The controller still stands on the first link when enqueue comes round to the segment in
      front of it.  An expansion in this state makes it act on blank slots. */
  lemma LingeringIsReached()
    ensures Good(Fresh()) && Runnable(Fresh(), Drain() + Lap())
    ensures var s := Run(Fresh(), Drain() + Lap());
            && Good(s) && Lingers(s.p, s.c)
            && forall blank, ptr :: Spliceable(s.p, blank) ==>
                 Lawful(Grow(s.p, ptr, s.quirk, blank), Moved(s.p, blank, s.c)) &&
                 Queue(Grow(s.p, ptr, s.quirk, blank), Moved(s.p, blank, s.c)) != Queue(s.p, s.c)
  {
    var s1 := DrainRuns();
    var s := LapRuns(s1);
    LeadsOn(Fresh(), Drain(), s1, Lap(), s);
    forall blank, ptr | Spliceable(s.p, blank)
      ensures Lawful(Grow(s.p, ptr, s.quirk, blank), Moved(s.p, blank, s.c))
      ensures Queue(Grow(s.p, ptr, s.quirk, blank), Moved(s.p, blank, s.c)) != Queue(s.p, s.c)
    {
      ViewIffNotLingering(s.p, s.c, ptr, s.quirk, blank);
    }
  }

  // ----------------------------------------------------- a TD cancelled on a cached ring

  const FIRST := Enqueue(TRB.(len := 8, cycle := false), false)

  /** A TD of one TRB, queued and published on a new cached ring. */
  function OneTd(): seq<Event> {
    [FIRST, Event.Publish]
  }

  lemma FreshIsNew()
    ensures New(Fresh().p)
  {
    FreshGood();
    EmptyIsNew(Fresh().p, Fresh().c);
  }

  lemma FirstQueued(x: CachedSystem) returns (y: CachedSystem)
    requires CachedGood(x) && x.s == Fresh()
    ensures CachedEnabled(x, FIRST) && y == CachedStep(x, FIRST) && CachedGood(y)
    ensures y.s.p.e == 1 && |y.s.p.tape| == 128 && y.s.p.withheld == Some(0) && y.s.c.h == 0
    ensures y.s.p.tape[0].typ.Normal?
  {
    var p := x.s.p;
    assert |p.tape| == 128 && p.pcs && p.e == 0;
    PutCases(p, FIRST.trb, false, x.s.quirk);
    CachedStepKeeps(x, FIRST);
    y := CachedStep(x, FIRST);
  }

  lemma ThenPublished(x: CachedSystem) returns (y: CachedSystem)
    requires CachedGood(x) && x.s.p.withheld == Some(0) && |x.s.p.tape| == 128
    ensures CachedEnabled(x, Event.Publish) && y == CachedStep(x, Event.Publish) && CachedGood(y)
    ensures y.s.c == x.s.c && y.s.p.e == x.s.p.e && |y.s.p.tape| == 128 && y.s.p.withheld.None?
    ensures y.s.p.tape[0].typ == x.s.p.tape[0].typ
  {
    CachedStepKeeps(x, Event.Publish);
    y := CachedStep(x, Event.Publish);
  }

  lemma OneTdRuns() returns (x: CachedSystem)
    ensures New(Fresh().p) && CachedRunnable(NewCached(Fresh().p, false), OneTd())
    ensures x == CachedRun(NewCached(Fresh().p, false), OneTd()) && CachedGood(x)
    ensures x.s.p.e == 1 && |x.s.p.tape| == 128 && x.s.p.withheld.None? && x.s.c.h == 0
    ensures x.s.p.tape[0].typ.Normal?
  {
    FreshIsNew();
    var x0 := NewCached(Fresh().p, false);
    var x1 := FirstQueued(x0);
    x := ThenPublished(x1);
    OneStep(x1, Event.Publish, x, [], [Event.Publish]);
    OneStep(x0, FIRST, x1, [Event.Publish], OneTd());
  }

  lemma OneStep(x: CachedSystem, ev: Event, y: CachedSystem, rest: seq<Event>, evs: seq<Event>)
    requires CachedGood(x) && CachedEnabled(x, ev) && y == CachedStep(x, ev) && CachedGood(y)
    requires CachedRunnable(y, rest) && evs == [ev] + rest
    ensures CachedRunnable(x, evs) && CachedRun(x, evs) == CachedRun(y, rest)
  {
    assert evs[1..] == rest;
  }

  lemma FirstRewritten(p: Producer, c: Consumer, q: Producer)
    requires p.e == 1 && |p.tape| == 128 && p.withheld.None? && c.h == 0 && p.tape[0].typ.Normal?
    requires q == p.(tape := Nooped(p.tape, 0, 1))
    ensures Rewritten(p, c, 0, 0, q, [p.tape[0]]) && Transfers([p.tape[0]]) != []
  {
    assert Span(p.tape, 0, 1) == [p.tape[0]];
  }

  /** Rewriting that TD into no-ops in host memory does not keep the controller from performing
      it. */
  lemma CancelledIsPerformed()
    ensures New(Fresh().p) && CachedRunnable(NewCached(Fresh().p, false), OneTd())
    ensures var x := CachedRun(NewCached(Fresh().p, false), OneTd());
            && x.s.c.h < |x.dev| && x.s.p.e < |x.s.p.tape| && 0 < |x.s.p.tape|
            && var q := x.s.p.(tape := Nooped(x.s.p.tape, 0, 1));
               && Rewritten(x.s.p, x.s.c, 0, 0, q, [x.s.p.tape[0]])
               && Transfers(Takes(x.dev, x.s.c, |x.dev|)) != Transfers(Queue(q, x.s.c))
  {
    var x := OneTdRuns();
    var q := x.s.p.(tape := Nooped(x.s.p.tape, 0, 1));
    FirstRewritten(x.s.p, x.s.c, q);
    NoopMissesTheCopy(View(x), x.s.c, 0, 0, q, [x.s.p.tape[0]]);
  }
}
