/** Whole runs of a transfer ring: the driver queueing, publishing, handing over links,
    expanding and reclaiming, the controller fetching, in any order. */
module Runs {
  import opened Trbs
  import opened Laps
  import opened Growth
  import opened Recovery

  datatype Event =
    | Enqueue(trb: Trb, more: bool)          // queue_trb
    | Publish                                // giveback_first_trb
    | LeaveLink(chain: bool)                 // prepare_ring hands over the link under enqueue
    | Expand(ptr: nat, blank: seq<Trb>)      // ring expansion
    | Fetch                                  // the controller looks at the next TRB
    | Reclaim                                // inc_deq
    | Skip(target: nat)                      // Set TR Dequeue Pointer executed
    | Catchup                                // its completion: dequeue follows the controller

  /** A ring with its controller, and what has happened so far: the TRBs published, those of
      the TD under construction, and those the controller has moved past. */
  datatype System = System(
    p: Producer,
    c: Consumer,
    quirk: bool,
    published: seq<Trb>,
    building: seq<Trb>,
    passed: seq<Trb>
  )

  /** The state every run keeps: nothing published is lost, repeated or reordered. */
  ghost predicate Good(s: System) {
    var good :=
      && Inv(s.p, s.c)
      && Room(s.p)
      && s.published == s.passed + Queue(s.p, s.c)
      && s.building == Building(s.p);
    good
  }

  ghost predicate Enabled(s: System, ev: Event)
    requires Good(s)
  {
    match ev
    case Enqueue(trb, _) => CanPut(s.p, trb) && s.p.d % 64 < s.p.free
    case Publish => s.p.withheld.Some?
    case LeaveLink(_) => s.p.e % 64 == 63
    case Expand(_, blank) =>
      && Spliceable(s.p, blank)
      && !Lingers(s.p, s.c)
      && !Drained(|s.p.tape|, s.p.d, s.p.e)
    case Fetch => true
    case Reclaim =>
      s.p.d % 64 == 63 ||
      WorkCount(|s.p.tape|, s.c.h, s.p.e) < Occupied(|s.p.tape|, s.p.d, s.p.e)
    case Skip(t) =>
      t < |s.p.tape| && Dist(|s.p.tape|, s.c.h, t) <= Dist(|s.p.tape|, s.c.h, Stop(s.p))
    case Catchup => !(s.c.h % 64 == 63 && s.p.d == Next(|s.p.tape|, s.c.h))
  }

  /** The TD as it is published: its first TRB gets the cycle bit it was withheld. */
  function Finished(building: seq<Trb>, cycle: bool): seq<Trb> {
    if building == [] then [] else [building[0].(cycle := cycle)] + building[1..]
  }

  ghost function Step(s: System, ev: Event): System
    requires Good(s) && Enabled(s, ev)
  {
    match ev
    case Enqueue(trb, more) =>
      WriteKeeps(s.p, s.c, trb);
      var q := Put(s.p, trb, more, s.quirk);
      if q.withheld.None? then s.(p := q, published := s.published + [trb])
      else s.(p := q, building := s.building + [trb])
    case Publish =>
      var f := s.p.withheld.value;
      var cycle := StartCycle(s.p, f);
      s.(p := Release(s.p, f, cycle),
         published := s.published + Finished(s.building, cycle),
         building := [])
    case LeaveLink(chain) => s.(p := PassLink(s.p, chain))
    case Expand(ptr, blank) =>
      s.(p := Grow(s.p, ptr, s.quirk, blank), c := Moved(s.p, blank, s.c))
    case Fetch =>
      if Owned(s.p.tape, s.c)
      then s.(c := Advance(s.p.tape, s.c), passed := s.passed + Taken(s.p.tape, s.c))
      else s
    case Reclaim => s.(p := Laps.Reclaim(s.p))
    case Skip(t) =>
      s.(c := Jump(s.p, t), passed := s.passed + Work(Span(s.p.tape, s.c.h, t)))
    case Catchup => s.(p := RetireTo(s.p, s.c.h))
  }

  lemma EnqueueKeeps(s: System, trb: Trb, more: bool)
    requires Good(s) && Enabled(s, Enqueue(trb, more))
    ensures Good(Step(s, Enqueue(trb, more)))
  {
    PutKeeps(s.p, s.c, trb, more, s.quirk);
    PutQueue(s.p, s.c, trb, more, s.quirk);
    Regroup(s.passed, Queue(s.p, s.c), [trb]);
  }

  lemma PublishKeeps(s: System)
    requires Good(s) && Enabled(s, Publish)
    ensures Good(Step(s, Publish))
  {
    ReleaseKeeps(s.p, s.c);
    var f := s.p.withheld.value;
    var q := Release(s.p, f, StartCycle(s.p, f));
    var cycle := StartCycle(s.p, f);
    FinishedJoins(s.passed, Queue(s.p, s.c), s.building, cycle);
    assert Building(q) == [];
  }

  lemma FinishedJoins(passed: seq<Trb>, queue: seq<Trb>, building: seq<Trb>, cycle: bool)
    requires building != []
    ensures passed + queue + Finished(building, cycle) ==
            passed + (queue + [building[0].(cycle := cycle)] + building[1..])
  {
  }

  lemma FetchKeeps(s: System)
    requires Good(s)
    ensures Good(Step(s, Fetch))
  {
    if Owned(s.p.tape, s.c) {
      AdvanceLawful(s.p, s.c);
      AdvanceKeeps(s.p, s.c);
      Regroup(s.passed, Taken(s.p.tape, s.c), Queue(s.p, Advance(s.p.tape, s.c)));
    }
  }

  lemma Regroup(a: seq<Trb>, b: seq<Trb>, c: seq<Trb>)
    ensures a + (b + c) == a + b + c
  {
  }

  lemma SkipKeeps(s: System, t: nat)
    requires Good(s) && Enabled(s, Skip(t))
    ensures Good(Step(s, Skip(t)))
  {
    JumpKeeps(s.p, s.c, t);
    JumpLawful(s.p, s.c, t);
    Regroup(s.passed, Work(Span(s.p.tape, s.c.h, t)), Queue(s.p, Jump(s.p, t)));
  }

  /** Every step of driver or controller keeps Good. */
  lemma StepKeeps(s: System, ev: Event)
    requires Good(s) && Enabled(s, ev)
    ensures Good(Step(s, ev))
  {
    match ev
    case Enqueue(trb, more) => EnqueueKeeps(s, trb, more);
    case Publish => PublishKeeps(s);
    case Fetch => FetchKeeps(s);
    case Skip(t) => SkipKeeps(s, t);
    case LeaveLink(chain) => PassLinkKeeps(s.p, s.c, chain);
    case Expand(ptr, blank) => GrowKeeps(s.p, s.c, ptr, s.quirk, blank);
    case Reclaim => ReclaimKeeps(s.p, s.c);
    case Catchup => RetireToKeeps(s.p, s.c);
  }

  /** The driver's side has not changed but for the fields named. */
  predicate SameRing(p: Producer, q: Producer, e: bool, d: bool) {
    && |q.tape| == |p.tape|
    && (!e ==> q.tape == p.tape && q.e == p.e && q.pcs == p.pcs && q.withheld == p.withheld)
    && (!d ==> q.d == p.d)
  }

  /** Nothing but the driver's side has changed. */
  predicate SameLogs(s: System, t: System) {
    t.published == s.published && t.building == s.building && t.passed == s.passed
  }

  /** What queueing a TRB does, from the state before it. */
  ghost predicate EnqueueEffect(s: System, trb: Trb, more: bool, t: System)
    requires Good(s) && Enabled(s, Enqueue(trb, more))
  {
    var p, q := s.p, t.p;
    && SameRing(p, q, true, false) && q.free == p.free - 1 && t.c == s.c && t.passed == s.passed
    && Queued(p.tape, p.e, trb, more, s.quirk, q.tape)
    && q.e == (if (p.e + 1) % 64 == 63 && (trb.chain || more) then Next(|p.tape|, p.e + 1) else p.e + 1)
    && (if p.withheld.None? && trb.cycle == p.pcs
        then t.published == s.published + [trb] && t.building == s.building
        else t.published == s.published && t.building == s.building + [trb])
  }

  /** What publication does: one cycle bit is inverted and the TD under construction joins
      the published TRBs as a whole. */
  ghost predicate PublishEffect(s: System, t: System)
    requires Good(s) && Enabled(s, Publish)
  {
    var p, q, f := s.p, t.p, s.p.withheld.value;
    && SameRing(p, q, true, false) && q.free == p.free && q.e == p.e && q.withheld.None?
    && t.c == s.c && t.passed == s.passed
    && f < |p.tape| && q.tape == p.tape[f := p.tape[f].(cycle := !p.tape[f].cycle)]
    && s.building != [] && t.building == []
    && t.published == s.published + [s.building[0].(cycle := !p.tape[f].cycle)] + s.building[1..]
  }

  /** What an expansion does to pointers and counts; GrowKeeps says what it leaves to be taken. */
  ghost predicate ExpandEffect(s: System, blank: seq<Trb>, t: System) {
    var p, q := s.p, t.p;
    && |q.tape| == |p.tape| + |blank| && q.e == p.e && q.free == p.free + 63 * (|blank| / 64)
    && q.d == (if p.d < 64 * (p.e / 64 + 1) then p.d else p.d + |blank|)
    && t.c.h == (if s.c.h < 64 * (p.e / 64 + 1) then s.c.h else s.c.h + |blank|)
    && t.c.ccs == s.c.ccs
    && SameLogs(s, t)
  }

  /** What a fetch does: the controller stands still where the driver has it stop, and
      otherwise passes one slot. */
  ghost predicate FetchEffect(s: System, t: System)
    requires Good(s)
  {
    && t.p == s.p && t.published == s.published && t.building == s.building
    && (if s.c.h == Stop(s.p) then t.c == s.c && t.passed == s.passed
        else t.c.h == Next(|s.p.tape|, s.c.h) &&
             t.passed == s.passed + if s.c.h % 64 == 63 then [] else [s.p.tape[s.c.h]])
  }

  /** What handing over the link under enqueue does. */
  ghost predicate LeaveLinkEffect(s: System, chain: bool, t: System)
    requires s.p.e < |s.p.tape|
  {
    var p, q := s.p, t.p;
    && SameRing(p, q, true, false) && q.free == p.free && q.e == Next(|p.tape|, p.e)
    && q.tape == p.tape[p.e := p.tape[p.e].(cycle := !p.tape[p.e].cycle, chain := chain)]
    && t.c == s.c && SameLogs(s, t)
  }

  /** What giving up a slot does: dequeue moves on, past a link that follows. */
  ghost predicate ReclaimEffect(s: System, t: System) {
    var p, q, n := s.p, t.p, |s.p.tape|;
    && SameRing(p, q, false, true)
    && q.d == (if p.d % 64 == 62 then Next(n, p.d + 1) else Next(n, p.d))
    && q.free == p.free + (if p.d % 64 == 63 then 0 else 1)
    && t.c == s.c && SameLogs(s, t)
  }

  /** What a Set TR Dequeue Pointer command does: the TRBs jumped over count as passed. */
  ghost predicate SkipEffect(s: System, target: nat, t: System)
    requires s.c.h < |s.p.tape| && target < |s.p.tape|
  {
    && t.p == s.p && t.c.h == target
    && t.published == s.published && t.building == s.building
    && t.passed == s.passed + Work(Span(s.p.tape, s.c.h, target))
  }

  /** What its completion does: dequeue follows the controller. */
  ghost predicate CatchupEffect(s: System, t: System) {
    SameRing(s.p, t.p, false, true) && t.p.d == s.c.h && t.c == s.c && SameLogs(s, t)
  }

  /** What every step does to pointers and logs, from the state before it. */
  ghost predicate Effect(s: System, ev: Event, t: System)
    requires Good(s) && Enabled(s, ev)
  {
    var done :=
      match ev
      case Enqueue(trb, more) => EnqueueEffect(s, trb, more, t)
      case Publish => PublishEffect(s, t)
      case LeaveLink(chain) => LeaveLinkEffect(s, chain, t)
      case Expand(_, blank) => ExpandEffect(s, blank, t)
      case Fetch => FetchEffect(s, t)
      case Reclaim => ReclaimEffect(s, t)
      case Skip(target) => SkipEffect(s, target, t)
      case Catchup => CatchupEffect(s, t);
    done && t.quirk == s.quirk
  }

  lemma EnqueueDoes(s: System, trb: Trb, more: bool)
    requires Good(s) && Enabled(s, Enqueue(trb, more))
    ensures EnqueueEffect(s, trb, more, Step(s, Enqueue(trb, more)))
  {
    WriteKeeps(s.p, s.c, trb);
    PutCases(s.p, trb, more, s.quirk);
    PutWrites(s.p, trb, more, s.quirk);
  }

  lemma PublishDoes(s: System)
    requires Good(s) && Enabled(s, Publish)
    ensures PublishEffect(s, Step(s, Publish))
  {
    ReleaseKeeps(s.p, s.c);
    var b, c := s.building, StartCycle(s.p, s.p.withheld.value);
    assert s.published + Finished(b, c) == s.published + [b[0].(cycle := c)] + b[1..];
  }

  lemma LeaveLinkDoes(s: System, chain: bool)
    requires Good(s) && Enabled(s, LeaveLink(chain))
    ensures LeaveLinkEffect(s, chain, Step(s, LeaveLink(chain)))
  {
  }

  lemma ExpandDoes(s: System, ptr: nat, blank: seq<Trb>)
    requires Good(s) && Enabled(s, Expand(ptr, blank))
    ensures ExpandEffect(s, blank, Step(s, Expand(ptr, blank)))
  {
  }

  lemma ReclaimDoes(s: System)
    requires Good(s) && Enabled(s, Reclaim)
    ensures ReclaimEffect(s, Step(s, Reclaim))
  {
  }

  lemma SkipDoes(s: System, target: nat)
    requires Good(s) && Enabled(s, Skip(target))
    ensures SkipEffect(s, target, Step(s, Skip(target)))
  {
  }

  lemma CatchupDoes(s: System)
    requires Good(s) && Enabled(s, Catchup)
    ensures CatchupEffect(s, Step(s, Catchup))
  {
  }

  lemma FetchDoes(s: System)
    requires Good(s)
    ensures FetchEffect(s, Step(s, Fetch))
  {
    OwnedIffQueued(s.p, s.c);
  }

  /** Every step does what its event says. */
  lemma StepDoes(s: System, ev: Event)
    requires Good(s) && Enabled(s, ev)
    ensures Effect(s, ev, Step(s, ev))
  {
    match ev
    case Enqueue(trb, more) => EnqueueDoes(s, trb, more);
    case Publish => PublishDoes(s);
    case LeaveLink(chain) => LeaveLinkDoes(s, chain);
    case Expand(ptr, blank) => ExpandDoes(s, ptr, blank);
    case Fetch => FetchDoes(s);
    case Reclaim => ReclaimDoes(s);
    case Skip(target) => SkipDoes(s, target);
    case Catchup => CatchupDoes(s);
  }

  ghost predicate Runnable(s: System, evs: seq<Event>)
    requires Good(s)
    decreases |evs|
  {
    evs == [] ||
    (Enabled(s, evs[0]) && (StepKeeps(s, evs[0]); Runnable(Step(s, evs[0]), evs[1..])))
  }

  ghost function Run(s: System, evs: seq<Event>): System
    requires Good(s) && Runnable(s, evs)
    decreases |evs|
  {
    if evs == [] then s
    else StepKeeps(s, evs[0]); Run(Step(s, evs[0]), evs[1..])
  }

  lemma {:induction false} RunConcat(s: System, a: seq<Event>, b: seq<Event>)
    requires Good(s) && Runnable(s, a)
    ensures Good(Run(s, a))
    ensures Runnable(s, a + b) <==> Runnable(Run(s, a), b)
    ensures Runnable(s, a + b) ==> Run(s, a + b) == Run(Run(s, a), b)
    decreases |a|
  {
    if a == [] {
      assert a + b == b;
    } else {
      StepKeeps(s, a[0]);
      assert (a + b)[1..] == a[1..] + b;
      RunConcat(Step(s, a[0]), a[1..], b);
    }
  }

  lemma StepExtends(s: System, ev: Event)
    requires Good(s) && Enabled(s, ev)
    ensures s.published <= Step(s, ev).published && s.passed <= Step(s, ev).passed
  {
  }

  lemma {:induction false} RunExtends(s: System, evs: seq<Event>)
    requires Good(s) && Runnable(s, evs)
    ensures Good(Run(s, evs))
    ensures s.published <= Run(s, evs).published && s.passed <= Run(s, evs).passed
    decreases |evs|
  {
    if evs != [] {
      StepKeeps(s, evs[0]);
      StepExtends(s, evs[0]);
      RunExtends(Step(s, evs[0]), evs[1..]);
    }
  }

  /** Over every run the ring is a FIFO: what the controller has moved past, followed by what
      it would take if left alone, is what the driver has published, in order; and neither
      log is ever rewritten. */
  lemma RingIsFifo(s: System, evs: seq<Event>)
    requires Good(s) && Runnable(s, evs)
    ensures var t := Run(s, evs);
            && Good(t)
            && t.published == t.passed + Takes(t.p.tape, t.c, |t.p.tape|)
            && s.published <= t.published && s.passed <= t.passed
  {
    RunExtends(s, evs);
    var t := Run(s, evs);
    TakesExactlyTheQueue(t.p, t.c, |t.p.tape|);
  }
}
