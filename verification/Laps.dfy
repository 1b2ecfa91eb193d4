/** A transfer or command ring seen as one tape of slots in ring order, 64 slots to
    a segment.  Slot 63 of every segment is a Link TRB, and the link that closes the
    tape carries Toggle Cycle.  Everything a producer and a cycle-bit-following
    consumer agree on is stated here, independently of how segments are linked. */
module Laps {
  import opened Trbs

  // ---------------------------------------------------------------- geometry

  ghost predicate Geometry(t: seq<Trb>) {
    && 0 < |t|
    && |t| % 64 == 0
    && (forall j :: 0 <= j < |t| ==> (t[j].typ.Link? <==> j % 64 == 63))
    && (forall j :: 0 <= j < |t| && j % 64 == 63 ==> (t[j].toggle <==> j == |t| - 1))
  }

  function Next(n: nat, j: nat): nat {
    if j + 1 == n then 0 else j + 1
  }

  /** Slots passed when walking forward from a to b. */
  function Dist(n: nat, a: nat, b: nat): (r: nat)
    requires a < n && b < n
  {
    if a <= b then b - a else b + n - a
  }

  /** The slots themselves, in walking order. */
  function Span(t: seq<Trb>, a: nat, b: nat): (r: seq<Trb>)
    requires a < |t| && b < |t|
    ensures |r| == Dist(|t|, a, b)
  {
    if a <= b then t[a..b] else t[a..] + t[..b]
  }

  /** The TRBs of a stretch of ring that are not links: what a consumer acts on. */
  function Work(s: seq<Trb>): seq<Trb> {
    if s == [] then []
    else (if s[0].typ.Link? then [] else [s[0]]) + Work(s[1..])
  }

  lemma {:induction false} WorkConcat(s: seq<Trb>, u: seq<Trb>)
    ensures Work(s + u) == Work(s) + Work(u)
  {
    if s == [] {
      assert s + u == u;
    } else {
      assert (s + u)[1..] == s[1..] + u;
      WorkConcat(s[1..], u);
    }
  }

  /** Non-link slots in front of position j. */
  function Ord(j: nat): nat {
    j - j / 64
  }

  /** Non-link slots passed when walking from a to b. */
  function WorkCount(n: nat, a: nat, b: nat): (r: nat)
    requires a < n && b < n && n % 64 == 0
  {
    if a <= b then Ord(b) - Ord(a) else Ord(b) + Ord(n) - Ord(a)
  }

  lemma {:induction false} WorkOfPrefix(t: seq<Trb>, a: nat, b: nat)
    requires Geometry(t) && a <= b <= |t|
    ensures |Work(t[a..b])| == Ord(b) - Ord(a)
    decreases b - a
  {
    if a < b {
      assert t[a..b][1..] == t[a + 1..b];
      WorkOfPrefix(t, a + 1, b);
    }
  }

  /** WorkCount really counts the non-link TRBs lying between two positions. */
  lemma WorkCountIsLength(t: seq<Trb>, a: nat, b: nat)
    requires Geometry(t) && a < |t| && b < |t|
    ensures |Work(Span(t, a, b))| == WorkCount(|t|, a, b)
  {
    if a <= b {
      WorkOfPrefix(t, a, b);
    } else {
      WorkConcat(t[a..], t[..b]);
      assert t[a..] == t[a..|t|] && t[..b] == t[0..b];
      WorkOfPrefix(t, a, |t|);
      WorkOfPrefix(t, 0, b);
    }
  }

  lemma SpanSplit(t: seq<Trb>, a: nat, m: nat, b: nat)
    requires a < |t| && m < |t| && b < |t|
    requires Dist(|t|, a, m) <= Dist(|t|, a, b)
    ensures Span(t, a, b) == Span(t, a, m) + Span(t, m, b)
  {
  }

  lemma SpanFirst(t: seq<Trb>, a: nat, b: nat)
    requires a < |t| && b < |t| && a != b
    ensures Span(t, a, b) == [t[a]] + Span(t, Next(|t|, a), b)
  {
    if a < b {
      assert t[a..b] == [t[a]] + t[a + 1..b];
    } else if a + 1 == |t| {
      assert t[a..] == [t[a]] && t[0..b] == t[..b];
    } else {
      assert t[a..] == [t[a]] + t[a + 1..];
      assert [t[a]] + t[a + 1..] + t[..b] == [t[a]] + (t[a + 1..] + t[..b]);
    }
  }

  /** Positions on the walk from a to b, b excluded. */
  predicate InSpan(n: nat, a: nat, j: nat, b: nat)
    requires a < n && b < n && j < n
  {
    Dist(n, a, j) < Dist(n, a, b)
  }

  lemma SpanUnchanged(t: seq<Trb>, u: seq<Trb>, a: nat, b: nat)
    requires |t| == |u| && a < |t| && b < |t|
    requires forall j :: 0 <= j < |t| && InSpan(|t|, a, j, b) ==> u[j] == t[j]
    ensures Span(u, a, b) == Span(t, a, b)
  {
    var n := |t|;
    forall k | 0 <= k < Dist(n, a, b)
      ensures Span(u, a, b)[k] == Span(t, a, b)[k]
    {
      var j := if a + k < n then a + k else a + k - n;
      assert InSpan(n, a, j, b);
    }
  }

  lemma SpanUpdate(t: seq<Trb>, j: nat, x: Trb, a: nat, b: nat)
    requires j < |t| && a < |t| && b < |t| && !InSpan(|t|, a, j, b)
    ensures Span(t[j := x], a, b) == Span(t, a, b)
  {
    SpanUnchanged(t, t[j := x], a, b);
  }

  /** Writing x on slot e and moving one on extends a span that ended at e. */
  lemma SpanAppend(t: seq<Trb>, a: nat, e: nat, x: Trb)
    requires a < |t| && e < |t| && Next(|t|, e) != a
    ensures Span(t[e := x], a, Next(|t|, e)) == Span(t, a, e) + [x]
    ensures Work(Span(t[e := x], a, Next(|t|, e))) ==
            Work(Span(t, a, e)) + (if x.typ.Link? then [] else [x])
  {
    WorkConcat(Span(t, a, e), [x]);
  }

  // ------------------------------------------------------- producer and consumer

  /** The driver's side of a ring.  `d`, `e` and `pcs` are dequeue, enqueue and
      cycle_state; `free` is num_trbs_free.  `withheld` is the first TRB of a TD
      under construction, whose cycle bit still says "not yours". */
  datatype Producer = Producer(
    tape: seq<Trb>,
    e: nat,
    pcs: bool,
    d: nat,
    free: int,
    withheld: Option<nat>
  )

  /** The controller's side: where it reads next and its consumer cycle state. */
  datatype Consumer = Consumer(h: nat, ccs: bool)

  /** The cycle bit of position j seen from a producer standing on e. */
  predicate LapBit(e: nat, pcs: bool, j: nat) {
    if j < e then pcs else !pcs
  }

  ghost predicate Bits(p: Producer) {
    forall j :: 0 <= j < |p.tape| ==>
      p.tape[j].cycle == (LapBit(p.e, p.pcs, j) != (p.withheld == Some(j)))
  }

  /** The consumer cycle state a controller holds when it stands on h. */
  predicate CycleAt(p: Producer, h: nat) {
    if h <= p.e then p.pcs else !p.pcs
  }

  /** Where a consumer obeying cycle bits has to stop. */
  function Stop(p: Producer): nat {
    if p.withheld.Some? then p.withheld.value else p.e
  }

  /** The driver has consumed everything and stepped over the link on which its own
      enqueue pointer is still resting. */
  predicate Drained(n: nat, d: nat, e: nat) {
    e % 64 == 63 && d == Next(n, e)
  }

  /** Non-link slots the driver regards as occupied. */
  function Occupied(n: nat, d: nat, e: nat): nat
    requires d < n && e < n && n % 64 == 0
  {
    if Drained(n, d, e) then 0 else WorkCount(n, d, e)
  }

  lemma NextOfLink(n: nat, j: nat)
    requires j < n && n % 64 == 0 && j % 64 == 63
    ensures Next(n, j) < n && Next(n, j) % 64 == 0
  {
  }

  lemma CountBound(n: nat, a: nat, b: nat)
    requires a < n && b < n && n % 64 == 0
    ensures WorkCount(n, a, b) <= Ord(n)
    ensures WorkCount(n, a, b) == Ord(n) <==> Drained(n, a, b)
  {
  }

  /** One more slot at the far end of a walk. */
  lemma CountNext(n: nat, a: nat, b: nat)
    requires a < n && b < n && n % 64 == 0 && Next(n, b) != a
    ensures WorkCount(n, a, Next(n, b)) == WorkCount(n, a, b) + (if b % 64 == 63 then 0 else 1)
    ensures Dist(n, a, Next(n, b)) == Dist(n, a, b) + 1
  {
  }

  /** One slot less at the near end. */
  lemma CountDrop(n: nat, a: nat, b: nat)
    requires a < n && b < n && n % 64 == 0 && a != b
    ensures WorkCount(n, Next(n, a), b) == WorkCount(n, a, b) - (if a % 64 == 63 then 0 else 1)
  {
  }

  lemma CountSplit(n: nat, a: nat, m: nat, b: nat)
    requires a < n && m < n && b < n && n % 64 == 0
    requires Dist(n, a, m) <= Dist(n, a, b)
    ensures WorkCount(n, a, b) == WorkCount(n, a, m) + WorkCount(n, m, b)
  {
  }

  lemma CountFirst(n: nat, a: nat, b: nat)
    requires a < n && b < n && n % 64 == 0 && a != b && a % 64 != 63
    ensures 0 < WorkCount(n, a, b)
  {
  }

  lemma OccupiedNext(n: nat, d: nat, e: nat)
    requires d < n && e < n && n % 64 == 0
    requires e % 64 == 63 || Occupied(n, d, e) < Ord(n) - 1
    ensures Next(n, e) < n
    ensures Occupied(n, d, Next(n, e)) == Occupied(n, d, e) + (if e % 64 == 63 then 0 else 1)
  {
    CountBound(n, d, e);
    if Next(n, e) != d {
      CountNext(n, d, e);
      CountBound(n, d, Next(n, e));
    }
  }

  lemma OccupiedDrop(n: nat, d: nat, e: nat)
    requires d < n && e < n && n % 64 == 0
    requires d % 64 == 63 || 0 < Occupied(n, d, e)
    ensures Next(n, d) < n
    ensures Occupied(n, Next(n, d), e) == Occupied(n, d, e) - (if d % 64 == 63 then 0 else 1)
  {
    CountBound(n, d, e);
    if d != e {
      CountDrop(n, d, e);
      CountBound(n, Next(n, d), e);
    }
  }

  ghost predicate Shape(p: Producer) {
    && Geometry(p.tape)
    && p.e < |p.tape|
    && p.d < |p.tape|
    && (p.withheld.Some? ==> p.withheld.value < |p.tape| && p.withheld.value % 64 != 63)
  }

  /** num_trbs_free plus the occupied slots is 63 per segment, less one. */
  ghost predicate Accounting(p: Producer)
    requires Shape(p)
  {
    p.free + Occupied(|p.tape|, p.d, p.e) == Ord(|p.tape|) - 1
  }

  /** What transfer rings keep besides: the free slots cover the part of dequeue's
      segment lying behind dequeue. */
  predicate Room(p: Producer) {
    p.d % 64 <= p.free
  }

  /** A consumer whose position and cycle state make sense for this ring. */
  ghost predicate Lawful(p: Producer, c: Consumer) {
    && Shape(p)
    && Bits(p)
    && c.h < |p.tape|
    && c.ccs == CycleAt(p, c.h)
    && (p.withheld.Some? ==> InSpan(|p.tape|, c.h, p.withheld.value, p.e))
  }

  /** The whole ring invariant.  The last clause says that the driver never gives up
      a slot before the controller has moved past it. */
  ghost predicate Inv(p: Producer, c: Consumer) {
    var inv :=
      && Lawful(p, c)
      && Accounting(p)
      && 0 <= p.free
      && WorkCount(|p.tape|, c.h, p.e) <= Occupied(|p.tape|, p.d, p.e);
    inv
  }

  /** What the consumer has been given and not yet taken. */
  function Queue(p: Producer, c: Consumer): seq<Trb>
    requires c.h < |p.tape| && Stop(p) < |p.tape|
  {
    Work(Span(p.tape, c.h, Stop(p)))
  }

  /** The TD being built behind the withheld TRB. */
  function Building(p: Producer): seq<Trb>
    requires p.e < |p.tape| && Stop(p) < |p.tape|
  {
    Work(Span(p.tape, Stop(p), p.e))
  }

  // --------------------------------------------------------- the consumer's rules

  predicate Owned(t: seq<Trb>, c: Consumer)
    requires c.h < |t|
  {
    t[c.h].cycle == c.ccs
  }

  /** One step of the consumer rules: pass an owned TRB, follow an owned link, and
      change the consumer cycle state on a link that toggles. */
  function Advance(t: seq<Trb>, c: Consumer): Consumer
    requires c.h < |t|
  {
    Consumer(Next(|t|, c.h), c.ccs != (t[c.h].typ.Link? && t[c.h].toggle))
  }

  function Taken(t: seq<Trb>, c: Consumer): seq<Trb>
    requires c.h < |t|
  {
    if t[c.h].typ.Link? then [] else [t[c.h]]
  }

  /** What a consumer takes in k steps if nobody else moves: it stops for good at
      the first TRB it does not own. */
  function Takes(t: seq<Trb>, c: Consumer, k: nat): seq<Trb>
    requires c.h < |t|
    decreases k
  {
    if k == 0 || !Owned(t, c) then [] else Taken(t, c) + Takes(t, Advance(t, c), k - 1)
  }

  /** A consumer owns the TRB it stands on exactly when it has not reached Stop. */
  lemma OwnedIffQueued(p: Producer, c: Consumer)
    requires Lawful(p, c)
    ensures Owned(p.tape, c) <==> c.h != Stop(p)
  {
  }

  lemma AdvanceLawful(p: Producer, c: Consumer)
    requires Lawful(p, c) && Owned(p.tape, c)
    ensures Lawful(p, Advance(p.tape, c))
    ensures Queue(p, c) == Taken(p.tape, c) + Queue(p, Advance(p.tape, c))
  {
    OwnedIffQueued(p, c);
    SpanFirst(p.tape, c.h, Stop(p));
    var s := Span(p.tape, c.h, Stop(p));
    assert s[1..] == Span(p.tape, Next(|p.tape|, c.h), Stop(p));
  }

  /** Left to itself, a consumer following cycle bits takes exactly the queue, in
      order, and then no more: it never acts on a stale slot. */
  lemma {:induction false} TakesExactlyTheQueue(p: Producer, c: Consumer, k: nat)
    requires Lawful(p, c)
    requires Dist(|p.tape|, c.h, Stop(p)) <= k
    ensures Takes(p.tape, c, k) == Queue(p, c)
    decreases k
  {
    OwnedIffQueued(p, c);
    if c.h != Stop(p) {
      AdvanceLawful(p, c);
      TakesExactlyTheQueue(p, Advance(p.tape, c), k - 1);
    }
  }

  lemma AdvanceKeeps(p: Producer, c: Consumer)
    requires Inv(p, c) && Owned(p.tape, c)
    ensures Inv(p, Advance(p.tape, c))
  {
    OwnedIffQueued(p, c);
    AdvanceLawful(p, c);
  }

  // --------------------------------------------------------- the producer's steps

  /** Write x on the slot under e and move on: what queueing an ordinary TRB and handing
      over a link have in common.  An x written with the complement of the cycle state
      is the withheld first TRB of a TD. */
  function Write(p: Producer, x: Trb): Producer
    requires p.e < |p.tape|
  {
    p.(tape := p.tape[p.e := x],
       e := Next(|p.tape|, p.e),
       pcs := p.pcs != (p.e == |p.tape| - 1),
       withheld := if x.cycle == p.pcs then p.withheld else Some(p.e))
  }

  ghost predicate CanWrite(p: Producer, c: Consumer, x: Trb) {
    && Lawful(p, c)
    && (x.typ.Link? <==> p.e % 64 == 63)
    && (x.typ.Link? ==> x.toggle == p.tape[p.e].toggle)
    && (x.cycle == p.pcs || (p.withheld.None? && p.e % 64 != 63))
    && Next(|p.tape|, p.e) != c.h
  }

  lemma WriteBits(p: Producer, c: Consumer, x: Trb)
    requires CanWrite(p, c, x)
    ensures Shape(Write(p, x)) && Bits(Write(p, x))
  {
    var q := Write(p, x);
    assert p.withheld.Some? ==> p.withheld.value != p.e;
    forall j | 0 <= j < |q.tape|
      ensures q.tape[j].cycle == (LapBit(q.e, q.pcs, j) != (q.withheld == Some(j)))
    {
      assert j != p.e ==> q.tape[j] == p.tape[j];
    }
  }

  lemma WriteLawful(p: Producer, c: Consumer, x: Trb)
    requires CanWrite(p, c, x)
    ensures Lawful(Write(p, x), c)
  {
    WriteBits(p, c, x);
    CountNext(|p.tape|, c.h, p.e);
  }

  lemma WriteQueue(p: Producer, c: Consumer, x: Trb)
    requires CanWrite(p, c, x)
    ensures Stop(Write(p, x)) < |p.tape| && Write(p, x).e < |p.tape|
    ensures var w := if x.typ.Link? then [] else [x];
            var q := Write(p, x);
            && Queue(q, c) == (if q.withheld.None? then Queue(p, c) + w else Queue(p, c))
            && Building(q) == (if q.withheld.None? then [] else Building(p) + w)
  {
    var q := Write(p, x);
    if p.withheld.Some? {
      SpanUnchanged(p.tape, q.tape, c.h, Stop(p));
      assert Next(|p.tape|, p.e) != Stop(p);
      SpanAppend(p.tape, Stop(p), p.e, x);
    } else if q.withheld.Some? {
      SpanUnchanged(p.tape, q.tape, c.h, p.e);
      SpanAppend(p.tape, p.e, p.e, x);
    } else {
      SpanAppend(p.tape, c.h, p.e, x);
    }
  }

  /** A link given to (or taken back from) the hardware, with a new chain bit. */
  function HandOver(link: Trb, chain: bool): Trb {
    link.(cycle := !link.cycle, chain := chain)
  }

  /** Hand over the link under e and move to the next segment. */
  function PassLink(p: Producer, chain: bool): Producer
    requires p.e < |p.tape|
  {
    p.(tape := p.tape[p.e := HandOver(p.tape[p.e], chain)],
       e := Next(|p.tape|, p.e),
       pcs := p.pcs != (p.e == |p.tape| - 1))
  }

  /** Queue one TRB.  A link that follows is passed only in the middle of a TD (or when
      the caller has more to come); `keepChain` is the quirk that leaves the link's own
      chain bit alone. */
  function Put(p: Producer, trb: Trb, more: bool, keepChain: bool): Producer
    requires p.e + 1 < |p.tape|
  {
    var q := Write(p, trb).(free := p.free - 1);
    if q.e % 64 == 63 && (trb.chain || more)
    then PassLink(q, if keepChain then q.tape[q.e].chain else trb.chain)
    else q
  }

  /** Give a finished TD to the hardware by writing its first cycle bit. */
  function Release(p: Producer, start: nat, startCycle: bool): Producer
    requires start < |p.tape|
  {
    p.(tape := p.tape[start := p.tape[start].(cycle := startCycle)], withheld := None)
  }

  /** Where dequeue goes when it gives up a slot: past a link that follows. */
  function NextDequeue(n: nat, d: nat): nat {
    if d % 64 == 62 then Next(n, d + 1) else Next(n, d)
  }

  /** Give up one slot.  Leaving a link frees nothing. */
  function Reclaim(p: Producer): Producer {
    p.(d := NextDequeue(|p.tape|, p.d),
       free := p.free + (if p.d % 64 == 63 then 0 else 1))
  }

  /** Handing over a link shows the consumer no new TRB. */
  lemma PassLinkKeeps(p: Producer, c: Consumer, chain: bool)
    requires Inv(p, c) && p.e % 64 == 63
    ensures Inv(PassLink(p, chain), c)
    ensures Queue(PassLink(p, chain), c) == Queue(p, c)
    ensures Building(PassLink(p, chain)) == Building(p)
  {
    var link := HandOver(p.tape[p.e], chain);
    LinkIsWritten(p, c, chain);
    WriteLawful(p, c, link);
    WriteQueue(p, c, link);
    CountNext(|p.tape|, c.h, p.e);
    OccupiedNext(|p.tape|, p.d, p.e);
  }

  /** Handing over a link is writing it with its cycle bit inverted. */
  lemma LinkIsWritten(p: Producer, c: Consumer, chain: bool)
    requires Inv(p, c) && p.e % 64 == 63
    ensures var link := HandOver(p.tape[p.e], chain);
            CanWrite(p, c, link) && Write(p, link) == PassLink(p, chain)
  {
    CountBound(|p.tape|, c.h, p.e);
    assert p.withheld.Some? ==> p.withheld.value != p.e;
  }

  /** Hand over a link under e if there is one and the caller wants to; `chain` is the
      link's new chain bit, if it is to change. */
  function Onward(p: Producer, hand: bool, chain: Option<bool>): Producer
    requires p.e < |p.tape|
  {
    if p.e % 64 == 63 && hand
    then PassLink(p, if chain.Some? then chain.value else p.tape[p.e].chain)
    else p
  }

  lemma OnwardKeeps(p: Producer, c: Consumer, hand: bool, chain: Option<bool>)
    requires Inv(p, c)
    ensures Inv(Onward(p, hand, chain), c)
    ensures Onward(p, hand, chain).d == p.d && Onward(p, hand, chain).free == p.free
    ensures Queue(Onward(p, hand, chain), c) == Queue(p, c)
    ensures Building(Onward(p, hand, chain)) == Building(p)
  {
    if p.e % 64 == 63 && hand {
      PassLinkKeeps(p, c, if chain.Some? then chain.value else p.tape[p.e].chain);
    }
  }

  /** The caller's side of Put: room for it, enqueue on an ordinary slot, and either a
      TRB carrying the cycle state or the first one of a TD. */
  ghost predicate CanPut(p: Producer, trb: Trb) {
    && p.e % 64 != 63
    && !trb.typ.Link?
    && 1 <= p.free
    && (trb.cycle == p.pcs || p.withheld.None?)
  }

  lemma WriteKeeps(p: Producer, c: Consumer, trb: Trb)
    requires Inv(p, c) && CanPut(p, trb)
    ensures p.e + 1 < |p.tape|
    ensures CanWrite(p, c, trb)
    ensures var q := Write(p, trb).(free := p.free - 1);
            && Inv(q, c)
            && Queue(q, c) == (if q.withheld.None? then Queue(p, c) + [trb] else Queue(p, c))
            && Building(q) == (if q.withheld.None? then [] else Building(p) + [trb])
  {
    var q := Write(p, trb).(free := p.free - 1);
    CountBound(|p.tape|, c.h, p.e);
    assert Next(|p.tape|, p.e) != c.h;
    WriteLawful(p, c, trb);
    CountNext(|p.tape|, c.h, p.e);
    OccupiedNext(|p.tape|, p.d, p.e);
    assert Lawful(q, c);
    WriteQueue(p, c, trb);
    assert Queue(q, c) == Queue(Write(p, trb), c) && Building(q) == Building(Write(p, trb));
  }

  lemma PutCases(p: Producer, trb: Trb, more: bool, keepChain: bool)
    requires p.e + 1 < |p.tape|
    ensures var q := Write(p, trb).(free := p.free - 1);
            Put(p, trb, more, keepChain) ==
            if q.e % 64 == 63 && (trb.chain || more)
            then PassLink(q, if keepChain then q.tape[q.e].chain else trb.chain)
            else q
  {
  }

  lemma PutIsOnward(p: Producer, trb: Trb, more: bool, keepChain: bool)
    requires p.e + 1 < |p.tape|
    ensures Put(p, trb, more, keepChain) ==
            Onward(Write(p, trb).(free := p.free - 1), trb.chain || more,
                   if keepChain then None else Some(trb.chain))
  {
  }

  lemma WriteSame(p: Producer)
    requires p.e < |p.tape|
    ensures p.tape[p.e := p.tape[p.e]] == p.tape
  {
  }

  lemma PutStored(p: Producer, trb: Trb, more: bool, keepChain: bool)
    requires p.e + 1 < |p.tape|
    ensures Put(p.(tape := p.tape[p.e := trb]), trb, more, keepChain) == Put(p, trb, more, keepChain)
  {
    var t := p.tape[p.e := trb];
    assert t[p.e := trb] == t;
  }

  /** Queueing keeps the invariant. */
  lemma PutKeeps(p: Producer, c: Consumer, trb: Trb, more: bool, keepChain: bool)
    requires Inv(p, c) && CanPut(p, trb)
    ensures p.e + 1 < |p.tape|
    ensures Inv(Put(p, trb, more, keepChain), c)
  {
    WriteKeeps(p, c, trb);
    PutCases(p, trb, more, keepChain);
    var q := Write(p, trb).(free := p.free - 1);
    if q.e % 64 == 63 && (trb.chain || more) {
      PassLinkKeeps(q, c, if keepChain then q.tape[q.e].chain else trb.chain);
    }
  }

  /** A TRB carrying the cycle state joins the queue if no TD is under construction;
      while a TD is being built the consumer sees no change at all. */
  lemma PutQueue(p: Producer, c: Consumer, trb: Trb, more: bool, keepChain: bool)
    requires Inv(p, c) && CanPut(p, trb)
    ensures p.e + 1 < |p.tape|
    ensures var q := Put(p, trb, more, keepChain);
            && Stop(q) < |q.tape| == |p.tape| && q.e < |q.tape|
            && q.d == p.d && q.free == p.free - 1
            && q.withheld == (if trb.cycle == p.pcs then p.withheld else Some(p.e))
            && Queue(q, c) == (if q.withheld.None? then Queue(p, c) + [trb] else Queue(p, c))
            && Building(q) == (if q.withheld.None? then [] else Building(p) + [trb])
  {
    WriteKeeps(p, c, trb);
    PutCases(p, trb, more, keepChain);
    var q := Write(p, trb).(free := p.free - 1);
    if q.e % 64 == 63 && (trb.chain || more) {
      PassLinkKeeps(q, c, if keepChain then q.tape[q.e].chain else trb.chain);
    }
  }

  // ------------------------------------------------------- what queueing writes where

  /** Tape u is tape t with trb queued on slot e: a link that follows is handed over in the
      middle of a TD, or when more is to come, by inverting its cycle bit; it takes over the
      TRB's chain bit, unless the hardware wants it left alone.  No other slot changes. */
  ghost predicate Queued(t: seq<Trb>, e: nat, trb: Trb, more: bool, keepChain: bool, u: seq<Trb>) {
    && e + 1 < |t| == |u|
    && u[e] == trb
    && var passed := (e + 1) % 64 == 63 && (trb.chain || more);
       && (passed ==>
             && u[e + 1].cycle == !t[e + 1].cycle
             && u[e + 1].chain == (if keepChain then t[e + 1].chain else trb.chain)
             && u[e + 1] == t[e + 1].(cycle := u[e + 1].cycle, chain := u[e + 1].chain))
       && (forall j :: 0 <= j < |t| && j != e && !(passed && j == e + 1) ==> u[j] == t[j])
  }

  lemma PutWrites(p: Producer, trb: Trb, more: bool, keepChain: bool)
    requires p.e + 1 < |p.tape|
    ensures Queued(p.tape, p.e, trb, more, keepChain, Put(p, trb, more, keepChain).tape)
  {
    PutCases(p, trb, more, keepChain);
  }

  /** Handing over the link under enqueue, as prepare_ring does it: only that link changes, its
      cycle bit is inverted, and its chain bit is the one asked for, if any. */
  lemma OnwardWrites(p: Producer, hand: bool, chain: Option<bool>)
    requires p.e < |p.tape|
    ensures var q := Onward(p, hand, chain);
            if p.e % 64 == 63 && hand then
              && |q.tape| == |p.tape| && q.e == Next(|p.tape|, p.e)
              && q.tape[p.e].cycle == !p.tape[p.e].cycle
              && (chain.Some? ==> q.tape[p.e].chain == chain.value)
              && (chain.None? ==> q.tape[p.e].chain == p.tape[p.e].chain)
              && q.tape[p.e] == p.tape[p.e].(cycle := q.tape[p.e].cycle, chain := q.tape[p.e].chain)
              && (forall j :: 0 <= j < |p.tape| && j != p.e ==> q.tape[j] == p.tape[j])
            else q == p
  {
  }

  /** Every link on the walk from a to b is chained. */
  ghost predicate LinksChained(t: seq<Trb>, a: nat, b: nat)
    requires a < |t| && b < |t|
  {
    forall j :: 0 <= j < |t| && InSpan(|t|, a, j, b) && t[j].typ.Link? ==> t[j].chain
  }

  /** On hardware without the quirk a TD that continues behind a link is chained through it:
      the TRB in front of a link that is crossed is chained itself. */
  lemma PutChains(p: Producer, trb: Trb, more: bool, f: nat)
    requires Geometry(p.tape) && p.e < |p.tape| && f < |p.tape| && p.e % 64 != 63
    requires !trb.typ.Link? && (more ==> trb.chain) && LinksChained(p.tape, f, p.e)
    ensures p.e + 1 < |p.tape| && Put(p, trb, more, false).e < |p.tape|
    ensures |Put(p, trb, more, false).tape| == |p.tape|
    ensures LinksChained(Put(p, trb, more, false).tape, f, Put(p, trb, more, false).e)
  {
    FollowedByLink(|p.tape|, p.e);
    var n, q := |p.tape|, Put(p, trb, more, false);
    PutCases(p, trb, more, false);
    PutWrites(p, trb, more, false);
    forall j | 0 <= j < n && InSpan(n, f, j, q.e) && q.tape[j].typ.Link? ensures q.tape[j].chain {
      if j != p.e && j != p.e + 1 {
        assert InSpan(n, f, j, p.e);
      }
    }
  }

  /** The cycle bit the first TRB of a TD has to receive: the cycle state the driver
      had when it queued it. */
  predicate StartCycle(p: Producer, start: nat) {
    LapBit(p.e, p.pcs, start)
  }

  lemma ReleaseQueue(p: Producer, q: Producer, c: Consumer, f: nat)
    requires Shape(p) && c.h < |p.tape| && p.withheld == Some(f)
    requires InSpan(|p.tape|, c.h, f, p.e)
    requires !p.tape[f].typ.Link?
    requires q == Release(p, f, StartCycle(p, f))
    ensures Building(p) != []
    ensures Queue(q, c) == Queue(p, c) +
                           [Building(p)[0].(cycle := StartCycle(p, f))] + Building(p)[1..]
  {
    var x := p.tape[f].(cycle := StartCycle(p, f));
    var before, rest := Span(p.tape, c.h, f), Span(p.tape, Next(|p.tape|, f), p.e);
    ReleaseSpans(p.tape, c.h, f, p.e, x);
    WorkAround(before, x, rest);
    WorkAround([], p.tape[f], rest);
  }

  /** The walks around a slot whose TRB is replaced by x. */
  lemma ReleaseSpans(t: seq<Trb>, h: nat, f: nat, e: nat, x: Trb)
    requires h < |t| && f < |t| && e < |t| && InSpan(|t|, h, f, e)
    ensures Next(|t|, f) < |t|
    ensures Span(t, f, e) == [] + ([t[f]] + Span(t, Next(|t|, f), e))
    ensures Span(t[f := x], h, e) == Span(t, h, f) + ([x] + Span(t, Next(|t|, f), e))
  {
    var u, g := t[f := x], Next(|t|, f);
    SpanUpdate(t, f, x, h, f);
    assert !InSpan(|t|, g, f, e);
    SpanUpdate(t, f, x, g, e);
    SpanFirst(t, f, e);
    SpanFirst(u, f, e);
    SpanSplit(u, h, f, e);
  }

  lemma WorkAround(before: seq<Trb>, x: Trb, rest: seq<Trb>)
    requires !x.typ.Link?
    ensures Work(before + ([x] + rest)) == Work(before) + [x] + Work(rest)
  {
    WorkConcat(before, [x] + rest);
    WorkConcat([x], rest);
    assert Work(before) + ([x] + Work(rest)) == Work(before) + [x] + Work(rest);
  }

  /** Release appends the whole TD to the queue in one step. */
  lemma ReleaseKeeps(p: Producer, c: Consumer)
    requires Inv(p, c) && p.withheld.Some?
    ensures var f := p.withheld.value;
            var q := Release(p, f, StartCycle(p, f));
            && Inv(q, c)
            && (Room(p) ==> Room(q))
            && Building(p) != []
            && Queue(q, c) == Queue(p, c) +
                              [Building(p)[0].(cycle := StartCycle(p, f))] + Building(p)[1..]
  {
    var f := p.withheld.value;
    var q := Release(p, f, StartCycle(p, f));
    ReleaseQueue(p, q, c, f);
    assert Geometry(q.tape);
    assert Bits(q);
  }

  lemma LawfulIgnoresDequeue(p: Producer, c: Consumer, d: nat, free: int)
    requires Lawful(p, c) && d < |p.tape|
    ensures Lawful(p.(d := d, free := free), c)
  {
  }

  lemma NextDequeueCounts(n: nat, d: nat, e: nat)
    requires d < n && e < n && n % 64 == 0
    requires d % 64 == 63 || 0 < Occupied(n, d, e)
    ensures NextDequeue(n, d) < n
    ensures Occupied(n, NextDequeue(n, d), e) ==
            Occupied(n, d, e) - (if d % 64 == 63 then 0 else 1)
    ensures NextDequeue(n, d) % 64 <= d % 64 + 1
    ensures d % 64 == 63 ==> NextDequeue(n, d) % 64 == 0
  {
    OccupiedDrop(n, d, e);
    if d % 64 == 62 {
      FollowedByLink(n, d);
      OccupiedDrop(n, d + 1, e);
      NextOfLink(n, d + 1);
    } else if d % 64 == 63 {
      NextOfLink(n, d);
    } else {
      FollowedByLink(n, d);
    }
  }

  lemma FollowedByLink(n: nat, d: nat)
    requires d < n && n % 64 == 0 && d % 64 != 63
    ensures d + 1 < n && (d + 1) % 64 == d % 64 + 1
  {
  }

  /** Giving up a slot the controller has passed keeps everything. */
  lemma ReclaimKeeps(p: Producer, c: Consumer)
    requires Inv(p, c)
    requires p.d % 64 == 63 || WorkCount(|p.tape|, c.h, p.e) < Occupied(|p.tape|, p.d, p.e)
    ensures Inv(Reclaim(p), c)
    ensures Room(p) ==> Room(Reclaim(p))
    ensures Reclaim(p) == p.(d := Reclaim(p).d, free := Reclaim(p).free)
  {
    NextDequeueCounts(|p.tape|, p.d, p.e);
    LawfulIgnoresDequeue(p, c, Reclaim(p).d, Reclaim(p).free);
  }
}
