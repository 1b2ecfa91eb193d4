/** Rings whose segments are mirrored into on-chip cache blocks.  The controller reads the
    device copy, so what it sees is decided by what has been copied and when. */
module Mirror {
  import opened Trbs
  import opened Laps
  import opened Growth

  /** A ring, the device's copy of its slots, and cache_enqueue: how far copying has got. */
  datatype Cached = Cached(p: Producer, dev: seq<Trb>, ce: nat)

  /** Device slots that may run ahead of cache_enqueue: links handed over early. */
  predicate EarlyLink(n: nat, ce: nat, e: nat, j: nat)
    requires ce < n && e < n && j < n
  {
    j % 64 == 63 && InSpan(n, ce, j, e)
  }

  /** Two memories agree on the walk from a to b. */
  ghost predicate Agree(t: seq<Trb>, u: seq<Trb>, a: nat, b: nat)
    requires |t| == |u| && a < |t| && b < |t|
  {
    forall j :: 0 <= j < |t| && InSpan(|t|, a, j, b) ==> t[j] == u[j]
  }

  lemma AgreeNext(t: seq<Trb>, u: seq<Trb>, a: nat, b: nat)
    requires |t| == |u| && a < |t| && b < |t| && a != b && Agree(t, u, a, b)
    ensures t[a] == u[a]
    ensures Next(|t|, a) < |t| && Agree(t, u, Next(|t|, a), b)
  {
    assert InSpan(|t|, a, a, b);
  }

  lemma AgreeFurther(t: seq<Trb>, u: seq<Trb>, a: nat, b: nat)
    requires |t| == |u| && a < |t| && b < |t| && Next(|t|, b) != a
    requires Agree(t, u, a, b) && t[b] == u[b]
    ensures Next(|t|, b) < |t| && Agree(t, u, a, Next(|t|, b))
  {
    forall j | 0 <= j < |t| && InSpan(|t|, a, j, Next(|t|, b))
      ensures t[j] == u[j]
    {
      assert j == b || InSpan(|t|, a, j, b);
    }
  }

  /** Where the device makes the controller stop: at cache_enqueue, or behind the link it
      rests on once that has been handed over. */
  function DeviceStop(m: Cached): nat {
    if m.ce % 64 == 63 && m.ce != m.p.e then Next(|m.p.tape|, m.ce) else m.ce
  }

  /** Outside the links handed over early, the device's cycle bits are those of a producer
      standing on cache_enqueue. */
  ghost predicate DeviceBits(m: Cached)
    requires |m.dev| == |m.p.tape| && m.ce < |m.dev| && m.p.e < |m.dev|
  {
    forall j :: 0 <= j < |m.dev| && !EarlyLink(|m.dev|, m.ce, m.p.e, j) ==>
      m.dev[j].cycle == LapBit(m.ce, CycleAt(m.p, m.ce), j)
  }

  /** What the device copy keeps: the slots the controller may still reach equal host memory,
      and everything published has been copied. */
  ghost predicate Mirrors(m: Cached, c: Consumer) {
    var n, s := |m.p.tape|, DeviceStop(m);
    var ok :=
      && Lawful(m.p, c)
      && |m.dev| == n && m.ce < n && s < n
      && DeviceBits(m)
      && Dist(n, c.h, s) <= Dist(n, c.h, Stop(m.p))
      && Agree(m.dev, m.p.tape, c.h, s)
      && Work(Span(m.p.tape, s, Stop(m.p))) == [];
    ok
  }

  /** The copy may be read in place of host memory up to slot s. */
  ghost predicate Readable(p: Producer, dev: seq<Trb>, c: Consumer, s: nat) {
    var readable :=
      && Lawful(p, c) && |dev| == |p.tape| && s < |dev|
      && Dist(|dev|, c.h, s) <= Dist(|dev|, c.h, Stop(p))
      && Agree(dev, p.tape, c.h, s);
    readable
  }

  /** One fetch from the copy, short of s, is one fetch from host memory. */
  lemma CopyStep(p: Producer, dev: seq<Trb>, c: Consumer, s: nat)
    requires Readable(p, dev, c, s) && c.h != s
    ensures Owned(dev, c) && Advance(dev, c) == Advance(p.tape, c)
    ensures Readable(p, dev, Advance(dev, c), s)
    ensures Dist(|dev|, Advance(dev, c).h, s) + 1 == Dist(|dev|, c.h, s)
  {
    OwnedIffQueued(p, c);
    AdvanceLawful(p, c);
    AgreeNext(dev, p.tape, c.h, s);
  }

  lemma CopyWork(p: Producer, dev: seq<Trb>, c: Consumer, s: nat)
    requires Readable(p, dev, c, s) && c.h != s
    ensures Advance(dev, c).h < |p.tape|
    ensures Work(Span(p.tape, c.h, s)) == Taken(dev, c) + Work(Span(p.tape, Advance(dev, c).h, s))
  {
    AgreeNext(dev, p.tape, c.h, s);
    SpanFirst(p.tape, c.h, s);
    WorkConcat([p.tape[c.h]], Span(p.tape, Next(|dev|, c.h), s));
  }

  lemma TakesOne(t: seq<Trb>, c: Consumer, k: nat)
    requires c.h < |t| && 0 < k && Owned(t, c)
    ensures Takes(t, c, k) == Taken(t, c) + Takes(t, Advance(t, c), k - 1)
  {
  }

  lemma TakesNone(p: Producer, dev: seq<Trb>, c: Consumer, k: nat)
    requires Readable(p, dev, c, c.h) && dev[c.h].cycle != CycleAt(p, c.h)
    ensures Takes(dev, c, k) == [] == Work(Span(p.tape, c.h, c.h))
  {
  }

  lemma {:induction false} TakesFromCopy(p: Producer, dev: seq<Trb>, c: Consumer, s: nat, k: nat)
    requires Readable(p, dev, c, s) && dev[s].cycle != CycleAt(p, s)
    requires Dist(|dev|, c.h, s) <= k
    ensures Takes(dev, c, k) == Work(Span(p.tape, c.h, s))
    decreases k
  {
    if c.h == s {
      TakesNone(p, dev, c, k);
    } else {
      CopyStep(p, dev, c, s);
      CopyWork(p, dev, c, s);
      TakesFromCopy(p, dev, Advance(dev, c), s, k - 1);
      TakesOne(dev, c, k);
    }
  }

  lemma DeviceStops(m: Cached, c: Consumer)
    requires Mirrors(m, c)
    ensures m.dev[DeviceStop(m)].cycle != CycleAt(m.p, DeviceStop(m))
  {
    if DeviceStop(m) != m.ce {
      NextOfLink(|m.p.tape|, m.ce);
    }
  }

  lemma WorkSplit(t: seq<Trb>, a: nat, m: nat, b: nat)
    requires a < |t| && m < |t| && b < |t| && Dist(|t|, a, m) <= Dist(|t|, a, b)
    ensures Work(Span(t, a, b)) == Work(Span(t, a, m)) + Work(Span(t, m, b))
  {
    SpanSplit(t, a, m, b);
    WorkConcat(Span(t, a, m), Span(t, m, b));
  }

  /** The controller, reading only the device copy, takes exactly the queue of host memory:
      every published TRB, in order, and nothing stale. */
  lemma DeviceTakesTheQueue(m: Cached, c: Consumer, k: nat)
    requires Mirrors(m, c) && |m.dev| <= k
    ensures Takes(m.dev, c, k) == Queue(m.p, c)
  {
    var s := DeviceStop(m);
    DeviceStops(m, c);
    TakesFromCopy(m.p, m.dev, c, s, k);
    WorkSplit(m.p.tape, c.h, s, Stop(m.p));
  }

  // ------------------------------------------------------------ every step keeps it

  lemma FetchReads(m: Cached, c: Consumer)
    requires Mirrors(m, c) && Owned(m.dev, c)
    ensures m.dev[c.h] == m.p.tape[c.h]
  {
    DeviceStops(m, c);
    AgreeNext(m.dev, m.p.tape, c.h, DeviceStop(m));
  }

  /** Fetching from the device copy is fetching from host memory. */
  lemma FetchMirrors(m: Cached, c: Consumer)
    requires Mirrors(m, c) && Owned(m.dev, c)
    ensures Owned(m.p.tape, c) && Advance(m.dev, c) == Advance(m.p.tape, c)
    ensures Mirrors(m, Advance(m.dev, c))
  {
    DeviceStops(m, c);
    assert c.h != DeviceStop(m);
    AgreeNext(m.dev, m.p.tape, c.h, DeviceStop(m));
    AdvanceLawful(m.p, c);
  }

  /** cache_enqueue stays behind enqueue. */
  ghost predicate Behind(m: Cached)
    requires m.ce < |m.p.tape| && m.p.e < |m.p.tape|
  {
    Next(|m.p.tape|, m.p.e) != m.ce
  }

  lemma NotCaught(m: Cached, c: Consumer)
    requires Inv(m.p, c) && Mirrors(m, c)
    requires m.p.e % 64 == 63 || 1 <= m.p.free
    ensures Behind(m) && Next(|m.p.tape|, m.p.e) != c.h
  {
    NotCaughtAt(|m.p.tape|, c.h, m.ce, DeviceStop(m), m.p.e);
  }

  lemma WholeLap(n: nat, h: nat, e: nat)
    requires h < n && e < n && n % 64 == 0
    ensures Next(n, e) == h ==>
            Dist(n, h, e) == n - 1 && WorkCount(n, h, e) == Ord(n) - if e % 64 == 63 then 0 else 1
  {
  }

  lemma NotCaughtAt(n: nat, h: nat, ce: nat, s: nat, e: nat)
    requires h < n && ce < n && s < n && e < n && n % 64 == 0
    requires s == if ce % 64 == 63 && ce != e then Next(n, ce) else ce
    requires Dist(n, h, s) <= Dist(n, h, e)
    requires WorkCount(n, h, e) < Ord(n) - (if e % 64 == 63 then 0 else 1)
    ensures Next(n, e) != ce && Next(n, e) != h
  {
    CountBound(n, h, e);
    WholeLap(n, h, e);
  }

  /** Writing a TRB (or passing a link) in the middle of a TD leaves the device alone. */
  lemma WriteMirrors(m: Cached, c: Consumer, x: Trb)
    requires Mirrors(m, c) && CanWrite(m.p, c, x) && Behind(m)
    requires Write(m.p, x).withheld.Some?
    requires m.ce == m.p.e ==> m.p.e % 64 != 63
    ensures Mirrors(m.(p := Write(m.p, x)), c)
  {
    var n, m' := |m.p.tape|, m.(p := Write(m.p, x));
    WriteLawful(m.p, c, x);
    WriteDeviceBits(m, x);
    assert DeviceStop(m') == DeviceStop(m);
    WriteAgrees(m.dev, m.p.tape, m.p.e, x, c.h, DeviceStop(m));
    SpanUpdate(m.p.tape, m.p.e, x, DeviceStop(m), Stop(m'.p));
  }

  lemma WriteAgrees(dev: seq<Trb>, t: seq<Trb>, e: nat, x: Trb, a: nat, b: nat)
    requires |dev| == |t| && e < |t| && a < |t| && b < |t|
    requires Agree(dev, t, a, b) && !InSpan(|t|, a, e, b)
    ensures Agree(dev, t[e := x], a, b)
  {
  }

  /** Moving enqueue on does not change what lap cache_enqueue is on. */
  lemma WriteDeviceBits(m: Cached, x: Trb)
    requires |m.dev| == |m.p.tape| && m.ce < |m.dev| && m.p.e < |m.dev|
    requires Behind(m) && DeviceBits(m)
    ensures Next(|m.dev|, m.p.e) < |m.dev|
    ensures DeviceBits(m.(p := Write(m.p, x)))
  {
    assert CycleAt(Write(m.p, x), m.ce) == CycleAt(m.p, m.ce);
  }

  lemma LeaveLinkBits(m: Cached, link: Trb)
    requires |m.dev| == |m.p.tape| && m.ce < |m.dev| && m.p.e < |m.dev|
    requires m.p.e % 64 == 63 && Behind(m) && DeviceBits(m)
    ensures Next(|m.dev|, m.p.e) < |m.dev|
    ensures DeviceBits(m.(p := Write(m.p, link), dev := m.dev[m.p.e := link]))
  {
    var n, e := |m.dev|, m.p.e;
    assert EarlyLink(n, m.ce, Next(n, e), e);
  }

  lemma AgreeStore(t: seq<Trb>, u: seq<Trb>, a: nat, b: nat, j: nat, x: Trb)
    requires |t| == |u| && a < |t| && b < |t| && j < |t| && Agree(t, u, a, b)
    ensures Agree(t[j := x], u[j := x], a, b)
  {
  }

  /** prepare_ring hands over the link under enqueue and writes it to the device at once. */
  lemma LeaveLinkMirrors(m: Cached, c: Consumer, chain: bool)
    requires Mirrors(m, c) && m.p.e % 64 == 63 && Behind(m) && Next(|m.p.tape|, m.p.e) != c.h
    ensures Mirrors(Cached(PassLink(m.p, chain),
                           m.dev[m.p.e := HandOver(m.p.tape[m.p.e], chain)], m.ce), c)
  {
    var n, e, link := |m.p.tape|, m.p.e, HandOver(m.p.tape[m.p.e], chain);
    var m' := Cached(PassLink(m.p, chain), m.dev[e := link], m.ce);
    assert m.p.withheld.Some? ==> m.p.withheld.value != e;
    assert CanWrite(m.p, c, link) && m'.p == Write(m.p, link);
    WriteLawful(m.p, c, link);
    LeaveLinkBits(m, link);
    NextOfLink(n, e);
    AgreeStore(m.dev, m.p.tape, c.h, DeviceStop(m), e, link);
    if m.ce == e {
      AgreeFurther(m'.dev, m'.p.tape, c.h, e);
    } else {
      LeaveLinkWork(m, c, link);
    }
  }

  lemma LeaveLinkWork(m: Cached, c: Consumer, link: Trb)
    requires Mirrors(m, c) && m.p.e % 64 == 63 && m.ce != m.p.e && link.typ.Link?
    requires Behind(m) && Next(|m.p.tape|, m.p.e) != c.h && link.cycle == m.p.pcs
    ensures var q := Write(m.p, link);
            Stop(q) < |m.p.tape| && Work(Span(q.tape, DeviceStop(m), Stop(q))) == []
  {
    var n, e, s := |m.p.tape|, m.p.e, DeviceStop(m);
    if m.p.withheld.Some? {
      SpanUpdate(m.p.tape, e, link, s, Stop(m.p));
    } else if s != Next(n, e) {
      SpanAppend(m.p.tape, s, e, link);
    }
  }

  /** Device memory after the slots from a up to b have been copied from the host. */
  function CopySpan(host: seq<Trb>, dev: seq<Trb>, a: nat, b: nat): (r: seq<Trb>)
    requires |host| == |dev| && a < |host| && b < |host|
    ensures |r| == |host|
  {
    seq(|host|, j requires 0 <= j < |host| => if InSpan(|host|, a, j, b) then host[j] else dev[j])
  }

  /** ehub_xhci_cache_copy_from_ring after giveback_first_trb. */
  function Publish(m: Cached, f: nat, cycle: bool): Cached
    requires f < |m.p.tape| == |m.dev| && m.ce < |m.dev| && m.p.e < |m.dev|
  {
    var q := Release(m.p, f, cycle);
    Cached(q, CopySpan(q.tape, m.dev, m.ce, m.p.e), m.p.e)
  }

  lemma PublishBits(m: Cached, q: Producer)
    requires |m.dev| == |m.p.tape| && m.ce < |m.dev| && m.p.e < |m.dev|
    requires DeviceBits(m) && |q.tape| == |m.dev| && q.e == m.p.e && q.pcs == m.p.pcs
    requires q.withheld.None? && Bits(q)
    ensures DeviceBits(Cached(q, CopySpan(q.tape, m.dev, m.ce, m.p.e), m.p.e))
  {
  }

  lemma PublishAgrees(m: Cached, c: Consumer, q: Producer, f: nat)
    requires |m.dev| == |m.p.tape| == |q.tape| && m.ce < |m.dev| && m.p.e < |m.dev|
    requires c.h < |m.dev| && f < |m.dev| && DeviceStop(m) < |m.dev|
    requires forall j :: 0 <= j < |m.dev| && j != f ==> q.tape[j] == m.p.tape[j]
    requires Agree(m.dev, m.p.tape, c.h, DeviceStop(m))
    requires Dist(|m.dev|, c.h, DeviceStop(m)) <= Dist(|m.dev|, c.h, f)
    requires InSpan(|m.dev|, c.h, f, m.p.e)
    ensures Agree(CopySpan(q.tape, m.dev, m.ce, m.p.e), q.tape, c.h, m.p.e)
  {
    var n, s, e := |m.dev|, DeviceStop(m), m.p.e;
    forall j | 0 <= j < n && InSpan(n, c.h, j, e)
      ensures CopySpan(q.tape, m.dev, m.ce, e)[j] == q.tape[j]
    {
      if !InSpan(n, m.ce, j, e) {
        assert InSpan(n, c.h, j, s);
      }
    }
  }

  /** Publishing a TD copies the whole stretch built since the last copy, and the device copy
      equals host memory from the controller to enqueue. */
  lemma PublishMirrors(m: Cached, c: Consumer)
    requires Inv(m.p, c) && Mirrors(m, c) && m.p.withheld.Some?
    ensures var f := m.p.withheld.value;
            var m' := Publish(m, f, StartCycle(m.p, f));
            && Mirrors(m', c)
            && Agree(m'.dev, m'.p.tape, c.h, m'.p.e)
  {
    var f := m.p.withheld.value;
    var q := Release(m.p, f, StartCycle(m.p, f));
    ReleaseKeeps(m.p, c);
    PublishBits(m, q);
    PublishAgrees(m, c, q, f);
  }

  // --------------------------------------------- agreement from dequeue to the controller

  /** The oldest slot that still matters: dequeue, unless the controller stands on the link
      right behind it. */
  function Oldest(p: Producer, c: Consumer): nat {
    if c.h % 64 == 63 && p.d == Next(|p.tape|, c.h) then c.h else p.d
  }

  /** What the controller has passed and the driver not yet given up is the same in both
      memories. */
  ghost predicate Held(m: Cached, c: Consumer) {
    var held :=
      && |m.dev| == |m.p.tape| && c.h < |m.dev| && m.p.d < |m.dev|
      && Agree(m.dev, m.p.tape, Oldest(m.p, c), c.h);
    held
  }

  lemma DequeueBehind(n: nat, d: nat, h: nat, e: nat)
    requires d < n && h < n && e < n && n % 64 == 0
    requires WorkCount(n, h, e) <= Occupied(n, d, e)
    requires !(h % 64 == 63 && d == Next(n, h))
    ensures Dist(n, d, h) + Dist(n, h, e) == Dist(n, d, e)
  {
    if Dist(n, d, h) + Dist(n, h, e) != Dist(n, d, e) {
      CountSplit(n, h, d, e);
      NoWorkOnTheWay(n, h, d);
    }
  }

  lemma NoWorkOnTheWay(n: nat, a: nat, b: nat)
    requires a < n && b < n && n % 64 == 0 && a != b && WorkCount(n, a, b) == 0
    ensures a % 64 == 63 && b == Next(n, a)
  {
    if a % 64 != 63 {
      CountFirst(n, a, b);
    } else {
      CountDrop(n, a, b);
      NextOfLink(n, a);
      if b != Next(n, a) {
        CountFirst(n, Next(n, a), b);
      }
    }
  }

  lemma OldestBehind(p: Producer, c: Consumer)
    requires Inv(p, c)
    ensures var n := |p.tape|;
            Dist(n, Oldest(p, c), c.h) + Dist(n, c.h, p.e) == Dist(n, Oldest(p, c), p.e)
  {
    if Oldest(p, c) != c.h {
      DequeueBehind(|p.tape|, p.d, c.h, p.e);
    }
  }

  /** Storing under enqueue, on the host or on both sides, touches none of it. */
  lemma StoreHeld(m: Cached, c: Consumer, m': Cached)
    requires Inv(m.p, c) && Held(m, c)
    requires m'.p.d == m.p.d && |m'.dev| == |m'.p.tape| == |m.dev|
    requires forall j :: 0 <= j < |m.dev| && j != m.p.e ==>
               m'.p.tape[j] == m.p.tape[j] && m'.dev[j] == m.dev[j]
    ensures Held(m', c)
  {
    OldestBehind(m.p, c);
  }

  lemma FetchHeld(m: Cached, c: Consumer)
    requires Mirrors(m, c) && Held(m, c) && Owned(m.dev, c)
    ensures Held(m, Advance(m.dev, c))
  {
    DeviceStops(m, c);
    AgreeNext(m.dev, m.p.tape, c.h, DeviceStop(m));
    var n := |m.dev|;
    if Next(n, c.h) != Oldest(m.p, c) {
      AgreeFurther(m.dev, m.p.tape, Oldest(m.p, c), c.h);
    }
  }

  lemma ReclaimHeld(m: Cached, c: Consumer)
    requires Inv(m.p, c) && Held(m, c)
    requires m.p.d % 64 == 63 ||
             WorkCount(|m.p.tape|, c.h, m.p.e) < Occupied(|m.p.tape|, m.p.d, m.p.e)
    ensures Held(m.(p := Reclaim(m.p)), c)
  {
    var n, d, h := |m.p.tape|, m.p.d, c.h;
    NextDequeueCounts(n, d, m.p.e);
    ReclaimMoves(n, d, h, m.p.e);
    if d != h {
      AgreeReclaimed(m.dev, m.p.tape, d, h);
    }
  }

  lemma AgreeReclaimed(t: seq<Trb>, u: seq<Trb>, d: nat, h: nat)
    requires |t| == |u| && |t| % 64 == 0 && d < |t| && h < |t| && d != h && Agree(t, u, d, h)
    ensures NextDequeue(|t|, d) < |t|
    ensures !(d % 64 == 62 && d + 1 == h) ==> Agree(t, u, NextDequeue(|t|, d), h)
  {
    AgreeNext(t, u, d, h);
    if d % 64 == 62 && d + 1 != h {
      AgreeNext(t, u, d + 1, h);
    }
  }

  /** What lets dequeue move: it is behind the controller, or on a link with it. */
  lemma ReclaimMoves(n: nat, d: nat, h: nat, e: nat)
    requires d < n && h < n && e < n && n % 64 == 0
    requires d % 64 == 63 || WorkCount(n, h, e) < Occupied(n, d, e)
    ensures !(h % 64 == 63 && d == Next(n, h))
    ensures d == h ==> h % 64 == 63 && NextDequeue(n, d) == Next(n, h)
    ensures d % 64 == 62 && d + 1 == h ==> NextDequeue(n, d) == Next(n, h)
  {
    if h % 64 == 63 && d == Next(n, h) {
      NextOfLink(n, h);
      CountBound(n, d, e);
      if h != e {
        CountDrop(n, h, e);
      }
    }
  }

  lemma PublishHeld(m: Cached, c: Consumer, m': Cached)
    requires Inv(m.p, c) && Held(m, c) && m.p.withheld.Some? && m.ce < |m.dev|
    requires m' == Publish(m, m.p.withheld.value, StartCycle(m.p, m.p.withheld.value))
    ensures Held(m', c)
  {
    var n, f := |m.dev|, m.p.withheld.value;
    OldestBehind(m.p, c);
    BehindBoth(n, Oldest(m.p, c), c.h, m.p.e, f);
  }

  lemma BehindBoth(n: nat, a: nat, h: nat, e: nat, f: nat)
    requires a < n && h < n && e < n && f < n && InSpan(n, h, f, e)
    requires Dist(n, a, h) + Dist(n, h, e) == Dist(n, a, e)
    ensures !InSpan(n, a, f, h)
  {
  }

  lemma AgreeJoin(t: seq<Trb>, u: seq<Trb>, a: nat, b: nat, e: nat)
    requires |t| == |u| && a < |t| && b < |t| && e < |t|
    requires Agree(t, u, a, b) && Agree(t, u, b, e)
    requires Dist(|t|, a, b) + Dist(|t|, b, e) == Dist(|t|, a, e)
    ensures Agree(t, u, a, e)
  {
  }

  /** Publishing a TD copies the whole stretch built since the last copy, and the device copy
      then equals host memory from dequeue to enqueue. */
  lemma PublishShowsAll(m: Cached, c: Consumer)
    requires Inv(m.p, c) && Mirrors(m, c) && Held(m, c) && m.p.withheld.Some?
    ensures var f := m.p.withheld.value;
            var m' := Publish(m, f, StartCycle(m.p, f));
            && Mirrors(m', c) && Held(m', c)
            && Agree(m'.dev, m'.p.tape, m.p.d, m'.p.e)
  {
    var f := m.p.withheld.value;
    var m' := Publish(m, f, StartCycle(m.p, f));
    PublishMirrors(m, c);
    PublishHeld(m, c, m');
    OldestBehind(m.p, c);
    AgreeJoin(m'.dev, m'.p.tape, Oldest(m.p, c), c.h, m.p.e);
    if Oldest(m.p, c) != m.p.d {
      AgreeNext(m'.dev, m'.p.tape, c.h, m.p.e);
    }
  }

  // ------------------------------------------------------------------------- expansion

  /** cache_enqueue still rests on the link of the segment that enqueue has come round to. */
  predicate CacheLingers(m: Cached) {
    m.p.e < m.ce && m.ce / 64 == m.p.e / 64
  }

  lemma NothingLeft(t: seq<Trb>, a: nat, b: nat)
    requires Geometry(t) && a < |t| && b < |t| && a % 64 != 63 && Work(Span(t, a, b)) == []
    ensures a == b
  {
    if a != b {
      SpanFirst(t, a, b);
    }
  }

  /** Between two TDs everything queued has been copied, so cache_enqueue cannot linger: it
      takes an expansion in the middle of a TD. */
  lemma LingersOnlyMidTd(m: Cached, c: Consumer)
    requires Mirrors(m, c) && m.p.withheld.None? && 64 < |m.p.tape|
    ensures !CacheLingers(m)
  {
    var n, s := |m.p.tape|, DeviceStop(m);
    if m.ce != m.p.e {
      if m.ce % 64 == 63 {
        NextOfLink(n, m.ce);
      }
      NothingLeft(m.p.tape, s, m.p.e);
      if m.ce % 64 == 63 {
        NextSegment(n, m.ce);
      }
    }
  }

  /** The device makes the controller stop exactly where host memory does. */
  lemma StopsAgree(m: Cached, c: Consumer)
    requires Mirrors(m, c)
    ensures DeviceStop(m) == Stop(m.p)
  {
    var n, s := |m.p.tape|, DeviceStop(m);
    if m.ce % 64 == 63 && m.ce != m.p.e {
      NextOfLink(n, m.ce);
    }
    if s % 64 != 63 {
      NothingLeft(m.p.tape, s, Stop(m.p));
    }
  }

  lemma NextSegment(n: nat, j: nat)
    requires j < n && n % 64 == 0 && 64 < n && j % 64 == 63
    ensures Next(n, j) / 64 != j / 64
  {
  }

  lemma ShiftNext(n: nat, k: nat, cut: nat, j: nat)
    requires j < n && 0 < cut <= n && j != cut - 1
    ensures Shift(cut, k, Next(n, j)) == Next(n + k, Shift(cut, k, j))
  {
  }

  /** Moving positions with the splice keeps who lies on which walk. */
  lemma ShiftInSpan(n: nat, k: nat, cut: nat, a: nat, j: nat, b: nat)
    requires a < n && j < n && b < n && 0 < cut <= n && !InSpan(n, a, cut - 1, b)
    ensures Shift(cut, k, a) < n + k && Shift(cut, k, j) < n + k && Shift(cut, k, b) < n + k
    ensures InSpan(n, a, j, b) <==>
            InSpan(n + k, Shift(cut, k, a), Shift(cut, k, j), Shift(cut, k, b))
    ensures Dist(n + k, Shift(cut, k, a), Shift(cut, k, b)) == Dist(n, a, b)
  {
  }

  lemma GrowAgrees(t: seq<Trb>, u: seq<Trb>, cut: nat, x: Trb, y: Trb,
                   blank: seq<Trb>, devBlank: seq<Trb>, a: nat, b: nat)
    requires |t| == |u| && a < |t| && b < |t| && 0 < cut <= |t| && |blank| == |devBlank|
    requires !InSpan(|t|, a, cut - 1, b) && Agree(t, u, a, b)
    ensures Shift(cut, |blank|, a) < |t| + |blank| && Shift(cut, |blank|, b) < |t| + |blank|
    ensures Agree(GrowTape(t, cut, x, devBlank), GrowTape(u, cut, y, blank),
                  Shift(cut, |blank|, a), Shift(cut, |blank|, b))
  {
    var n, k := |t|, |blank|;
    var t', u' := GrowTape(t, cut, x, devBlank), GrowTape(u, cut, y, blank);
    var a', b' := Shift(cut, k, a), Shift(cut, k, b);
    GrownSlots(t, cut, x, devBlank);
    GrownSlots(u, cut, y, blank);
    forall j | 0 <= j < n + k && InSpan(n + k, a', j, b')
      ensures t'[j] == u'[j]
    {
      if j < cut {
        ShiftInSpan(n, k, cut, a, j, b);
      } else if cut + k <= j {
        ShiftInSpan(n, k, cut, a, j - k, b);
      } else {
        assert false;
      }
    }
  }

  /** An expansion of a cached ring.  The device receives the new segments and the re-pointed
      link; the toggle bits are moved in host memory only, after those writes. */
  function GrowCached(m: Cached, ptr: nat, quirk: bool, blank: seq<Trb>,
                      devLink: Trb, devBlank: seq<Trb>): Cached
    requires m.p.e < |m.p.tape| == |m.dev| && |m.p.tape| % 64 == 0
  {
    CutBound(|m.dev|, m.p.e);
    Cached(Grow(m.p, ptr, quirk, blank),
           GrowTape(m.dev, Cut(m.p.e), devLink, devBlank),
           Shift(Cut(m.p.e), |blank|, m.ce))
  }

  lemma GrowDeviceBits(m: Cached, ptr: nat, quirk: bool, blank: seq<Trb>,
                       devLink: Trb, devBlank: seq<Trb>)
    requires Shape(m.p) && |m.dev| == |m.p.tape| && m.ce < |m.dev| && DeviceBits(m)
    requires 0 < |blank| == |devBlank| && |blank| % 64 == 0
    requires devLink.cycle == !m.p.pcs
    requires forall j :: 0 <= j < |devBlank| ==> devBlank[j].cycle == !m.p.pcs
    requires !(m.p.e < m.ce && m.ce / 64 == m.p.e / 64)
    ensures var m' := GrowCached(m, ptr, quirk, blank, devLink, devBlank);
            m'.ce < |m'.dev| == |m'.p.tape| && DeviceBits(m')
  {
    var m' := GrowCached(m, ptr, quirk, blank, devLink, devBlank);
    var n, k, cut, e := |m.dev|, |blank|, Cut(m.p.e), m.p.e;
    CutBound(n, e);
    NotPastTheCut(n, m.ce, e, e);
    GrownSlots(m.dev, cut, devLink, devBlank);
    forall j | 0 <= j < |m'.dev| && !EarlyLink(n + k, m'.ce, e, j)
      ensures m'.dev[j].cycle == LapBit(m'.ce, CycleAt(m'.p, m'.ce), j)
    {
      if cut - 1 <= j < cut + k {
        NewSlotBit(e, m.p.pcs, cut, k, m.ce, j);
      } else {
        var i := if j < cut then j else j - k;
        assert m'.dev[j] == m.dev[i];
        OldSlotEarly(n, k, cut, m.ce, i, e, j);
        OldSlotBit(e, m.p.pcs, cut, k, m.ce, i);
      }
    }
  }

  lemma OldSlotEarly(n: nat, k: nat, cut: nat, ce: nat, i: nat, e: nat, j: nat)
    requires ce < n && i < n && e < n && e < cut <= n && k % 64 == 0
    requires !InSpan(n, ce, cut - 1, e) && j == Shift(cut, k, i)
    ensures j < n + k && Shift(cut, k, ce) < n + k
    ensures EarlyLink(n + k, Shift(cut, k, ce), e, j) <==> EarlyLink(n, ce, e, i)
  {
    ShiftInSpan(n, k, cut, ce, i, e);
    SameSlot(j, j - i);
  }

  /** cache_enqueue's lap, seen from a producer on e. */
  predicate LapOf(e: nat, pcs: bool, ce: nat) {
    if ce <= e then pcs else !pcs
  }

  /** The slots between the re-pointed link and the following segment belong to the driver. */
  lemma NewSlotBit(e: nat, pcs: bool, cut: nat, k: nat, ce: nat, j: nat)
    requires e < cut && !(e < ce < cut) && cut - 1 <= j < cut + k
    ensures LapBit(Shift(cut, k, ce), LapOf(e, pcs, Shift(cut, k, ce)), j) == !pcs
  {
  }

  /** All other slots keep their bit. */
  lemma OldSlotBit(e: nat, pcs: bool, cut: nat, k: nat, ce: nat, i: nat)
    requires e < cut && !(e < ce < cut)
    ensures LapBit(Shift(cut, k, ce), LapOf(e, pcs, Shift(cut, k, ce)), Shift(cut, k, i)) ==
            LapBit(ce, LapOf(e, pcs, ce), i)
  {
  }

  lemma GrowDeviceStop(m: Cached, ptr: nat, quirk: bool, blank: seq<Trb>,
                       devLink: Trb, devBlank: seq<Trb>)
    requires m.p.e < |m.p.tape| == |m.dev| && |m.p.tape| % 64 == 0 && m.ce < |m.dev|
    requires |blank| == |devBlank| && |blank| % 64 == 0
    requires !(m.p.e < m.ce && m.ce / 64 == m.p.e / 64)
    ensures DeviceStop(GrowCached(m, ptr, quirk, blank, devLink, devBlank)) ==
            Shift(Cut(m.p.e), |blank|, DeviceStop(m))
  {
    var n, cut := |m.dev|, Cut(m.p.e);
    CutBound(n, m.p.e);
    if m.ce % 64 == 63 && m.ce != m.p.e {
      ShiftNext(n, |blank|, cut, m.ce);
    }
    ShiftMod(n, |blank|, cut, m.ce, m.p.e);
  }

  lemma ShiftMod(n: nat, k: nat, cut: nat, j: nat, e: nat)
    requires 0 < cut && e < cut
    ensures Shift(cut, k, j) == e <==> j == e
    ensures k % 64 == 0 ==> Shift(cut, k, j) % 64 == j % 64
  {
  }

  /** Expanding a cached ring keeps the mirror, unless the controller or cache_enqueue lingers
      on the link that is re-pointed. */
  lemma GrowMirrors(m: Cached, c: Consumer, ptr: nat, quirk: bool, blank: seq<Trb>,
                    devLink: Trb, devBlank: seq<Trb>)
    requires Mirrors(m, c) && Spliceable(m.p, blank)
    requires !Lingers(m.p, c) && !CacheLingers(m)
    requires devLink.cycle == !m.p.pcs && |devBlank| == |blank|
    requires forall j :: 0 <= j < |devBlank| ==> devBlank[j].cycle == !m.p.pcs
    ensures Mirrors(GrowCached(m, ptr, quirk, blank, devLink, devBlank), Moved(m.p, blank, c))
  {
    var m' := GrowCached(m, ptr, quirk, blank, devLink, devBlank);
    var n, cut, s := |m.dev|, Cut(m.p.e), DeviceStop(m);
    CutBound(n, m.p.e);
    GrowLawful(m.p, c, ptr, quirk, blank);
    GrowDeviceBits(m, ptr, quirk, blank, devLink, devBlank);
    GrowDeviceStop(m, ptr, quirk, blank, devLink, devBlank);
    assert Stop(m.p) == m.p.e || InSpan(n, c.h, Stop(m.p), m.p.e);
    BeforeTheCut(n, c.h, s, Stop(m.p), m.p.e);
    GrowReachable(m, c, ptr, quirk, blank, devLink, devBlank);
  }

  /** A cache_enqueue that lingers stays on the link, with the new segments in front of it and
      all that is still to be copied behind them. */
  lemma StopLost(n: nat, k: nat, h: nat, e: nat, ce: nat, s: nat, stop: nat)
    requires h < n && e < n && ce < n && s < n && stop < n && n % 64 == 0 && 0 < k
    requires s == if ce % 64 == 63 && ce != e then Next(n, ce) else ce
    requires Dist(n, h, s) <= Dist(n, h, stop) <= Dist(n, h, e)
    requires !(e < h && h / 64 == e / 64) && e < ce && ce / 64 == e / 64
    ensures ce == Cut(e) - 1 && Cut(e) < n + k && Shift(Cut(e), k, h) < n + k
    ensures Shift(Cut(e), k, stop) < n + k
    ensures Dist(n + k, Shift(Cut(e), k, h), Shift(Cut(e), k, stop)) <
            Dist(n + k, Shift(Cut(e), k, h), Cut(e))
  {
    CutBound(n, e);
  }

  lemma LingeringLosesMirror(m: Cached, c: Consumer, ptr: nat, quirk: bool, blank: seq<Trb>,
                             devLink: Trb, devBlank: seq<Trb>)
    requires Mirrors(m, c) && Spliceable(m.p, blank) && |devBlank| == |blank|
    requires !Lingers(m.p, c) && CacheLingers(m)
    ensures !Mirrors(GrowCached(m, ptr, quirk, blank, devLink, devBlank), Moved(m.p, blank, c))
  {
    var m' := GrowCached(m, ptr, quirk, blank, devLink, devBlank);
    StopLost(|m.dev|, |blank|, c.h, m.p.e, m.ce, DeviceStop(m), Stop(m.p));
    assert m'.ce == m.ce && DeviceStop(m') == Cut(m.p.e);
    assert Stop(m'.p) == Shift(Cut(m.p.e), |blank|, Stop(m.p));
  }

  /** The exact condition: an expansion leaves both the mirror and what the controller has been
      given as they were if and only if neither the controller nor cache_enqueue lingers. */
  lemma GrowMirrorsIff(m: Cached, c: Consumer, ptr: nat, quirk: bool, blank: seq<Trb>,
                       devLink: Trb, devBlank: seq<Trb>)
    requires Inv(m.p, c) && Room(m.p) && Mirrors(m, c) && Spliceable(m.p, blank)
    requires devLink.cycle == !m.p.pcs && |devBlank| == |blank|
    requires forall j :: 0 <= j < |devBlank| ==> devBlank[j].cycle == !m.p.pcs
    ensures Lawful(Grow(m.p, ptr, quirk, blank), Moved(m.p, blank, c))
    ensures Mirrors(GrowCached(m, ptr, quirk, blank, devLink, devBlank), Moved(m.p, blank, c)) &&
            Queue(Grow(m.p, ptr, quirk, blank), Moved(m.p, blank, c)) == Queue(m.p, c)
            <==> !Lingers(m.p, c) && !CacheLingers(m)
  {
    ViewIffNotLingering(m.p, c, ptr, quirk, blank);
    if !Lingers(m.p, c) {
      if CacheLingers(m) {
        LingeringLosesMirror(m, c, ptr, quirk, blank, devLink, devBlank);
      } else {
        GrowMirrors(m, c, ptr, quirk, blank, devLink, devBlank);
      }
    }
  }

  lemma OldestGrows(p: Producer, c: Consumer, ptr: nat, quirk: bool, blank: seq<Trb>)
    requires Shape(p) && Spliceable(p, blank) && c.h < |p.tape|
    requires !Lingers(p, c) && !Drained(|p.tape|, p.d, p.e)
    ensures Oldest(Grow(p, ptr, quirk, blank), Moved(p, blank, c)) ==
            Shift(Cut(p.e), |blank|, Oldest(p, c))
  {
    var n, k, cut := |p.tape|, |blank|, Cut(p.e);
    CutBound(n, p.e);
    if c.h == cut - 1 && p.d == Next(n, c.h) {
      CutSegment(p.e);
    }
    ShiftMod(n, k, cut, c.h, p.e);
    OldestShifts(n, k, cut, c.h, p.d, p.e);
  }

  lemma CutSegment(e: nat)
    ensures (Cut(e) - 1) / 64 == e / 64 && (Cut(e) - 1) % 64 == 63
  {
  }

  /** The stretch from the oldest slot to the controller does not cross the splice. */
  lemma OldestBeforeTheCut(p: Producer, c: Consumer)
    requires Inv(p, c) && Room(p) && !Lingers(p, c)
    ensures Cut(p.e) <= |p.tape| && Oldest(p, c) < |p.tape|
    ensures !InSpan(|p.tape|, Oldest(p, c), Cut(p.e) - 1, c.h)
  {
    EnqueueNotBehindDequeue(p);
    OldestBehind(p, c);
    BeforeTheCut(|p.tape|, Oldest(p, c), c.h, p.e, p.e);
  }

  /** An expansion carries the agreement from dequeue on along. */
  lemma GrowHeld(m: Cached, c: Consumer, ptr: nat, quirk: bool, blank: seq<Trb>,
                 devLink: Trb, devBlank: seq<Trb>)
    requires Inv(m.p, c) && Room(m.p) && Held(m, c) && Spliceable(m.p, blank)
    requires !Lingers(m.p, c) && !Drained(|m.p.tape|, m.p.d, m.p.e) && |devBlank| == |blank|
    ensures Held(GrowCached(m, ptr, quirk, blank, devLink, devBlank), Moved(m.p, blank, c))
  {
    OldestGrows(m.p, c, ptr, quirk, blank);
    OldestBeforeTheCut(m.p, c);
    HeldGrows(m, c, ptr, quirk, blank, devLink, devBlank);
  }

  lemma HeldGrows(m: Cached, c: Consumer, ptr: nat, quirk: bool, blank: seq<Trb>,
                  devLink: Trb, devBlank: seq<Trb>)
    requires m.p.e < |m.p.tape| && |m.p.tape| % 64 == 0 && Held(m, c) && |devBlank| == |blank|
    requires Cut(m.p.e) <= |m.p.tape| && Oldest(m.p, c) < |m.p.tape|
    requires !InSpan(|m.p.tape|, Oldest(m.p, c), Cut(m.p.e) - 1, c.h)
    requires Oldest(Grow(m.p, ptr, quirk, blank), Moved(m.p, blank, c)) ==
             Shift(Cut(m.p.e), |blank|, Oldest(m.p, c))
    ensures Held(GrowCached(m, ptr, quirk, blank, devLink, devBlank), Moved(m.p, blank, c))
  {
    var cut := Cut(m.p.e);
    GrowAgrees(m.dev, m.p.tape, cut, devLink, Repointed(m.p.tape[cut - 1], ptr, quirk), blank,
               devBlank, Oldest(m.p, c), c.h);
  }

  lemma OldestShifts(n: nat, k: nat, cut: nat, h: nat, d: nat, e: nat)
    requires h < n && d < n && e < cut <= n && 0 < k && k % 64 == 0
    requires !(h == cut - 1 && d == Next(n, h))
    ensures Shift(cut, k, d) == Next(n + k, Shift(cut, k, h)) <==> d == Next(n, h)
  {
  }

  lemma GrowReachable(m: Cached, c: Consumer, ptr: nat, quirk: bool, blank: seq<Trb>,
                      devLink: Trb, devBlank: seq<Trb>)
    requires m.p.e < |m.p.tape| == |m.dev| && |m.p.tape| % 64 == 0 && |devBlank| == |blank|
    requires c.h < |m.dev| && DeviceStop(m) < |m.dev| && Stop(m.p) < |m.dev|
    requires Dist(|m.dev|, c.h, DeviceStop(m)) <= Dist(|m.dev|, c.h, Stop(m.p))
    requires Agree(m.dev, m.p.tape, c.h, DeviceStop(m))
    requires Cut(m.p.e) <= |m.dev|
    requires !InSpan(|m.dev|, c.h, Cut(m.p.e) - 1, DeviceStop(m))
    requires !InSpan(|m.dev|, c.h, Cut(m.p.e) - 1, Stop(m.p))
    requires !InSpan(|m.dev|, DeviceStop(m), Cut(m.p.e) - 1, Stop(m.p))
    ensures var m' := GrowCached(m, ptr, quirk, blank, devLink, devBlank);
            var c', s' := Moved(m.p, blank, c), Shift(Cut(m.p.e), |blank|, DeviceStop(m));
            && |m'.dev| == |m'.p.tape| && c'.h < |m'.dev| && s' < |m'.dev| && Stop(m'.p) < |m'.dev|
            && Agree(m'.dev, m'.p.tape, c'.h, s')
            && Dist(|m'.dev|, c'.h, s') <= Dist(|m'.dev|, c'.h, Stop(m'.p))
            && Span(m'.p.tape, s', Stop(m'.p)) == Span(m.p.tape, DeviceStop(m), Stop(m.p))
  {
    var link := Repointed(m.p.tape[Cut(m.p.e) - 1], ptr, quirk);
    assert Stop(GrowCached(m, ptr, quirk, blank, devLink, devBlank).p) ==
           Shift(Cut(m.p.e), |blank|, Stop(m.p));
    Carried(m.dev, m.p.tape, Cut(m.p.e), devLink, link, blank, devBlank,
            c.h, DeviceStop(m), Stop(m.p));
  }

  /** The walks from h to s and on to stop, carried over to the grown memories. */
  lemma Carried(dev: seq<Trb>, t: seq<Trb>, cut: nat, devLink: Trb, link: Trb, blank: seq<Trb>,
                devBlank: seq<Trb>, h: nat, s: nat, stop: nat)
    requires |t| == |dev| && 0 < cut <= |t| && |devBlank| == |blank|
    requires h < |t| && s < |t| && stop < |t| && Dist(|t|, h, s) <= Dist(|t|, h, stop)
    requires Agree(dev, t, h, s)
    requires !InSpan(|t|, h, cut - 1, s) && !InSpan(|t|, h, cut - 1, stop)
    requires !InSpan(|t|, s, cut - 1, stop)
    ensures var k := |blank|;
            var n, h', s', e' := |t| + k, Shift(cut, k, h), Shift(cut, k, s), Shift(cut, k, stop);
            && h' < n && s' < n && e' < n
            && Agree(GrowTape(dev, cut, devLink, devBlank), GrowTape(t, cut, link, blank), h', s')
            && Dist(n, h', s') <= Dist(n, h', e')
            && Span(GrowTape(t, cut, link, blank), s', e') == Span(t, s, stop)
  {
    GrowAgrees(dev, t, cut, devLink, link, blank, devBlank, h, s);
    GrowSpan(t, cut, link, blank, s, stop);
    ShiftInSpan(|t|, |blank|, cut, h, s, s);
    ShiftInSpan(|t|, |blank|, cut, h, s, stop);
  }

  lemma BeforeTheCut(n: nat, h: nat, s: nat, stop: nat, e: nat)
    requires h < n && s < n && stop < n && e < n && n % 64 == 0
    requires !(e < h && h / 64 == e / 64)
    requires stop == e || InSpan(n, h, stop, e)
    requires Dist(n, h, s) <= Dist(n, h, stop)
    ensures Cut(e) <= n
    ensures !InSpan(n, h, Cut(e) - 1, s) && !InSpan(n, s, Cut(e) - 1, stop)
    ensures !InSpan(n, h, Cut(e) - 1, stop)
  {
  }
}
