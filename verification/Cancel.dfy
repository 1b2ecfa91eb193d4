/** Cancelling a TD the controller has not reached: its TRBs become no-ops in place. */
module Cancel {
  import opened Trbs
  import opened Laps
  import opened Segments
  import opened Rings
  import Mirror

  /** td_to_noop on one slot, cycle bits left alone: links are unchained but keep pointer and
      toggle, ordinary TRBs keep only their cycle bit. */
  function NoopSlot(t: Trb): Trb {
    if t.typ.Link? then t.(chain := false)
    else Trb(0, 0, TransferNoop, false, false, false, t.cycle)
  }

  /** The tape after the k slots from f on have been rewritten. */
  function Nooped(t: seq<Trb>, f: nat, k: nat): (u: seq<Trb>)
    requires f < |t|
    ensures |u| == |t|
  {
    seq(|t|, j requires 0 <= j < |t| => if Dist(|t|, f, j) < k then NoopSlot(t[j]) else t[j])
  }

  /** What the rewriting leaves on every slot: links of the TD only lose their chain bit, its
      other TRBs become no-ops with nothing but their cycle bit, and no other slot changes. */
  lemma NoopedSlot(t: seq<Trb>, f: nat, k: nat, j: nat)
    requires f < |t| && j < |t|
    ensures var x := Nooped(t, f, k)[j];
            if Dist(|t|, f, j) >= k then x == t[j]
            else if t[j].typ.Link? then
              && x.typ.Link? && !x.chain && x.ptr == t[j].ptr && x.toggle == t[j].toggle
              && x.cycle == t[j].cycle && x.len == t[j].len && x.ioc == t[j].ioc
            else
              && x.typ.TransferNoop? && x.ptr == 0 && x.len == 0
              && !x.chain && !x.ioc && !x.toggle && x.cycle == t[j].cycle
  {
  }

  /** What the controller does with its TRBs: no-ops are passed over. */
  function Transfers(s: seq<Trb>): seq<Trb> {
    if s == [] then []
    else (if s[0].typ.Link? || s[0].typ.TransferNoop? then [] else [s[0]]) + Transfers(s[1..])
  }

  lemma {:induction false} TransfersConcat(s: seq<Trb>, u: seq<Trb>)
    ensures Transfers(s + u) == Transfers(s) + Transfers(u)
  {
    if s == [] {
      assert s + u == u;
    } else {
      assert (s + u)[1..] == s[1..] + u;
      TransfersConcat(s[1..], u);
    }
  }

  /** Links carry no transfer, so it does not matter whether they are filtered first. */
  lemma {:induction false} TransfersOfWork(s: seq<Trb>)
    ensures Transfers(Work(s)) == Transfers(s)
  {
    if s != [] {
      TransfersOfWork(s[1..]);
      TransfersConcat(if s[0].typ.Link? then [] else [s[0]], Work(s[1..]));
    }
  }

  lemma {:induction false} NoTransfers(s: seq<Trb>)
    requires forall i :: 0 <= i < |s| ==> s[i].typ.Link? || s[i].typ.TransferNoop?
    ensures Transfers(s) == []
  {
    if s != [] {
      NoTransfers(s[1..]);
    }
  }

  lemma NoopedGeometry(t: seq<Trb>, f: nat, k: nat)
    requires Geometry(t) && f < |t|
    ensures Geometry(Nooped(t, f, k))
  {
  }

  /** Inside the TD the rewriting leaves nothing to transfer. */
  lemma NoopedInside(t: seq<Trb>, f: nat, g: nat, k: nat)
    requires f < |t| && g < |t| && Dist(|t|, f, g) <= k
    ensures Transfers(Span(Nooped(t, f, k), f, g)) == []
  {
    var n, u := |t|, Nooped(t, f, k);
    var s := Span(u, f, g);
    forall i | 0 <= i < |s|
      ensures s[i].typ.Link? || s[i].typ.TransferNoop?
    {
      var j := if f + i < n then f + i else f + i - n;
      assert s[i] == u[j] && Dist(n, f, j) == i;
    }
    NoTransfers(s);
  }

  /** Outside it changes nothing. */
  lemma NoopedOutside(t: seq<Trb>, f: nat, k: nat, a: nat, b: nat)
    requires f < |t| && a < |t| && b < |t|
    requires forall j :: 0 <= j < |t| && InSpan(|t|, a, j, b) ==> k <= Dist(|t|, f, j)
    ensures Span(Nooped(t, f, k), a, b) == Span(t, a, b)
  {
    SpanUnchanged(t, Nooped(t, f, k), a, b);
  }

  lemma TdApart(n: nat, f: nat, l: nat, a: nat, b: nat)
    requires f < n && l < n && a < n && b < n
    requires Dist(n, a, f) <= Dist(n, a, l) < Dist(n, a, b)
    ensures Next(n, l) < n && Dist(n, f, Next(n, l)) <= Dist(n, f, l) + 1
    ensures forall j :: 0 <= j < n && InSpan(n, a, j, f) ==> Dist(n, f, l) + 1 <= Dist(n, f, j)
    ensures forall j :: 0 <= j < n && InSpan(n, Next(n, l), j, b) ==>
              Dist(n, f, l) + 1 <= Dist(n, f, j)
  {
  }

  lemma NoopedSpans(t: seq<Trb>, f: nat, l: nat, a: nat, b: nat)
    requires f < |t| && l < |t| && a < |t| && b < |t|
    requires Dist(|t|, a, f) <= Dist(|t|, a, l) < Dist(|t|, a, b)
    ensures Next(|t|, l) < |t|
    ensures var u := Nooped(t, f, Dist(|t|, f, l) + 1);
            && Span(u, a, f) == Span(t, a, f)
            && Span(u, Next(|t|, l), b) == Span(t, Next(|t|, l), b)
            && Transfers(Span(u, f, Next(|t|, l))) == []
  {
    var g, k := Next(|t|, l), Dist(|t|, f, l) + 1;
    TdApart(|t|, f, l, a, b);
    NoopedOutside(t, f, k, a, f);
    NoopedOutside(t, f, k, g, b);
    NoopedInside(t, f, g, k);
  }

  /** Cycle bits, link pointers and toggles survive the rewriting, so the ring invariant
      holds as before. */
  lemma NoopKeepsRing(p: Producer, c: Consumer, f: nat, k: nat)
    requires Inv(p, c) && f < |p.tape|
    ensures Inv(p.(tape := Nooped(p.tape, f, k)), c)
    ensures forall j :: 0 <= j < |p.tape| ==>
              && Nooped(p.tape, f, k)[j].cycle == p.tape[j].cycle
              && (j % 64 == 63 ==> Nooped(p.tape, f, k)[j].ptr == p.tape[j].ptr &&
                                   Nooped(p.tape, f, k)[j].toggle == p.tape[j].toggle)
  {
    NoopedGeometry(p.tape, f, k);
  }

  /** After a TD lying ahead of the controller has been rewritten, the controller performs the
      same transfers minus those of that TD. */
  lemma NoopErasesTd(p: Producer, c: Consumer, f: nat, l: nat)
    requires p.withheld.None? && p.e < |p.tape| && c.h < |p.tape| && f < |p.tape| && l < |p.tape|
    requires Dist(|p.tape|, c.h, f) <= Dist(|p.tape|, c.h, l) < Dist(|p.tape|, c.h, p.e)
    ensures Next(|p.tape|, l) < |p.tape|
    ensures var q := p.(tape := Nooped(p.tape, f, Dist(|p.tape|, f, l) + 1));
            var g := Next(|p.tape|, l);
            var before, td, after :=
              Span(p.tape, c.h, f), Span(p.tape, f, g), Span(p.tape, g, p.e);
            && Transfers(Queue(p, c)) == Transfers(before) + Transfers(td) + Transfers(after)
            && Transfers(Queue(q, c)) == Transfers(before) + Transfers(after)
  {
    var q := p.(tape := Nooped(p.tape, f, Dist(|p.tape|, f, l) + 1));
    NoopedSpans(p.tape, f, l, c.h, p.e);
    BehindTd(|p.tape|, c.h, f, l, p.e);
    NoopedQueue(p, q, c, f, Next(|p.tape|, l));
  }

  lemma BehindTd(n: nat, a: nat, f: nat, l: nat, b: nat)
    requires a < n && f < n && l < n && b < n
    requires Dist(n, a, f) <= Dist(n, a, l) < Dist(n, a, b)
    ensures Next(n, l) < n && Dist(n, a, f) <= Dist(n, a, b)
    ensures Dist(n, f, Next(n, l)) <= Dist(n, f, b)
  {
  }

  lemma NoopedQueue(p: Producer, q: Producer, c: Consumer, f: nat, g: nat)
    requires |q.tape| == |p.tape| && p.withheld == q.withheld == None && q.e == p.e
    requires f < |p.tape| && g < |p.tape| && c.h < |p.tape| && p.e < |p.tape|
    requires Dist(|p.tape|, c.h, f) <= Dist(|p.tape|, c.h, p.e)
    requires Dist(|p.tape|, f, g) <= Dist(|p.tape|, f, p.e)
    requires Span(q.tape, c.h, f) == Span(p.tape, c.h, f)
    requires Span(q.tape, g, p.e) == Span(p.tape, g, p.e)
    requires Transfers(Span(q.tape, f, g)) == []
    ensures Transfers(Queue(p, c)) ==
            Transfers(Span(p.tape, c.h, f)) + Transfers(Span(p.tape, f, g)) + Transfers(Span(p.tape, g, p.e))
    ensures Transfers(Queue(q, c)) == Transfers(Span(p.tape, c.h, f)) + Transfers(Span(p.tape, g, p.e))
  {
    ThreeParts(p.tape, c.h, f, g, p.e);
    ThreeParts(q.tape, c.h, f, g, p.e);
  }

  lemma ThreeParts(t: seq<Trb>, a: nat, f: nat, g: nat, b: nat)
    requires a < |t| && f < |t| && g < |t| && b < |t|
    requires Dist(|t|, a, f) <= Dist(|t|, a, b) && Dist(|t|, f, g) <= Dist(|t|, f, b)
    ensures Transfers(Work(Span(t, a, b))) ==
            Transfers(Span(t, a, f)) + Transfers(Span(t, f, g)) + Transfers(Span(t, g, b))
  {
    TransfersOfWork(Span(t, a, b));
    SpanSplit(t, a, f, b);
    SpanSplit(t, f, g, b);
    TransfersConcat(Span(t, a, f), Span(t, f, b));
    TransfersConcat(Span(t, f, g), Span(t, g, b));
  }

  /** The TD from slot f to slot l lies ahead of the controller; q is the ring with it
      rewritten. */
  ghost predicate Rewritten(p: Producer, c: Consumer, f: nat, l: nat, q: Producer, td: seq<Trb>) {
    && p.withheld.None? && p.e < |p.tape| && c.h < |p.tape| && f < |p.tape| && l < |p.tape|
    && Dist(|p.tape|, c.h, f) <= Dist(|p.tape|, c.h, l) < Dist(|p.tape|, c.h, p.e)
    && q == p.(tape := Nooped(p.tape, f, Dist(|p.tape|, f, l) + 1))
    && Next(|p.tape|, l) < |p.tape| && td == Span(p.tape, f, Next(|p.tape|, l))
  }

  /** Rewriting a TD changes what the controller does unless the TD held no transfer. */
  lemma NoopShowsIff(p: Producer, c: Consumer, f: nat, l: nat, q: Producer, td: seq<Trb>)
    requires Rewritten(p, c, f, l, q, td)
    ensures Transfers(Queue(p, c)) == Transfers(Queue(q, c)) <==> Transfers(td) == []
  {
    NoopErasesTd(p, c, f, l);
    MiddleGone(Transfers(Span(p.tape, c.h, f)), Transfers(td),
               Transfers(Span(p.tape, Next(|p.tape|, l), p.e)));
  }

  /** On a ring cached on chip the rewriting stays in host memory: the controller, which reads
      the device copy, goes on to perform the cancelled TD, unless it held no transfer at
      all. */
  lemma NoopMissesTheCopy(m: Mirror.Cached, c: Consumer, f: nat, l: nat, q: Producer, td: seq<Trb>)
    requires Mirror.Mirrors(m, c) && Rewritten(m.p, c, f, l, q, td)
    ensures Transfers(Takes(m.dev, c, |m.dev|)) == Transfers(Queue(q, c)) <==> Transfers(td) == []
  {
    Mirror.DeviceTakesTheQueue(m, c, |m.dev|);
    NoopShowsIff(m.p, c, f, l, q, td);
  }

  lemma MiddleGone(a: seq<Trb>, td: seq<Trb>, b: seq<Trb>)
    ensures a + td + b == a + b <==> td == []
  {
    assert |a + td + b| == |a + b| + |td|;
    if td == [] {
      assert a + td == a;
    }
  }

  /** td_to_noop without cycle flip. */
  method TdToNoop(r: Ring, first: Ptr, last: Ptr)
    requires r.Valid() && OnRing(r.order, first) && OnRing(r.order, last)
    modifies r`mem
    ensures r.Valid()
    ensures old(r.At(first)) < |old(r.Tape())| && old(r.At(last)) < |old(r.Tape())|
    ensures var p, f, l := old(r.Model()), old(r.At(first)), old(r.At(last));
            r.Model() == p.(tape := Nooped(p.tape, f, Dist(|p.tape|, f, l) + 1))
  {
    ghost var p := r.Model();
    PosSlot(r.order, r.mem, first);
    PosSlot(r.order, r.mem, last);
    r.mem := Rewrite(r.order, r.next, r.mem, first, last);
  }

  method Rewrite(ghost order: seq<nat>, next: seq<nat>, mem0: seq<seq<Trb>>, first: Ptr, last: Ptr)
    returns (mem: seq<seq<Trb>>)
    requires Circle(order, next, mem0) && OnRing(order, first) && OnRing(order, last)
    requires Pos(order, first) < 64 * |order| && Pos(order, last) < 64 * |order|
    ensures Circle(order, next, mem)
    ensures var f, l := Pos(order, first), Pos(order, last);
            Flat(order, mem) == Nooped(Flat(order, mem0), f, Dist(64 * |order|, f, l) + 1)
  {
    ghost var n, f, l := 64 * |order|, Pos(order, first), Pos(order, last);
    mem := mem0;
    var cur := first;
    ghost var k := 0;
    assert Flat(order, mem) == Nooped(Flat(order, mem0), f, 0);
    while true
      invariant Circle(order, next, mem) && OnRing(order, cur) && Pos(order, cur) < n
      invariant k == Dist(n, f, Pos(order, cur)) <= Dist(n, f, l)
      invariant Flat(order, mem) == Nooped(Flat(order, mem0), f, k)
      decreases Dist(n, f, l) - k
    {
      PosSlot(order, mem, cur);
      NextIsNext(order, next, mem, cur);
      var trb := NoopSlot(mem[cur.seg][cur.idx]);
      StoreCircle(order, next, mem, cur, trb);
      NoopOneMore(Flat(order, mem0), f, k, Pos(order, cur));
      mem := Store(mem, cur, trb);
      if cur == last {
        break;
      }
      PosInjective(order, cur, last);
      NextIsNext(order, next, mem, cur);
      cur := NextTrb(next, mem, cur);
      k := k + 1;
    }
  }

  lemma NoopOneMore(t: seq<Trb>, f: nat, k: nat, j: nat)
    requires f < |t| && j < |t| && Dist(|t|, f, j) == k
    ensures Nooped(t, f, k)[j] == t[j]
    ensures Nooped(t, f, k)[j := NoopSlot(t[j])] == Nooped(t, f, k + 1)
  {
  }
}
