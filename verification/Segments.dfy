/** Segments as the driver keeps them: a pool of 64-slot blocks, each with a `next`
    field, closed into one circle by their Link TRBs.  A ghost `order` lists the circle
    from first_seg to last_seg; laying the segments out in that order gives the tape of
    module Laps. */
module Segments {
  import opened Trbs
  import opened Laps

  /** A TRB pointer together with the segment it points into. */
  datatype Ptr = Ptr(seg: nat, idx: nat)

  predicate Differ(order: seq<nat>, i: nat, k: nat)
    requires i < |order| && k < |order|
  {
    order[i] == order[k] ==> i == k
  }

  ghost predicate Pool(order: seq<nat>, mem: seq<seq<Trb>>) {
    && 0 < |order|
    && (forall i, k :: 0 <= i < |order| && 0 <= k < |order| ==> Differ(order, i, k))
    && (forall i :: 0 <= i < |order| ==> order[i] < |mem| && |mem[order[i]]| == 64)
  }

  lemma Whole(k: nat)
    ensures (64 * k) % 64 == 0 && (64 * k) / 64 == k
  {
  }

  lemma WholeShift(j: nat, k: nat)
    requires 64 * k <= j
    ensures (j - 64 * k) % 64 == j % 64 && (j - 64 * k) / 64 == j / 64 - k
  {
  }

  /** The tape: segments laid out in ring order. */
  ghost function Flat(order: seq<nat>, mem: seq<seq<Trb>>): (t: seq<Trb>)
    requires Pool(order, mem)
    ensures |t| == 64 * |order|
  {
    seq(64 * |order|, j requires 0 <= j < 64 * |order| => mem[order[j / 64]][j % 64])
  }

  ghost function Rank(order: seq<nat>, s: nat): (r: nat)
    requires s in order
    ensures r < |order| && order[r] == s
  {
    var i :| 0 <= i < |order| && order[i] == s;
    i
  }

  predicate OnRing(order: seq<nat>, p: Ptr) {
    p.seg in order && p.idx < 64
  }

  ghost function Pos(order: seq<nat>, p: Ptr): nat
    requires OnRing(order, p)
  {
    64 * Rank(order, p.seg) + p.idx
  }

  lemma RankIs(order: seq<nat>, mem: seq<seq<Trb>>, i: nat)
    requires Pool(order, mem) && i < |order|
    ensures order[i] in order && Rank(order, order[i]) == i
  {
    assert Differ(order, Rank(order, order[i]), i);
  }

  lemma PosSlot(order: seq<nat>, mem: seq<seq<Trb>>, p: Ptr)
    requires Pool(order, mem) && OnRing(order, p)
    ensures Pos(order, p) < 64 * |order|
    ensures Pos(order, p) / 64 == Rank(order, p.seg) && Pos(order, p) % 64 == p.idx
    ensures p.seg < |mem| && |mem[p.seg]| == 64
    ensures Flat(order, mem)[Pos(order, p)] == mem[p.seg][p.idx]
  {
  }

  lemma PosInjective(order: seq<nat>, p: Ptr, q: Ptr)
    requires OnRing(order, p) && OnRing(order, q)
    ensures Pos(order, p) == Pos(order, q) <==> p == q
  {
  }

  function Store(mem: seq<seq<Trb>>, p: Ptr, x: Trb): seq<seq<Trb>>
    requires p.seg < |mem| && p.idx < |mem[p.seg]|
  {
    mem[p.seg := mem[p.seg][p.idx := x]]
  }

  /** Storing through a pointer changes one slot of the tape. */
  lemma FlatStore(order: seq<nat>, mem: seq<seq<Trb>>, p: Ptr, x: Trb)
    requires Pool(order, mem) && OnRing(order, p)
    ensures p.seg < |mem| && |mem[p.seg]| == 64
    ensures Pool(order, Store(mem, p, x))
    ensures Pos(order, p) < 64 * |order|
    ensures Flat(order, Store(mem, p, x)) == Flat(order, mem)[Pos(order, p) := x]
  {
    PosSlot(order, mem, p);
    var t := Flat(order, mem);
    var u := Flat(order, Store(mem, p, x));
    forall j | 0 <= j < |t|
      ensures u[j] == t[Pos(order, p) := x][j]
    {
      RankIs(order, mem, j / 64);
    }
  }

  /** The segment of rank i is followed by the segment of the next rank, and its Link TRB
      points there too. */
  ghost predicate LinkedAt(order: seq<nat>, next: seq<nat>, mem: seq<seq<Trb>>, i: nat)
    requires Pool(order, mem) && |next| == |mem| && i < |order|
  {
    && next[order[i]] == order[Next(|order|, i)]
    && mem[order[i]][63].ptr == next[order[i]]
  }

  /** The segments form one circle, running through `order`. */
  ghost predicate Linked(order: seq<nat>, next: seq<nat>, mem: seq<seq<Trb>>)
    requires Pool(order, mem)
  {
    && |next| == |mem|
    && forall i :: 0 <= i < |order| ==> LinkedAt(order, next, mem, i)
  }

  /** A well-formed ring: one circle, links in the last slots, one toggling link. */
  ghost predicate Circle(order: seq<nat>, next: seq<nat>, mem: seq<seq<Trb>>) {
    Pool(order, mem) && Linked(order, next, mem) && Geometry(Flat(order, mem))
  }

  /** Overwriting a slot with a TRB of the same kind keeps the circle. */
  lemma StoreCircle(order: seq<nat>, next: seq<nat>, mem: seq<seq<Trb>>, p: Ptr, x: Trb)
    requires Circle(order, next, mem) && OnRing(order, p)
    requires x.typ.Link? <==> p.idx == 63
    requires p.idx == 63 ==>
               p.seg < |mem| && |mem[p.seg]| == 64 &&
               x.ptr == mem[p.seg][63].ptr && x.toggle == mem[p.seg][63].toggle
    ensures p.seg < |mem| && |mem[p.seg]| == 64
    ensures Circle(order, next, Store(mem, p, x))
    ensures Pos(order, p) < 64 * |order|
    ensures Flat(order, Store(mem, p, x)) == Flat(order, mem)[Pos(order, p) := x]
  {
    PosSlot(order, mem, p);
    FlatStore(order, mem, p, x);
    forall i | 0 <= i < |order|
      ensures LinkedAt(order, next, Store(mem, p, x), i)
    {
      assert LinkedAt(order, next, mem, i);
    }
    GeometryStore(Flat(order, mem), Pos(order, p), x);
  }

  lemma GeometryStore(t: seq<Trb>, j: nat, x: Trb)
    requires Geometry(t) && j < |t|
    requires x.typ.Link? <==> j % 64 == 63
    requires x.typ.Link? ==> x.toggle == t[j].toggle
    ensures Geometry(t[j := x])
  {
  }

  /** next_trb: follow a link through the segment's `next`, otherwise the next slot. */
  function NextTrb(next: seq<nat>, mem: seq<seq<Trb>>, p: Ptr): Ptr
    requires p.seg < |mem| && p.seg < |next| && p.idx < |mem[p.seg]|
  {
    if mem[p.seg][p.idx].typ.Link? then Ptr(next[p.seg], 0) else Ptr(p.seg, p.idx + 1)
  }

  /** The same step as the controller takes it, from the pointer in the Link TRB. */
  function FollowTrb(mem: seq<seq<Trb>>, p: Ptr): Ptr
    requires p.seg < |mem| && p.idx < |mem[p.seg]|
  {
    var trb := mem[p.seg][p.idx];
    if trb.typ.Link? then Ptr(trb.ptr, 0) else Ptr(p.seg, p.idx + 1)
  }

  /** Driver and controller agree on what comes next, and it is the next slot of the tape. */
  lemma NextIsNext(order: seq<nat>, next: seq<nat>, mem: seq<seq<Trb>>, p: Ptr)
    requires Circle(order, next, mem) && OnRing(order, p)
    ensures p.seg < |mem| && p.seg < |next| && |mem[p.seg]| == 64
    ensures OnRing(order, NextTrb(next, mem, p))
    ensures FollowTrb(mem, p) == NextTrb(next, mem, p)
    ensures Pos(order, NextTrb(next, mem, p)) == Next(64 * |order|, Pos(order, p))
    ensures mem[p.seg][p.idx].typ.Link? <==> p.idx == 63
  {
    PosSlot(order, mem, p);
    assert LinkedAt(order, next, mem, Rank(order, p.seg));
    if p.idx == 63 {
      RankIs(order, mem, Next(|order|, Rank(order, p.seg)));
    }
  }

  ghost function Where(order: seq<nat>, w: Option<Ptr>): Option<nat>
    requires w.Some? ==> OnRing(order, w.value)
  {
    if w.Some? then Some(Pos(order, w.value)) else None
  }

  /** All the fields of a ring object: the driver's, the circle `order` they form, the
      first TRB of a TD under construction, and the controller reading the ring. */
  datatype Fields = Fields(
    mem: seq<seq<Trb>>,
    next: seq<nat>,
    firstSeg: nat,
    lastSeg: nat,
    numSegs: nat,
    enqueue: Ptr,
    dequeue: Ptr,
    cycle: bool,
    free: int,
    order: seq<nat>,
    withheld: Option<Ptr>,
    hw: Ptr,
    ccs: bool
  ) {
    ghost function Tape(): seq<Trb>
      requires Ok(this)
    {
      Flat(order, mem)
    }

    /** The driver's view of the ring. */
    ghost function Model(): Producer
      requires Ok(this)
    {
      Producer(Tape(), Pos(order, enqueue), cycle, Pos(order, dequeue), free,
               Where(order, withheld))
    }

    /** The controller's view. */
    ghost function Controller(): Consumer
      requires Ok(this)
    {
      Consumer(Pos(order, hw), ccs)
    }
  }

  ghost predicate Ok(f: Fields) {
    && Circle(f.order, f.next, f.mem)
    && |f.order| == f.numSegs
    && f.order[0] == f.firstSeg
    && f.order[f.numSegs - 1] == f.lastSeg
    && OnRing(f.order, f.enqueue)
    && OnRing(f.order, f.dequeue)
    && OnRing(f.order, f.hw)
    && (f.withheld.Some? ==> OnRing(f.order, f.withheld.value))
  }
}
