/** Splicing freshly allocated segments into the circle, seen on the tape. */
module Splice {
  import opened Trbs
  import opened Laps
  import opened Growth
  import opened Segments

  /** A zeroed slot that the consumer does not own while its cycle state is `cycle`. */
  function BlankSlot(cycle: bool): Trb {
    Trb(0, 0, Unused, false, false, false, !cycle)
  }

  /** xhci_link_segments on the last slot of a segment. */
  function AsLink(t: Trb, target: nat, quirk: bool): Trb {
    t.(typ := Link, ptr := target, chain := t.chain || quirk)
  }

  /** Re-linking a segment of a live ring: driver and controller both go on from its link to the
      target now.  From every other slot the way on is what it was, no slot changes hands, and
      a consumer's cycle state changes where it did. */
  lemma LinkReroutes(order: seq<nat>, next: seq<nat>, mem: seq<seq<Trb>>, prev: nat, target: nat,
                     quirk: bool, next': seq<nat>, mem': seq<seq<Trb>>)
    requires Circle(order, next, mem) && prev in order
    requires prev < |mem| && |mem[prev]| == 64 && next' == next[prev := target]
    requires mem' == Store(mem, Ptr(prev, 63), AsLink(mem[prev][63], target, quirk))
    ensures Pool(order, mem')
    ensures NextTrb(next', mem', Ptr(prev, 63)) == FollowTrb(mem', Ptr(prev, 63)) == Ptr(target, 0)
    ensures mem'[prev][63].chain == (mem[prev][63].chain || quirk)
    ensures forall p :: OnRing(order, p) && p != Ptr(prev, 63) ==>
              && p.seg < |mem'| == |next'| && |mem'[p.seg]| == 64
              && NextTrb(next', mem', p) == FollowTrb(mem', p) == NextTrb(next, mem, p)
    ensures forall c: Consumer :: c.h < 64 * |order| ==>
              && (Owned(Flat(order, mem'), c) <==> Owned(Flat(order, mem), c))
              && Advance(Flat(order, mem'), c).ccs == Advance(Flat(order, mem), c).ccs
  {
    var link := Ptr(prev, 63);
    PosSlot(order, mem, link);
    NextIsNext(order, next, mem, link);
    FlatStore(order, mem, link, AsLink(mem[prev][63], target, quirk));
    forall p | OnRing(order, p) && p != link
      ensures p.seg < |mem'| == |next'| && |mem'[p.seg]| == 64
      ensures NextTrb(next', mem', p) == FollowTrb(mem', p) == NextTrb(next, mem, p)
    {
      NextIsNext(order, next, mem, p);
    }
  }

  function BlankSegment(cycle: bool, target: nat, quirk: bool): (s: seq<Trb>)
    ensures |s| == 64
  {
    seq(64, i requires 0 <= i < 64 =>
      if i == 63 then AsLink(BlankSlot(cycle), target, quirk) else BlankSlot(cycle))
  }

  function Ids(base: nat, num: nat): (s: seq<nat>)
    ensures |s| == num
    ensures forall i :: 0 <= i < num ==> s[i] == base + i
  {
    seq(num, i requires 0 <= i < num => base + i)
  }

  function Insert(order: seq<nat>, r: nat, ids: seq<nat>): (s: seq<nat>)
    requires r < |order|
    ensures |s| == |order| + |ids|
  {
    order[..r + 1] + ids + order[r + 1..]
  }

  lemma InsertAt(order: seq<nat>, r: nat, ids: seq<nat>, i: nat)
    requires r < |order| && i < |order| + |ids|
    ensures Insert(order, r, ids)[i] ==
            if i <= r then order[i]
            else if i <= r + |ids| then ids[i - r - 1]
            else order[i - |ids|]
  {
  }

  lemma InsertEnds(order: seq<nat>, r: nat, ids: seq<nat>)
    requires r < |order| && ids != []
    ensures var s := Insert(order, r, ids);
            && s[0] == order[0]
            && s[|s| - 1] == if IsLast(order, r) then ids[|ids| - 1] else order[|order| - 1]
  {
  }

  lemma InsertPool(order: seq<nat>, mem: seq<seq<Trb>>, r: nat, ids: seq<nat>, mem': seq<seq<Trb>>)
    requires Pool(order, mem) && r < |order|
    requires Pool(ids, mem')
    requires |mem| <= |mem'|
    requires forall i :: 0 <= i < |ids| ==> |mem| <= ids[i]
    requires forall i :: 0 <= i < |order| ==> |mem'[order[i]]| == 64
    ensures Pool(Insert(order, r, ids), mem')
  {
    var s := Insert(order, r, ids);
    forall i, k | 0 <= i < |s| && 0 <= k < |s|
      ensures Differ(s, i, k)
    {
      InsertAt(order, r, ids, i);
      InsertAt(order, r, ids, k);
      var i' := if i <= r then i else i - |ids|;
      var k' := if k <= r then k else k - |ids|;
      if (i <= r || i > r + |ids|) && (k <= r || k > r + |ids|) {
        assert Differ(order, i', k');
      } else if r < i <= r + |ids| && r < k <= r + |ids| {
        assert Differ(ids, i - r - 1, k - r - 1);
      }
    }
    forall i | 0 <= i < |s|
      ensures s[i] < |mem'| && |mem'[s[i]]| == 64
    {
      InsertAt(order, r, ids, i);
    }
  }

  /** Inserting the new segments behind rank r is GrowTape on the tape. */
  lemma InsertFlat(order: seq<nat>, mem: seq<seq<Trb>>, r: nat, ids: seq<nat>,
                   mem': seq<seq<Trb>>, link: Trb)
    requires Pool(order, mem) && r < |order|
    requires Pool(ids, mem') && Pool(Insert(order, r, ids), mem')
    requires |mem| <= |mem'|
    requires forall i :: 0 <= i < |order| ==>
               mem'[order[i]] == if i == r then mem[order[i]][63 := link] else mem[order[i]]
    ensures Flat(Insert(order, r, ids), mem') ==
            GrowTape(Flat(order, mem), 64 * (r + 1), link, Flat(ids, mem'))
  {
    var u := Flat(Insert(order, r, ids), mem');
    var g := GrowTape(Flat(order, mem), 64 * (r + 1), link, Flat(ids, mem'));
    GrownSlots(Flat(order, mem), 64 * (r + 1), link, Flat(ids, mem'));
    forall j | 0 <= j < |u|
      ensures u[j] == g[j]
    {
      InsertSlot(order, mem, r, ids, mem', link, j);
    }
  }

  lemma InsertSlot(order: seq<nat>, mem: seq<seq<Trb>>, r: nat, ids: seq<nat>,
                   mem': seq<seq<Trb>>, link: Trb, j: nat)
    requires Pool(order, mem) && r < |order|
    requires Pool(ids, mem') && Pool(Insert(order, r, ids), mem')
    requires |mem| <= |mem'| && j < 64 * (|order| + |ids|)
    requires forall i :: 0 <= i < |order| ==>
               mem'[order[i]] == if i == r then mem[order[i]][63 := link] else mem[order[i]]
    ensures Flat(Insert(order, r, ids), mem')[j] ==
            GrownSlot(Flat(order, mem), 64 * (r + 1), link, Flat(ids, mem'), j)
  {
    var i := j / 64;
    InsertAt(order, r, ids, i);
    if i > r + |ids| {
      var k := j - 64 * |ids|;
      WholeShift(j, |ids|);
      assert Flat(order, mem)[k] == mem[order[k / 64]][k % 64];
    } else if i > r {
      var k := j - 64 * (r + 1);
      WholeShift(j, r + 1);
      assert Flat(ids, mem')[k] == mem'[ids[k / 64]][k % 64];
    }
  }

  lemma InsertPos(order: seq<nat>, mem: seq<seq<Trb>>, r: nat, ids: seq<nat>,
                  mem': seq<seq<Trb>>, p: Ptr)
    requires Pool(order, mem) && r < |order| && OnRing(order, p)
    requires Pool(Insert(order, r, ids), mem')
    ensures OnRing(Insert(order, r, ids), p)
    ensures Pos(Insert(order, r, ids), p) == Shift(64 * (r + 1), 64 * |ids|, Pos(order, p))
  {
    var i := Rank(order, p.seg);
    var s := Insert(order, r, ids);
    var k := if i <= r then i else i + |ids|;
    InsertAt(order, r, ids, k);
    RankIs(s, mem', k);
  }

  /** The new segments run one into the other and the last one into `target`. */
  ghost predicate ChainAt(ids: seq<nat>, next: seq<nat>, mem: seq<seq<Trb>>, target: nat, i: nat)
    requires Pool(ids, mem) && |next| == |mem| && i < |ids|
  {
    && next[ids[i]] == (if i + 1 < |ids| then ids[i + 1] else target)
    && mem[ids[i]][63].ptr == next[ids[i]]
  }

  /** The circle is closed again: the spliced `next` fields and link pointers run through
      the old segments up to rank r, the new ones, and the rest. */
  lemma InsertLinked(order: seq<nat>, next: seq<nat>, mem: seq<seq<Trb>>, r: nat, ids: seq<nat>,
                     next': seq<nat>, mem': seq<seq<Trb>>)
    requires Pool(order, mem) && r < |order| && Linked(order, next, mem)
    requires Pool(Insert(order, r, ids), mem') && 0 < |ids|
    requires |next'| == |mem'| && |mem| <= |mem'|
    requires forall i :: 0 <= i < |order| && i != r ==>
               next'[order[i]] == next[order[i]] && mem'[order[i]] == mem[order[i]]
    requires |mem'[order[r]]| == 64
    requires next'[order[r]] == ids[0] && mem'[order[r]][63].ptr == ids[0]
    requires Pool(ids, mem')
    requires forall i :: 0 <= i < |ids| ==> ChainAt(ids, next', mem', next[order[r]], i)
    ensures Linked(Insert(order, r, ids), next', mem')
  {
    var s := Insert(order, r, ids);
    forall i | 0 <= i < |s|
      ensures LinkedAt(s, next', mem', i)
    {
      var k := Next(|s|, i);
      InsertAt(order, r, ids, i);
      InsertAt(order, r, ids, k);
      if i < r {
        assert LinkedAt(order, next, mem, i) && s[k] == order[i + 1];
        assert next'[order[i]] == s[k];
      } else if i == r {
        assert s[k] == ids[0] && s[i] == order[r];
      } else if i <= r + |ids| {
        var m := i - r - 1;
        assert s[i] == ids[m];
        assert ChainAt(ids, next', mem', next[order[r]], m);
        if m + 1 < |ids| {
          assert s[k] == ids[m + 1];
        } else {
          assert LinkedAt(order, next, mem, r);
          assert s[k] == order[Next(|order|, r)];
        }
      } else {
        assert LinkedAt(order, next, mem, i - |ids|) && s[i] == order[i - |ids|];
        assert s[k] == order[Next(|order|, i - |ids|)];
        assert next'[order[i - |ids|]] == s[k];
      }
    }
  }

  /** A new segment in place: its link points to `target` and toggles if it now closes
      the ring. */
  function NewSegment(cycle: bool, target: nat, quirk: bool, closes: bool): (s: seq<Trb>)
    ensures |s| == 64
    ensures forall i :: 0 <= i < 63 ==> s[i] == BlankSlot(cycle)
    ensures s[63] == AsLink(BlankSlot(cycle), target, quirk).(toggle := closes)
  {
    var b := BlankSegment(cycle, target, quirk);
    b[63 := b[63].(toggle := closes)]
  }

  predicate IsLast(order: seq<nat>, r: nat) {
    r + 1 == |order|
  }

  /** Segment k of the new ones: linked to the next, or the last one to `after`. */
  predicate NewAt(next: seq<nat>, mem: seq<seq<Trb>>, cycle: bool, quirk: bool,
                  after: nat, closes: bool, k: nat)
    requires k < |mem| == |next|
  {
    && next[k] == (if k + 1 < |mem| then k + 1 else after)
    && mem[k] == NewSegment(cycle, next[k], quirk, k + 1 == |mem| && closes)
  }

  /** Memory and `next` fields after num new segments, starting at index |mem|, have been
      spliced in behind rank r. */
  ghost predicate Spliced(order: seq<nat>, next: seq<nat>, mem: seq<seq<Trb>>, r: nat, num: nat,
                          cycle: bool, quirk: bool, next': seq<nat>, mem': seq<seq<Trb>>)
    requires Pool(order, mem) && |next| == |mem| && r < |order|
  {
    var base := |mem|;
    var s := order[r];
    && |mem'| == |next'| == base + num
    && (forall i :: 0 <= i < base && i != s ==> mem'[i] == mem[i] && next'[i] == next[i])
    && next'[s] == base
    && mem'[s] == mem[s][63 := Repointed(mem[s][63], base, quirk)]
    && forall k :: base <= k < base + num ==>
         NewAt(next', mem', cycle, quirk, next[s], IsLast(order, r), k)
  }

  lemma OthersDiffer(order: seq<nat>, mem: seq<seq<Trb>>, r: nat)
    requires Pool(order, mem) && r < |order|
    ensures forall i :: 0 <= i < |order| && i != r ==> order[i] != order[r]
  {
    forall i | 0 <= i < |order| && i != r
      ensures order[i] != order[r]
    {
      assert Differ(order, i, r);
    }
  }

  lemma SplicedPool(order: seq<nat>, next: seq<nat>, mem: seq<seq<Trb>>, r: nat, num: nat,
                    cycle: bool, quirk: bool, next': seq<nat>, mem': seq<seq<Trb>>)
    requires Circle(order, next, mem) && r < |order| && 0 < num
    requires Spliced(order, next, mem, r, num, cycle, quirk, next', mem')
    ensures Pool(Ids(|mem|, num), mem')
    ensures Pool(Insert(order, r, Ids(|mem|, num)), mem')
  {
    var ids := Ids(|mem|, num);
    forall i | 0 <= i < num
      ensures |mem'[ids[i]]| == 64
    {
      var k := ids[i];
      assert NewAt(next', mem', cycle, quirk, next[order[r]], IsLast(order, r), k);
    }
    InsertPool(order, mem, r, ids, mem');
  }

  /** Splicing gives one circle again. */
  lemma SplicedLinked(order: seq<nat>, next: seq<nat>, mem: seq<seq<Trb>>, r: nat, num: nat,
                      cycle: bool, quirk: bool, next': seq<nat>, mem': seq<seq<Trb>>)
    requires Circle(order, next, mem) && r < |order| && 0 < num
    requires Spliced(order, next, mem, r, num, cycle, quirk, next', mem')
    ensures Pool(Insert(order, r, Ids(|mem|, num)), mem')
    ensures Linked(Insert(order, r, Ids(|mem|, num)), next', mem')
  {
    var ids := Ids(|mem|, num);
    SplicedPool(order, next, mem, r, num, cycle, quirk, next', mem');
    forall i | 0 <= i < |ids|
      ensures ChainAt(ids, next', mem', next[order[r]], i)
    {
      var k := ids[i];
      assert NewAt(next', mem', cycle, quirk, next[order[r]], IsLast(order, r), k);
    }
    OthersDiffer(order, mem, r);
    InsertLinked(order, next, mem, r, ids, next', mem');
  }

  /** Every new slot is a blank the consumer does not own. */
  lemma NewSlots(order: seq<nat>, next: seq<nat>, mem: seq<seq<Trb>>, r: nat, num: nat,
                 cycle: bool, quirk: bool, next': seq<nat>, mem': seq<seq<Trb>>, closes: bool)
    requires Pool(order, mem) && |next| == |mem| && r < |order|
    requires Spliced(order, next, mem, r, num, cycle, quirk, next', mem')
    requires Pool(Ids(|mem|, num), mem') && closes == IsLast(order, r)
    ensures var blank := Flat(Ids(|mem|, num), mem');
            forall j :: 0 <= j < 64 * num ==>
              && blank[j].cycle == !cycle
              && (blank[j].typ.Link? <==> j % 64 == 63)
              && (j % 64 != 63 ==> blank[j] == BlankSlot(cycle))
              && (j % 64 == 63 ==> (blank[j].toggle <==> j == 64 * num - 1 && closes))
  {
    var blank := Flat(Ids(|mem|, num), mem');
    forall j | 0 <= j < 64 * num
      ensures && blank[j].cycle == !cycle
              && (blank[j].typ.Link? <==> j % 64 == 63)
              && (j % 64 != 63 ==> blank[j] == BlankSlot(cycle))
              && (j % 64 == 63 ==> (blank[j].toggle <==> j == 64 * num - 1 && closes))
    {
      var k := |mem| + j / 64;
      assert Ids(|mem|, num)[j / 64] == k;
      assert NewAt(next', mem', cycle, quirk, next[order[r]], closes, k);
    }
  }

  /** The spliced circle, and the tape it lies out as. */
  lemma SplicedTape(order: seq<nat>, next: seq<nat>, mem: seq<seq<Trb>>, r: nat, num: nat,
                    quirk: bool, next': seq<nat>, mem': seq<seq<Trb>>, p: Producer)
    requires Circle(order, next, mem) && r < |order| && 0 < num
    requires Spliced(order, next, mem, r, num, p.pcs, quirk, next', mem')
    requires p.tape == Flat(order, mem) && p.e < |p.tape| && p.e / 64 == r
    requires p.d < |p.tape| && (p.withheld.Some? ==> p.withheld.value < |p.tape|)
    requires p.withheld.Some? ==> p.withheld.value % 64 != 63
    ensures Pool(Ids(|mem|, num), mem')
    ensures Circle(Insert(order, r, Ids(|mem|, num)), next', mem')
    ensures Spliceable(p, Flat(Ids(|mem|, num), mem'))
    ensures Flat(Insert(order, r, Ids(|mem|, num)), mem') ==
            Grow(p, |mem|, quirk, Flat(Ids(|mem|, num), mem')).tape
  {
    var ids := Ids(|mem|, num);
    SplicedLinked(order, next, mem, r, num, p.pcs, quirk, next', mem');
    SplicedPool(order, next, mem, r, num, p.pcs, quirk, next', mem');
    var blank := Flat(ids, mem');
    NewSlots(order, next, mem, r, num, p.pcs, quirk, next', mem', IsLast(order, r));
    var s := order[r];
    RankIs(order, mem, r);
    PosSlot(order, mem, Ptr(s, 63));
    var link := mem'[s][63];
    OthersDiffer(order, mem, r);
    InsertFlat(order, mem, r, ids, mem', link);
    GrowGeometry(p, |mem|, quirk, blank);
  }

  /** What xhci_link_rings does to memory: re-point the link of segment s to `first`, point
      the link of `last` to what followed s, and move the toggle if s closed the ring. */
  function Relink(mem: seq<seq<Trb>>, s: nat, first: nat, last: nat, after: nat,
                  quirk: bool, closes: bool): seq<seq<Trb>>
    requires s < |mem| && last < |mem| && |mem[s]| == 64 && |mem[last]| == 64
  {
    var m1 := Store(mem, Ptr(s, 63), AsLink(mem[s][63], first, quirk));
    var m2 := Store(m1, Ptr(last, 63), AsLink(m1[last][63], after, quirk));
    if closes then
      var m3 := Store(m2, Ptr(s, 63), m2[s][63].(toggle := false));
      Store(m3, Ptr(last, 63), m3[last][63].(toggle := true))
    else
      m2
  }

  lemma RelinkIsSpliced(order: seq<nat>, next: seq<nat>, mem: seq<seq<Trb>>, r: nat, num: nat,
                        cycle: bool, quirk: bool, next1: seq<nat>, mem1: seq<seq<Trb>>)
    requires Circle(order, next, mem) && r < |order| && 0 < num
    requires |mem1| == |next1| == |mem| + num
    requires mem1[..|mem|] == mem && next1[..|mem|] == next
    requires forall k :: |mem| <= k < |mem| + num ==>
               NewAt(next1, mem1, cycle, quirk, |mem|, false, k)
    ensures order[r] < |mem| && |mem1[order[r]]| == 64 && |mem1[|mem| + num - 1]| == 64
    ensures var s, last := order[r], |mem| + num - 1;
            Spliced(order, next, mem, r, num, cycle, quirk,
                    next1[s := |mem|][last := next[s]],
                    Relink(mem1, s, |mem|, last, next[s], quirk, IsLast(order, r)))
  {
    var s, last := order[r], |mem| + num - 1;
    assert NewAt(next1, mem1, cycle, quirk, |mem|, false, last);
    var after := next[s];
    var closes := IsLast(order, r);
    var next' := next1[s := |mem|][last := after];
    var mem' := Relink(mem1, s, |mem|, last, after, quirk, closes);
    RankIs(order, mem, r);
    PosSlot(order, mem, Ptr(s, 63));
    assert mem1[s] == mem[s];
    assert mem[s][63].typ.Link? && (mem[s][63].toggle <==> closes);
    assert mem'[s] == mem[s][63 := Repointed(mem[s][63], |mem|, quirk)];
    forall k | |mem| <= k < |mem| + num
      ensures NewAt(next', mem', cycle, quirk, after, closes, k)
    {
      assert NewAt(next1, mem1, cycle, quirk, |mem|, false, k);
      if k == last {
        assert mem'[k] == NewSegment(cycle, after, quirk, closes);
      }
    }
    forall i | 0 <= i < |mem| && i != s
      ensures mem'[i] == mem[i] && next'[i] == next[i]
    {
      assert mem1[i] == mem[i] && next1[i] == next[i];
    }
  }

  /** Positions after a splice, as Grow has them. */
  lemma SplicedPositions(order: seq<nat>, mem: seq<seq<Trb>>, num: nat, mem': seq<seq<Trb>>,
                         p: Producer, enq: Ptr, deq: Ptr, w: Option<Ptr>, hw: Ptr)
    requires Pool(order, mem) && 0 < num
    requires OnRing(order, enq) && OnRing(order, deq) && OnRing(order, hw)
    requires w.Some? ==> OnRing(order, w.value)
    requires p.e == Pos(order, enq) && p.d == Pos(order, deq) && p.withheld == Where(order, w)
    requires Pool(Insert(order, Rank(order, enq.seg), Ids(|mem|, num)), mem')
    ensures var order' := Insert(order, Rank(order, enq.seg), Ids(|mem|, num));
            var cut := Cut(p.e);
            && OnRing(order', enq) && OnRing(order', deq) && OnRing(order', hw)
            && (w.Some? ==> OnRing(order', w.value))
            && Pos(order', enq) == p.e
            && Pos(order', deq) == Shift(cut, 64 * num, p.d)
            && Pos(order', hw) == Shift(cut, 64 * num, Pos(order, hw))
            && Where(order', w) ==
               if w.Some? then Some(Shift(cut, 64 * num, p.withheld.value)) else None
  {
    var r := Rank(order, enq.seg);
    var ids := Ids(|mem|, num);
    PosSlot(order, mem, enq);
    InsertPos(order, mem, r, ids, mem', enq);
    InsertPos(order, mem, r, ids, mem', deq);
    InsertPos(order, mem, r, ids, mem', hw);
    if w.Some? {
      InsertPos(order, mem, r, ids, mem', w.value);
    }
  }

  /** A splice leaves a well-formed ring, whose tape is Grow's. */
  lemma SplicedOk(f: Fields, f': Fields, num: nat, quirk: bool)
    requires Ok(f) && 0 < num && (f.withheld.Some? ==> f.withheld.value.idx != 63)
    requires Spliced(f.order, f.next, f.mem, Rank(f.order, f.enqueue.seg), num, f.cycle, quirk,
                     f'.next, f'.mem)
    requires f'.order == Insert(f.order, Rank(f.order, f.enqueue.seg), Ids(|f.mem|, num))
    requires f'.numSegs == f.numSegs + num && f'.firstSeg == f.firstSeg
    requires f'.lastSeg == if IsLast(f.order, Rank(f.order, f.enqueue.seg))
                           then |f.mem| + num - 1 else f.lastSeg
    requires f'.enqueue == f.enqueue && f'.dequeue == f.dequeue && f'.withheld == f.withheld
    requires f'.hw == f.hw
    ensures Pool(Ids(|f.mem|, num), f'.mem)
    ensures Ok(f')
    ensures f'.Tape() == Grow(f.Model(), |f.mem|, quirk, Flat(Ids(|f.mem|, num), f'.mem)).tape
    ensures Spliceable(f.Model(), Flat(Ids(|f.mem|, num), f'.mem))
  {
    var r := Rank(f.order, f.enqueue.seg);
    var p := f.Model();
    PosSlot(f.order, f.mem, f.enqueue);
    PosSlot(f.order, f.mem, f.dequeue);
    if f.withheld.Some? {
      PosSlot(f.order, f.mem, f.withheld.value);
    }
    Whole(|f.order|);
    SplicedTape(f.order, f.next, f.mem, r, num, quirk, f'.next, f'.mem, p);
    SplicedPositions(f.order, f.mem, num, f'.mem, p, f.enqueue, f.dequeue, f.withheld, f.hw);
    InsertEnds(f.order, r, Ids(|f.mem|, num));
  }

  /** Splicing is Grow, for the driver's view and for the controller's. */
  lemma SplicedGrew(f: Fields, f': Fields, num: nat, quirk: bool, blank: seq<Trb>)
    requires Ok(f) && 0 < num && Ok(f')
    requires f'.order == Insert(f.order, Rank(f.order, f.enqueue.seg), Ids(|f.mem|, num))
    requires f'.enqueue == f.enqueue && f'.dequeue == f.dequeue && f'.withheld == f.withheld
    requires f'.cycle == f.cycle && f'.free == f.free + 63 * num
    requires f'.hw == f.hw && f'.ccs == f.ccs
    requires |blank| == 64 * num && Spliceable(f.Model(), blank)
    requires f'.Tape() == Grow(f.Model(), |f.mem|, quirk, blank).tape
    ensures Grew(f.Model(), f.Controller(), |f.mem|, quirk, blank, f'.Model(), f'.Controller())
  {
    PosSlot(f.order, f.mem, f.enqueue);
    SplicedPositions(f.order, f.mem, num, f'.mem, f.Model(),
                     f.enqueue, f.dequeue, f.withheld, f.hw);
    Whole(num);
    Whole(|f.order|);
    GrowFields(f.Model(), |f.mem|, quirk, blank, f'.Model());
  }

  /** Setting Toggle Cycle on the last link closes freshly linked segments into a ring. */
  lemma FreshCircle(next: seq<nat>, mem: seq<seq<Trb>>, num: nat, cycle: bool, quirk: bool)
    requires 0 < num == |mem| == |next|
    requires forall k :: 0 <= k < num ==> NewAt(next, mem, cycle, quirk, 0, true, k)
    ensures Circle(Ids(0, num), next, mem)
    ensures forall j :: 0 <= j < 64 * num ==> Flat(Ids(0, num), mem)[j].cycle == !cycle
  {
    var order := Ids(0, num);
    assert forall k :: 0 <= k < num ==> NewAt(next, mem, cycle, quirk, 0, true, k) && order[k] == k;
    forall i | 0 <= i < num
      ensures LinkedAt(order, next, mem, i)
    {
      assert NewAt(next, mem, cycle, quirk, 0, true, i);
    }
    Whole(num);
    var t := Flat(order, mem);
    forall j | 0 <= j < |t|
      ensures t[j].cycle == !cycle
      ensures t[j].typ.Link? <==> j % 64 == 63
      ensures j % 64 == 63 ==> (t[j].toggle <==> j == |t| - 1)
    {
      assert NewAt(next, mem, cycle, quirk, 0, true, j / 64);
      assert t[j] == mem[j / 64][j % 64];
    }
  }

  /** A freshly allocated ring is empty and safe. */
  lemma FreshOk(f: Fields, num: nat, quirk: bool)
    requires 0 < num == |f.mem| == |f.next| == f.numSegs && f.order == Ids(0, num)
    requires forall k :: 0 <= k < num ==> NewAt(f.next, f.mem, f.cycle, quirk, 0, true, k)
    requires f.firstSeg == 0 && f.lastSeg == num - 1 && f.free == 63 * num - 1
    requires f.enqueue == f.dequeue == f.hw == Ptr(0, 0) && f.withheld == None && f.ccs == f.cycle
    ensures Ok(f)
    ensures Inv(f.Model(), f.Controller()) && Room(f.Model())
    ensures Queue(f.Model(), f.Controller()) == [] && Building(f.Model()) == []
    ensures f.Model().e == 0 == f.Model().d
  {
    FreshCircle(f.next, f.mem, num, f.cycle, quirk);
    RankIs(f.order, f.mem, 0);
    FreshIsSafe(f.Model(), f.Controller(), num);
  }

  lemma FreshIsSafe(p: Producer, c: Consumer, num: nat)
    requires Geometry(p.tape) && |p.tape| == 64 * num && p.e == p.d == c.h == 0
    requires p.withheld == None && p.free == 63 * num - 1 && c.ccs == p.pcs
    requires forall j :: 0 <= j < |p.tape| ==> p.tape[j].cycle == !p.pcs
    ensures Inv(p, c) && Room(p)
    ensures Queue(p, c) == [] && Building(p) == []
  {
    Whole(num);
  }
}
