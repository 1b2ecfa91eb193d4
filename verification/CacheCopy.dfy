/** The copy loop that brings newly queued TRBs from host segments into the cache blocks
    assigned to them. */
module CacheCopy {
  import opened Trbs
  import opened Laps
  import opened Segments
  import opened Mirror

  /** One write request to the device: consecutive TRBs at a byte address; the doorbell is
      rung when a write that asks for it completes. */
  datatype CacheWrite = CacheWrite(addr: nat, data: seq<Trb>, doorbell: bool)

  /** Device memory by byte address of 16-byte slots. */
  type Device = map<nat, Trb>

  predicate Hits(w: CacheWrite, a: nat) {
    w.addr <= a < w.addr + 16 * |w.data| && (a - w.addr) % 16 == 0
  }

  function Apply(dev: Device, w: CacheWrite): Device {
    map a | a in dev :: if Hits(w, a) then w.data[(a - w.addr) / 16] else dev[a]
  }

  function ApplyAll(dev: Device, ws: seq<CacheWrite>): Device {
    if ws == [] then dev else Apply(ApplyAll(dev, ws[..|ws| - 1]), ws[|ws| - 1])
  }

  /** Device memory once the requests have been carried out in order. */
  function After(dev: Device, ws: seq<CacheWrite>): Device {
    ApplyAll(dev, ws)
  }

  lemma ApplyAppend(dev: Device, ws: seq<CacheWrite>, w: CacheWrite)
    ensures ApplyAll(dev, ws + [w]) == Apply(ApplyAll(dev, ws), w)
  {
    assert (ws + [w])[..|ws|] == ws;
  }

  /** Every segment of the ring has a 1 KB block of its own. */
  ghost predicate Blocks(order: seq<nat>, mem: seq<seq<Trb>>, addr: seq<nat>, dev: Device)
    requires Pool(order, mem)
  {
    && |addr| == |mem|
    && (forall i, k :: 0 <= i < |order| && 0 <= k < |order| ==> Apart(order, addr, i, k))
    && (forall i, k :: 0 <= i < |order| && 0 <= k < 64 ==> SlotAddr(addr[order[i]], k) in dev)
  }

  predicate Apart(order: seq<nat>, addr: seq<nat>, i: nat, k: nat)
    requires i < |order| && k < |order| && order[i] < |addr| && order[k] < |addr|
  {
    i != k ==> addr[order[i]] + 1024 <= addr[order[k]] || addr[order[k]] + 1024 <= addr[order[i]]
  }

  function SlotAddr(base: nat, idx: nat): nat {
    base + 16 * idx
  }

  /** The device's copy of the ring, laid out in ring order. */
  ghost function DevTape(order: seq<nat>, mem: seq<seq<Trb>>, addr: seq<nat>, dev: Device): (t: seq<Trb>)
    requires Pool(order, mem) && Blocks(order, mem, addr, dev)
    ensures |t| == 64 * |order|
  {
    seq(64 * |order|, j requires 0 <= j < 64 * |order| => dev[SlotAddr(addr[order[j / 64]], j % 64)])
  }

  lemma ApplyBlocks(order: seq<nat>, mem: seq<seq<Trb>>, addr: seq<nat>, dev: Device, w: CacheWrite)
    requires Pool(order, mem) && Blocks(order, mem, addr, dev)
    ensures Blocks(order, mem, addr, Apply(dev, w))
  {
  }

  /** A write of slots i..k of one segment changes exactly those slots of the device copy. */
  lemma WriteSlots(order: seq<nat>, mem: seq<seq<Trb>>, addr: seq<nat>, dev: Device,
                   r: nat, i: nat, k: nat, w: CacheWrite)
    requires Pool(order, mem) && Blocks(order, mem, addr, dev)
    requires r < |order| && i <= k < 64
    requires w.addr == SlotAddr(addr[order[r]], i) && w.data == mem[order[r]][i..k + 1]
    ensures Blocks(order, mem, addr, Apply(dev, w))
    ensures forall j :: 0 <= j < 64 * |order| ==>
              DevTape(order, mem, addr, Apply(dev, w))[j] ==
              if 64 * r + i <= j <= 64 * r + k then Flat(order, mem)[j]
              else DevTape(order, mem, addr, dev)[j]
  {
    ApplyBlocks(order, mem, addr, dev, w);
    forall j | 0 <= j < 64 * |order|
      ensures DevTape(order, mem, addr, Apply(dev, w))[j] ==
              if 64 * r + i <= j <= 64 * r + k then Flat(order, mem)[j]
              else DevTape(order, mem, addr, dev)[j]
    {
      var q, x := j / 64, j % 64;
      var a := SlotAddr(addr[order[q]], x);
      assert a in dev;
      assert Apart(order, addr, q, r);
      if q == r {
        assert a - w.addr == 16 * (x - i);
        if i <= x <= k {
          assert Hits(w, a) && (a - w.addr) / 16 == x - i;
        }
      }
    }
  }

  /** Copying on from x to y after a to x is copying from a to y. */
  lemma CopyFurther(host: seq<Trb>, dev: seq<Trb>, a: nat, x: nat, y: nat, u: seq<Trb>)
    requires |host| == |dev| == |u| && a < |host| && x < |host| && y < |host|
    requires Dist(|host|, a, x) <= Dist(|host|, a, y)
    requires forall j :: 0 <= j < |host| ==>
               u[j] == if InSpan(|host|, x, j, y) then host[j] else CopySpan(host, dev, a, x)[j]
    ensures u == CopySpan(host, dev, a, y)
  {
  }

  /** ehub_find_prev_trb: the slot in front of p, found through the `next` fields when p is
      the first slot of its segment. */
  method FindPrevTrb(ghost order: seq<nat>, next: seq<nat>, mem: seq<seq<Trb>>, p: Ptr)
    returns (prev: Ptr)
    requires Circle(order, next, mem) && OnRing(order, p) && 2 <= |order|
    ensures OnRing(order, prev) && Pos(order, prev) < 64 * |order|
    ensures Next(64 * |order|, Pos(order, prev)) == Pos(order, p)
  {
    ghost var n := |order|;
    PosSlot(order, mem, p);
    if p.idx != 0 {
      prev := Ptr(p.seg, p.idx - 1);
      PosSlot(order, mem, prev);
      return;
    }
    ghost var r := Rank(order, p.seg);
    assert LinkedAt(order, next, mem, r);
    var seg := next[p.seg];
    ghost var k: nat := Next(n, r);
    prev := p;
    while seg != p.seg
      invariant k < n && k != r && seg == order[k]
      decreases if k <= r then r - k else r + n - k
    {
      assert LinkedAt(order, next, mem, k);
      RankIs(order, mem, k);
      RankIs(order, mem, Next(n, k));
      if next[seg] == p.seg {
        prev := Ptr(seg, 63);
        PosSlot(order, mem, prev);
        return;
      }
      seg := next[seg];
      k := Next(n, k);
    }
    RankIs(order, mem, k);
    assert false;
  }

  /** How far the remainder of a segment reaches, seen from the slot to copy next. */
  lemma RestOfSegment(n: nat, x: nat, last: nat)
    requires x < n && last < n && n % 64 == 0
    ensures var link := 64 * (x / 64) + 63;
            && link < n
            && (last / 64 == x / 64 && x <= last ==> Dist(n, x, last) == last - x)
            && (last / 64 != x / 64 || last < x ==>
                  && Dist(n, x, link) < Dist(n, x, last)
                  && Dist(n, x, Next(n, link)) == Dist(n, x, link) + 1)
  {
  }

  /** A write stays inside the block of one of the ring's segments. */
  ghost predicate Confined(order: seq<nat>, addr: seq<nat>, w: CacheWrite) {
    exists s :: s in order && s < |addr| &&
                addr[s] <= w.addr && w.addr + 16 * |w.data| <= addr[s] + 1024
  }

  lemma SegmentSpan(n: nat, x: nat, end: nat, j: nat)
    requires x <= end < n && j < n && x / 64 == end / 64 && 128 <= n && n % 64 == 0
    ensures Next(n, end) < n && Next(n, end) != x
    ensures InSpan(n, x, j, Next(n, end)) <==> x <= j <= end
  {
  }

  /** One write of the loop: the device copy advances from x to the slot behind `end`. */
  lemma CopyStep(order: seq<nat>, mem: seq<seq<Trb>>, addr: seq<nat>, dev: Device, base: seq<Trb>,
                 ce: nat, start: Ptr, end: nat, w: CacheWrite)
    requires Pool(order, mem) && Blocks(order, mem, addr, dev) && 2 <= |order|
    requires OnRing(order, start) && start.idx <= end < 64 && start.seg < |addr|
    requires start.seg < |mem| && |mem[start.seg]| == 64
    requires w.addr == SlotAddr(addr[start.seg], start.idx)
    requires w.data == mem[start.seg][start.idx..end + 1]
    requires |base| == 64 * |order| && ce < 64 * |order| && Pos(order, start) < 64 * |order|
    requires DevTape(order, mem, addr, dev) == CopySpan(Flat(order, mem), base, ce, Pos(order, start))
    requires Next(64 * |order|, Pos(order, Ptr(start.seg, end))) < 64 * |order|
    requires Dist(64 * |order|, ce, Pos(order, start)) <=
             Dist(64 * |order|, ce, Next(64 * |order|, Pos(order, Ptr(start.seg, end))))
    ensures Blocks(order, mem, addr, Apply(dev, w))
    ensures DevTape(order, mem, addr, Apply(dev, w)) ==
            CopySpan(Flat(order, mem), base, ce, Next(64 * |order|, Pos(order, Ptr(start.seg, end))))
    ensures Confined(order, addr, w)
  {
    var n, r := 64 * |order|, Rank(order, start.seg);
    var x, y := Pos(order, start), Pos(order, Ptr(start.seg, end));
    PosSlot(order, mem, start);
    PosSlot(order, mem, Ptr(start.seg, end));
    Whole(|order|);
    WriteSlots(order, mem, addr, dev, r, start.idx, end, w);
    var u := DevTape(order, mem, addr, Apply(dev, w));
    forall j | 0 <= j < n
      ensures u[j] == if InSpan(n, x, j, Next(n, y)) then Flat(order, mem)[j]
                      else CopySpan(Flat(order, mem), base, ce, x)[j]
    {
      SegmentSpan(n, x, y, j);
    }
    CopyFurther(Flat(order, mem), base, ce, x, Next(n, y), u);
  }

  /** ehub_xhci_cache_copy_from_ring: write requests for everything queued since the last copy,
      crossed links included.  Every request stays inside one block, only the last one asks
      for the doorbell, and once they have been carried out in order the device copy equals
      host memory from cache_enqueue up to enqueue. */
  method CopyFromRing(ghost order: seq<nat>, next: seq<nat>, mem: seq<seq<Trb>>, addr: seq<nat>,
                      cacheEnq: Ptr, enq: Ptr, ringDoorbell: bool, ghost dev: Device)
    returns (writes: seq<CacheWrite>)
    requires Circle(order, next, mem) && 2 <= |order| && Blocks(order, mem, addr, dev)
    requires OnRing(order, cacheEnq) && OnRing(order, enq) && cacheEnq != enq
    ensures 0 < |writes|
    ensures forall i :: 0 <= i < |writes| ==> Confined(order, addr, writes[i])
    ensures forall i :: 0 <= i < |writes| ==>
              (writes[i].doorbell <==> ringDoorbell && i == |writes| - 1)
    ensures Blocks(order, mem, addr, After(dev, writes))
    ensures Pos(order, cacheEnq) < 64 * |order| && Pos(order, enq) < 64 * |order|
    ensures DevTape(order, mem, addr, After(dev, writes)) ==
            CopySpan(Flat(order, mem), DevTape(order, mem, addr, dev),
                     Pos(order, cacheEnq), Pos(order, enq))
  {
    ghost var n, base := 64 * |order|, DevTape(order, mem, addr, dev);
    ghost var ce, e := Pos(order, cacheEnq), Pos(order, enq);
    PosSlot(order, mem, cacheEnq);
    PosSlot(order, mem, enq);
    PosInjective(order, cacheEnq, enq);
    Whole(|order|);
    var last := FindPrevTrb(order, next, mem, enq);
    ghost var l := Pos(order, last);
    PosSlot(order, mem, last);
    writes := [];
    var start := cacheEnq;
    assert base == CopySpan(Flat(order, mem), base, ce, ce);
    while true
      invariant OnRing(order, start) && Pos(order, start) < n
      invariant Dist(n, ce, Pos(order, start)) <= Dist(n, ce, l)
      invariant forall i :: 0 <= i < |writes| ==> Confined(order, addr, writes[i])
      invariant forall i :: 0 <= i < |writes| ==> !writes[i].doorbell
      invariant Blocks(order, mem, addr, ApplyAll(dev, writes))
      invariant DevTape(order, mem, addr, ApplyAll(dev, writes)) ==
                CopySpan(Flat(order, mem), base, ce, Pos(order, start))
      decreases Dist(n, ce, l) - Dist(n, ce, Pos(order, start))
    {
      PosSlot(order, mem, start);
      RestOfSegment(n, Pos(order, start), l);
      var lastCopy := start.seg == last.seg && start.idx <= last.idx;
      var end := if lastCopy then last.idx else 63;
      var w := CacheWrite(SlotAddr(addr[start.seg], start.idx),
                          mem[start.seg][start.idx..end + 1], lastCopy && ringDoorbell);
      StepReach(order, mem, start, last, end, ce, e);
      CopyStep(order, mem, addr, ApplyAll(dev, writes), base, ce, start, end, w);
      ApplyAppend(dev, writes, w);
      writes := writes + [w];
      if lastCopy {
        break;
      }
      NextIsNext(order, next, mem, Ptr(start.seg, 63));
      start := Ptr(next[start.seg], 0);
    }
  }

  /** Where one write ends: at enqueue if the last TRB lies in the rest of this segment,
      otherwise at the head of the next segment, still in front of the last TRB. */
  lemma StepReach(order: seq<nat>, mem: seq<seq<Trb>>, start: Ptr, last: Ptr, end: nat,
                  ce: nat, e: nat)
    requires Pool(order, mem) && OnRing(order, start) && OnRing(order, last)
    requires ce < 64 * |order| && e < 64 * |order| && ce != e
    requires Pos(order, last) < 64 * |order| && Next(64 * |order|, Pos(order, last)) == e
    requires Pos(order, start) < 64 * |order|
    requires Dist(64 * |order|, ce, Pos(order, start)) <= Dist(64 * |order|, ce, Pos(order, last))
    requires end == if start.seg == last.seg && start.idx <= last.idx then last.idx else 63
    ensures start.idx <= end
    ensures var n := 64 * |order|;
            var y := Next(n, Pos(order, Ptr(start.seg, end)));
            && y < n
            && Dist(n, ce, Pos(order, start)) < Dist(n, ce, y)
            && (start.seg == last.seg && start.idx <= last.idx ==> y == e)
            && (!(start.seg == last.seg && start.idx <= last.idx) ==>
                  Dist(n, ce, y) <= Dist(n, ce, Pos(order, last)))
  {
    var n, x, l := 64 * |order|, Pos(order, start), Pos(order, last);
    PosSlot(order, mem, start);
    PosSlot(order, mem, last);
    PosSlot(order, mem, Ptr(start.seg, end));
    Whole(|order|);
    RestOfSegment(n, x, l);
  }
}
