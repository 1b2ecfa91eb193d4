/** Does an event's DMA address belong to a TD? */
module TrbInTd {
  import opened Trbs
  import opened Laps
  import opened Segments
  import Growth

  /** ehub_xhci_trb_virt_to_dma: 0 when the TRB is not in the segment. */
  function VirtToDma(dma: seq<nat>, s: nat, p: Ptr): nat
    requires s < |dma|
  {
    if p.seg == s && p.idx < 64 then dma[s] + 16 * p.idx else 0
  }

  /** Segments lie at non-zero, non-overlapping bus addresses. */
  ghost predicate Mapped(order: seq<nat>, dma: seq<nat>) {
    && (forall i :: 0 <= i < |order| ==> order[i] < |dma| && 0 < dma[order[i]])
    && (forall i, k :: 0 <= i < |order| && 0 <= k < |order| && i != k ==>
          Disjoint(dma[order[i]], dma[order[k]]))
  }

  predicate Disjoint(a: nat, b: nat) {
    a + 1024 <= b || b + 1024 <= a
  }

  /** The circle of segments, as far as `next` tells. */
  ghost predicate Ringed(order: seq<nat>, next: seq<nat>) {
    && 0 < |order|
    && (forall i, k :: 0 <= i < |order| && 0 <= k < |order| ==> Differ(order, i, k))
    && (forall i :: 0 <= i < |order| ==> order[i] < |next|)
    && forall i :: 0 <= i < |order| ==> Follows(order, next, i)
  }

  predicate Follows(order: seq<nat>, next: seq<nat>, i: nat)
    requires i < |order| && order[i] < |next|
  {
    next[order[i]] == order[Next(|order|, i)]
  }

  predicate Within(base: nat, lo: nat, hi: nat, x: nat) {
    base + 16 * lo <= x <= base + 16 * hi
  }

  /** Segments walked from the TD's first segment to the one of rank i. */
  ghost function Hops(order: seq<nat>, start: Ptr, i: nat): nat
    requires start.seg in order && i < |order|
  {
    Dist(|order|, Rank(order, start.seg), i)
  }

  /** The addresses accepted in the segment of rank i, in closed form. */
  ghost predicate Accepts(order: seq<nat>, dma: seq<nat>, start: Ptr, end: Ptr, i: nat, x: nat)
    requires start.seg in order && i < |order| && order[i] < |dma|
  {
    var base, k := dma[order[i]], Hops(order, start, i);
    var lo := if k == 0 then start.idx else 0;
    if !OnRing(order, end) then Within(base, lo, 63, x)
    else
      var m := Hops(order, start, Rank(order, end.seg));
      if m == 0 && end.idx < start.idx
      then k == 0 && (Within(base, start.idx, 63, x) || Within(base, 0, end.idx, x))
      else k <= m && Within(base, lo, if k == m then end.idx else 63, x)
  }

  /** The rank k segments further on. */
  function RankAt(n: nat, r: nat, k: nat): nat
    requires r < n && k < n
  {
    if r + k < n then r + k else r + k - n
  }

  lemma RankAtHops(order: seq<nat>, next: seq<nat>, start: Ptr, k: nat)
    requires Ringed(order, next) && start.seg in order && k < |order|
    ensures var n, r := |order|, Rank(order, start.seg);
            var c := RankAt(n, r, k);
            && c < n && Hops(order, start, c) == k
            && (k + 1 < n ==> Next(n, c) == RankAt(n, r, k + 1) && order[Next(n, c)] != start.seg)
            && (k + 1 == n ==> Next(n, c) == r)
            && (forall i :: 0 <= i < n && Hops(order, start, i) == k ==> i == c)
  {
    var n, r := |order|, Rank(order, start.seg);
    assert Differ(order, Next(n, RankAt(n, r, k)), r);
  }

  lemma RankOf(order: seq<nat>, next: seq<nat>, i: nat)
    requires Ringed(order, next) && i < |order|
    ensures order[i] in order && Rank(order, order[i]) == i
  {
    assert Differ(order, Rank(order, order[i]), i);
  }

  /** At most one segment accepts an address. */
  lemma OnlyOne(order: seq<nat>, next: seq<nat>, dma: seq<nat>, start: Ptr, end: Ptr, c: nat, x: nat)
    requires Ringed(order, next) && Mapped(order, dma) && OnRing(order, start) && c < |order|
    requires Accepts(order, dma, start, end, c, x)
    ensures forall i :: 0 <= i < |order| ==>
              (Some(order[c]) == Some(order[i]) <==> Accepts(order, dma, start, end, i, x))
  {
    forall i | 0 <= i < |order| && i != c
      ensures order[c] != order[i] && !Accepts(order, dma, start, end, i, x)
    {
      assert Differ(order, i, c);
      assert Disjoint(dma[order[i]], dma[order[c]]);
    }
  }

  /** ehub_trb_in_td: the segment of the TD that contains the suspect address, if any. */
  method TrbInTd(ghost order: seq<nat>, next: seq<nat>, dma: seq<nat>,
                 start: Ptr, end: Ptr, suspect: nat)
    returns (result: Option<nat>)
    requires Ringed(order, next) && Mapped(order, dma) && OnRing(order, start)
    ensures result.Some? ==> result.value in order
    ensures forall i :: 0 <= i < |order| ==>
              (result == Some(order[i]) <==> Accepts(order, dma, start, end, i, suspect))
  {
    ghost var n, r := |order|, Rank(order, start.seg);
    var cur := start.seg;
    var startDma := VirtToDma(dma, cur, start);
    ghost var k := 0;
    while true
      invariant 0 <= k < n && cur == order[RankAt(n, r, k)]
      invariant startDma == dma[cur] + 16 * (if k == 0 then start.idx else 0)
      invariant forall i :: 0 <= i < n && Hops(order, start, i) < k ==>
                  !Accepts(order, dma, start, end, i, suspect)
      invariant OnRing(order, end) ==> k <= Hops(order, start, Rank(order, end.seg))
      decreases n - k
    {
      ghost var c := RankAt(n, r, k);
      RankAtHops(order, next, start, k);
      assert Follows(order, next, c) && 0 < dma[order[c]];
      if startDma == 0 {
        assert false;
      }
      var endSegDma := dma[cur] + 16 * 63;
      var endTrbDma := VirtToDma(dma, cur, end);
      RankOf(order, next, c);
      if endTrbDma > 0 {
        if startDma <= endTrbDma {
          if suspect >= startDma && suspect <= endTrbDma {
            OnlyOne(order, next, dma, start, end, c, suspect);
            return Some(cur);
          }
        } else {
          if (suspect >= startDma && suspect <= endSegDma) ||
             (suspect >= dma[cur] && suspect <= endTrbDma) {
            OnlyOne(order, next, dma, start, end, c, suspect);
            return Some(cur);
          }
        }
        return None;
      } else {
        if suspect >= startDma && suspect <= endSegDma {
          OnlyOne(order, next, dma, start, end, c, suspect);
          return Some(cur);
        }
      }
      cur := next[cur];
      startDma := VirtToDma(dma, cur, Ptr(cur, 0));
      if cur == start.seg {
        return None;
      }
      k := k + 1;
    }
  }

  // ------------------------------------------------------------------- exactness

  /** Slot t of the segment of rank i lies on the walk from the TD's first TRB to its last. */
  ghost predicate TdSlot(order: seq<nat>, start: Ptr, end: Ptr, i: nat, t: nat)
    requires OnRing(order, start) && OnRing(order, end) && i < |order| && t < 64
  {
    var n := 64 * |order|;
    && Pos(order, start) < n && Pos(order, end) < n
    && Dist(n, Pos(order, start), 64 * i + t) <= Dist(n, Pos(order, start), Pos(order, end))
  }

  /** The address lies in a run of TD slots of that segment that does not go on past the
      last TRB. */
  ghost predicate Covers(order: seq<nat>, dma: seq<nat>, start: Ptr, end: Ptr, i: nat, x: nat)
    requires OnRing(order, start) && OnRing(order, end) && i < |order| && order[i] < |dma|
  {
    exists a, b :: 0 <= a <= b < 64 && Within(dma[order[i]], a, b, x) && Run(order, start, end, i, a, b)
  }

  ghost predicate Run(order: seq<nat>, start: Ptr, end: Ptr, i: nat, a: nat, b: nat)
    requires OnRing(order, start) && OnRing(order, end) && i < |order| && a <= b < 64
  {
    && (forall t :: a <= t <= b ==> TdSlot(order, start, end, i, t))
    && !(i == Rank(order, end.seg) && a <= end.idx < b)
  }

  /** A TD that comes back to the segment it started in, although the ring has others. */
  ghost predicate Wraps(order: seq<nat>, start: Ptr, end: Ptr) {
    end.seg == start.seg && end.idx < start.idx && 1 < |order|
  }

  lemma SlotInTd(order: seq<nat>, start: Ptr, end: Ptr, i: nat, t: nat)
    requires OnRing(order, start) && OnRing(order, end) && i < |order| && t < 64
    ensures var k, m := Hops(order, start, i), Hops(order, start, Rank(order, end.seg));
            TdSlot(order, start, end, i, t) <==>
            if m == 0 && end.idx < start.idx then k != 0 || start.idx <= t || t <= end.idx
            else k <= m && (k == 0 ==> start.idx <= t) && (k == m ==> t <= end.idx)
  {
    var r, q := Rank(order, start.seg), Rank(order, end.seg);
    assert 64 * r + start.idx < 64 * |order| && 64 * q + end.idx < 64 * |order|;
  }

  lemma AcceptsImpliesCovers(order: seq<nat>, dma: seq<nat>, start: Ptr, end: Ptr, i: nat, x: nat)
    requires OnRing(order, start) && OnRing(order, end) && i < |order| && order[i] < |dma|
    requires Accepts(order, dma, start, end, i, x)
    ensures Covers(order, dma, start, end, i, x)
  {
    var k, m := Hops(order, start, i), Hops(order, start, Rank(order, end.seg));
    forall t | 0 <= t < 64
      ensures TdSlot(order, start, end, i, t) <==>
              if m == 0 && end.idx < start.idx then k != 0 || start.idx <= t || t <= end.idx
              else k <= m && (k == 0 ==> start.idx <= t) && (k == m ==> t <= end.idx)
    {
      SlotInTd(order, start, end, i, t);
    }
    var base := dma[order[i]];
    var wraps := m == 0 && end.idx < start.idx;
    var a := if k == 0 && !(wraps && Within(base, 0, end.idx, x)) then start.idx else 0;
    var b := if wraps then (if Within(base, 0, end.idx, x) then end.idx else 63)
             else if k == m then end.idx else 63;
    assert Run(order, start, end, i, a, b);
  }

  lemma CoversImpliesAccepts(order: seq<nat>, dma: seq<nat>, start: Ptr, end: Ptr, i: nat, x: nat)
    requires OnRing(order, start) && OnRing(order, end) && i < |order| && order[i] < |dma|
    requires Covers(order, dma, start, end, i, x) && !Wraps(order, start, end)
    ensures Accepts(order, dma, start, end, i, x)
  {
    var a, b :| 0 <= a <= b < 64 && Within(dma[order[i]], a, b, x) && Run(order, start, end, i, a, b);
    SlotInTd(order, start, end, i, a);
    SlotInTd(order, start, end, i, b);
    var k, m := Hops(order, start, i), Hops(order, start, Rank(order, end.seg));
    if m == 0 && end.idx < start.idx {
      assert |order| == 1;
    }
  }

  /** The search is exact for every address and segment if and only if the TD does not wrap
      back into its first segment on a ring with other segments. */
  lemma ExactIffNotWrapped(order: seq<nat>, next: seq<nat>, dma: seq<nat>, start: Ptr, end: Ptr)
    requires Ringed(order, next) && Mapped(order, dma)
    requires OnRing(order, start) && OnRing(order, end)
    ensures (forall i, x: nat :: 0 <= i < |order| ==>
               (Accepts(order, dma, start, end, i, x) <==> Covers(order, dma, start, end, i, x)))
            <==> !Wraps(order, start, end)
  {
    if Wraps(order, start, end) {
      var n, r := |order|, Rank(order, start.seg);
      var i := Next(n, r);
      var x := dma[order[i]];
      RankOf(order, next, r);
      SlotInTd(order, start, end, i, 0);
      assert Differ(order, Rank(order, end.seg), r);
      assert Run(order, start, end, i, 0, 0) && Within(x, 0, 0, x);
      assert Covers(order, dma, start, end, i, x) && !Accepts(order, dma, start, end, i, x);
    } else {
      forall i, x: nat | 0 <= i < |order|
        ensures Accepts(order, dma, start, end, i, x) <==> Covers(order, dma, start, end, i, x)
      {
        if Accepts(order, dma, start, end, i, x) {
          AcceptsImpliesCovers(order, dma, start, end, i, x);
        } else if Covers(order, dma, start, end, i, x) {
          CoversImpliesAccepts(order, dma, start, end, i, x);
        }
      }
    }
  }

  // ------------------------------------------------------------- TDs a ring can hold

  /** Room keeps enqueue out of the part of dequeue's segment behind dequeue, so no TD that
      still lies between the two comes back into the segment it started in. */
  lemma LiveNeverWraps(p: Producer, s: nat, t: nat)
    requires Shape(p) && Accounting(p) && Room(p) && s < |p.tape| && t < |p.tape|
    requires Dist(|p.tape|, p.d, s) <= Dist(|p.tape|, p.d, t) < Dist(|p.tape|, p.d, p.e)
    ensures !(t / 64 == s / 64 && t < s)
  {
    Growth.EnqueueNotBehindDequeue(p);
    if t / 64 == s / 64 && t < s {
      BetweenAreInside(t, p.e, p.d, s);
    }
  }

  lemma BetweenAreInside(t: nat, e: nat, d: nat, s: nat)
    requires t < e < d <= s && t / 64 == s / 64
    ensures e / 64 == d / 64
  {
  }

  /** A TD between dequeue and enqueue of a transfer ring. */
  ghost predicate Live(f: Fields, start: Ptr, end: Ptr) {
    && Ok(f) && OnRing(f.order, start) && OnRing(f.order, end)
    && Inv(f.Model(), f.Controller()) && Room(f.Model())
    && Pos(f.order, start) < |f.Tape()| && Pos(f.order, end) < |f.Tape()|
    && Dist(|f.Tape()|, f.Model().d, Pos(f.order, start)) <=
       Dist(|f.Tape()|, f.Model().d, Pos(f.order, end)) <
       Dist(|f.Tape()|, f.Model().d, f.Model().e)
  }

  lemma LiveDoesNotWrap(f: Fields, start: Ptr, end: Ptr)
    requires Live(f, start, end)
    ensures !Wraps(f.order, start, end)
  {
    PosSlot(f.order, f.mem, start);
    PosSlot(f.order, f.mem, end);
    LiveNeverWraps(f.Model(), Pos(f.order, start), Pos(f.order, end));
  }

  lemma CircleIsRinged(f: Fields)
    requires Ok(f)
    ensures Ringed(f.order, f.next)
  {
    forall i | 0 <= i < |f.order| ensures f.order[i] < |f.next| && Follows(f.order, f.next, i) {
      assert LinkedAt(f.order, f.next, f.mem, i);
    }
  }

  /** For every TD that a transfer ring can hold, however many segments it has, the search is
      exact. */
  lemma ExactForLiveTds(f: Fields, dma: seq<nat>, start: Ptr, end: Ptr)
    requires Live(f, start, end) && Mapped(f.order, dma)
    ensures Ringed(f.order, f.next)
    ensures forall i, x: nat :: 0 <= i < |f.order| ==>
              (Accepts(f.order, dma, start, end, i, x) <==> Covers(f.order, dma, start, end, i, x))
  {
    CircleIsRinged(f);
    LiveDoesNotWrap(f, start, end);
    ExactIffNotWrapped(f.order, f.next, dma, start, end);
  }
}
