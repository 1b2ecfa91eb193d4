/** Recovering a stopped or halted ring: where the controller has to continue, and
    what the driver's own dequeue pointer and free count become. */
module Recovery {
  import opened Trbs
  import opened Laps
  import opened Segments
  import opened Rings

  // ------------------------------------------------- moving the controller forward

  /** A Set TR Dequeue Pointer command that takes effect: the controller continues at t with
      the cycle state that belongs there. */
  function Jump(p: Producer, t: nat): Consumer {
    Consumer(t, CycleAt(p, t))
  }

  /** Jumping forward inside the queue drops exactly the TRBs jumped over. */
  lemma JumpLawful(p: Producer, c: Consumer, t: nat)
    requires Lawful(p, c) && t < |p.tape|
    requires Dist(|p.tape|, c.h, t) <= Dist(|p.tape|, c.h, Stop(p))
    ensures Lawful(p, Jump(p, t))
    ensures Queue(p, c) == Work(Span(p.tape, c.h, t)) + Queue(p, Jump(p, t))
  {
    SpanSplit(p.tape, c.h, t, Stop(p));
    WorkConcat(Span(p.tape, c.h, t), Span(p.tape, t, Stop(p)));
  }

  lemma JumpKeeps(p: Producer, c: Consumer, t: nat)
    requires Inv(p, c) && t < |p.tape|
    requires Dist(|p.tape|, c.h, t) <= Dist(|p.tape|, c.h, Stop(p))
    ensures Inv(p, Jump(p, t))
  {
    JumpLawful(p, c, t);
    CountSplit(|p.tape|, c.h, t, p.e);
  }

  // ----------------------------------------------------- moving dequeue after it

  /** Dequeue put where the controller stands, with every slot in between given up. */
  function RetireTo(p: Producer, t: nat): Producer
    requires t < |p.tape| && p.e < |p.tape| && |p.tape| % 64 == 0
  {
    p.(d := t, free := Ord(|p.tape|) - 1 - WorkCount(|p.tape|, t, p.e))
  }

  /** A position by segment and slot. */
  lemma OrdParts(j: nat)
    ensures j == 64 * (j / 64) + j % 64 && Ord(j) == 63 * (j / 64) + j % 64
  {
  }

  lemma RoomAt(n: nat, d: nat, h: nat, e: nat)
    requires d < n && h < n && e < n && n % 64 == 0
    requires d % 64 + Occupied(n, d, e) <= Ord(n) - 1
    requires WorkCount(n, h, e) <= Occupied(n, d, e)
    requires !(h % 64 == 63 && d == Next(n, h))
    ensures h % 64 + WorkCount(n, h, e) <= Ord(n) - 1
  {
    OrdParts(n);
    OrdParts(d);
    OrdParts(h);
    OrdParts(e);
    RoomLinear(n / 64, d / 64, d % 64, h / 64, h % 64, e / 64, e % 64,
               Occupied(n, d, e), WorkCount(n, h, e));
  }

  lemma RoomLinear(n: nat, a: nat, x: nat, b: nat, y: nat, c: nat, z: nat, o: int, w: int)
    requires a < n && b < n && c < n && x < 64 && y < 64 && z < 64
    requires w == 63 * (c - b) + z - y + (if 64 * b + y <= 64 * c + z then 0 else 63 * n)
    requires var drained := z == 63 && 64 * a + x == if c == n - 1 then 0 else 64 * c + 64;
             o == if drained then 0
                  else 63 * (c - a) + z - x + (if 64 * a + x <= 64 * c + z then 0 else 63 * n)
    requires x + o <= 63 * n - 1 && w <= o
    requires !(y == 63 && 64 * a + x == if b == n - 1 then 0 else 64 * b + 64)
    ensures y + w <= 63 * n - 1
  {
  }

  /** Once the controller has jumped, dequeue may follow it: the accounting is restored and
      enqueue keeps its distance.  The controller must not be one link behind dequeue. */
  lemma RetireToKeeps(p: Producer, c: Consumer)
    requires Inv(p, c) && Room(p)
    requires !(c.h % 64 == 63 && p.d == Next(|p.tape|, c.h))
    ensures Inv(RetireTo(p, c.h), c) && Room(RetireTo(p, c.h))
    ensures Queue(RetireTo(p, c.h), c) == Queue(p, c)
  {
    CountBound(|p.tape|, c.h, p.e);
    RoomAt(|p.tape|, p.d, c.h, p.e);
    LawfulIgnoresDequeue(p, c, c.h, RetireTo(p, c.h).free);
  }

  // ------------------------------------------- the search for a new dequeue state

  /** Position k slots further on. */
  function Ahead(n: nat, d: nat, k: nat): nat
    requires d < n && k < n
  {
    if d + k < n then d + k else d + k - n
  }

  lemma AheadDist(n: nat, d: nat, x: nat, k: nat)
    requires d < n && x < n && k < n
    ensures Ahead(n, d, k) < n
    ensures x == Ahead(n, d, k) <==> Dist(n, d, x) == k
    ensures k + 1 < n ==> Next(n, Ahead(n, d, k)) == Ahead(n, d, k + 1) != d
    ensures k + 1 == n ==> Next(n, Ahead(n, d, k)) == d
  {
  }

  /** How far a pointer lies ahead of d; a pointer off the ring is never met. */
  ghost function Reach(order: seq<nat>, d: nat, p: Ptr): nat
    requires d < 64 * |order|
  {
    if OnRing(order, p) && Pos(order, p) < 64 * |order|
    then Dist(64 * |order|, d, Pos(order, p)) else 64 * |order|
  }

  /** What the search has to find: the later of the controller's own position and the slot
      behind the TD, seen from dequeue, with the cycle state flipped if the way there wraps.
      There is no answer if either pointer is not on the ring, or if the slot behind the TD
      is dequeue again. */
  ghost predicate NewDequeue(order: seq<nat>, d: nat, hwDeq: Ptr, hwCycle: bool, last: Ptr,
                             found: bool, deq: Ptr, cycle: bool)
    requires d < 64 * |order|
  {
    var n := 64 * |order|;
    var a, b := Reach(order, d, hwDeq), Reach(order, d, last);
    var ok :=
      && (found <==> a < n && b < n && (b < a || b + 1 < n))
      && (found ==>
            && OnRing(order, deq)
            && Pos(order, deq) == Ahead(n, d, if b < a then a else b + 1)
            && cycle == (hwCycle != (Pos(order, deq) < Ahead(n, d, a))));
    ok
  }

  /** ehub_xhci_find_new_dequeue_state on a ring without streams.  `hwDeq` and `hwCycle` are
      the pointer and cycle state the controller saved when it stopped, `last` the last TRB
      of the TD to get past. */
  method FindNewDequeueState(r: Ring, hwDeq: Ptr, hwCycle: bool, last: Ptr)
    returns (found: bool, deq: Ptr, cycle: bool)
    requires r.Valid()
    ensures r.At(r.dequeue) < 64 * |r.order|
    ensures NewDequeue(r.order, r.At(r.dequeue), hwDeq, hwCycle, last, found, deq, cycle)
  {
    PosSlot(r.order, r.mem, r.dequeue);
    found, deq, cycle := Search(r.order, r.next, r.mem, r.dequeue, hwDeq, hwCycle, last);
  }

  method Search(ghost order: seq<nat>, next: seq<nat>, mem: seq<seq<Trb>>, dequeue: Ptr,
                hwDeq: Ptr, hwCycle: bool, last: Ptr)
    returns (found: bool, deq: Ptr, cycle: bool)
    requires Circle(order, next, mem) && OnRing(order, dequeue)
    requires Pos(order, dequeue) < 64 * |order|
    ensures NewDequeue(order, Pos(order, dequeue), hwDeq, hwCycle, last, found, deq, cycle)
  {
    ghost var n, d := 64 * |order|, Pos(order, dequeue);
    ghost var a, b := Reach(order, d, hwDeq), Reach(order, d, last);
    deq, cycle := dequeue, hwCycle;
    var cycleFound, lastFound := false, false;
    ghost var k := 0;
    while true
      invariant 0 <= k < n && OnRing(order, deq) && Pos(order, deq) == Ahead(n, d, k)
      invariant cycleFound <==> a < k
      invariant lastFound <==> b < k
      invariant !(cycleFound && lastFound)
      invariant cycle == (hwCycle != (cycleFound && Ahead(n, d, k) < Ahead(n, d, a)))
      decreases n - k
    {
      Meets(order, d, hwDeq, deq, k);
      Meets(order, d, last, deq, k);
      AheadDist(n, d, d, k);
      if !cycleFound && deq == hwDeq {
        cycleFound := true;
        if lastFound {
          assert b < a == k;
          return true, deq, cycle;
        }
      }
      if deq == last {
        lastFound := true;
      }
      StepInRing(order, next, mem, deq, dequeue);
      if a <= k {
        ToggleStep(n, d, a, k);
      }
      if cycleFound && mem[deq.seg][deq.idx].typ.Link? && mem[deq.seg][deq.idx].toggle {
        cycle := !cycle;
      }
      deq := NextTrb(next, mem, deq);
      if deq == dequeue {
        assert k + 1 == n;
        return false, deq, cycle;
      }
      assert k + 1 < n && Pos(order, deq) == Ahead(n, d, k + 1);
      k := k + 1;
      if cycleFound && lastFound {
        assert a <= b && b + 1 == k;
        return true, deq, cycle;
      }
    }
  }

  /** A walk that started at distance a passes the toggling link exactly when it wraps. */
  lemma ToggleStep(n: nat, d: nat, a: nat, k: nat)
    requires d < n && a <= k < n
    ensures k + 1 < n ==>
              (Ahead(n, d, k + 1) < Ahead(n, d, a) <==>
                 (a < k && Ahead(n, d, k) < Ahead(n, d, a)) != (Ahead(n, d, k) == n - 1))
  {
  }

  lemma StepInRing(order: seq<nat>, next: seq<nat>, mem: seq<seq<Trb>>, p: Ptr, start: Ptr)
    requires Circle(order, next, mem) && OnRing(order, p) && OnRing(order, start)
    ensures p.seg < |mem| && p.seg < |next| && |mem[p.seg]| == 64
    ensures OnRing(order, NextTrb(next, mem, p))
    ensures Pos(order, p) < 64 * |order|
    ensures Pos(order, NextTrb(next, mem, p)) == Next(64 * |order|, Pos(order, p))
    ensures mem[p.seg][p.idx].typ.Link? && mem[p.seg][p.idx].toggle <==>
            Pos(order, p) == 64 * |order| - 1
    ensures NextTrb(next, mem, p) == start <==>
            Next(64 * |order|, Pos(order, p)) == Pos(order, start)
  {
    PosSlot(order, mem, p);
    NextIsNext(order, next, mem, p);
    PosInjective(order, NextTrb(next, mem, p), start);
  }

  lemma Meets(order: seq<nat>, d: nat, p: Ptr, deq: Ptr, k: nat)
    requires d < 64 * |order| && k < 64 * |order|
    requires OnRing(order, deq) && Pos(order, deq) == Ahead(64 * |order|, d, k)
    ensures deq == p <==> Reach(order, d, p) == k
  {
    AheadDist(64 * |order|, d, Pos(order, deq), k);
    if OnRing(order, p) && Pos(order, p) < 64 * |order| {
      AheadDist(64 * |order|, d, Pos(order, p), k);
      PosInjective(order, deq, p);
    }
  }

  lemma JumpCycle(p: Producer, c: Consumer, t: nat)
    requires Lawful(p, c) && t < |p.tape|
    requires Dist(|p.tape|, c.h, t) <= Dist(|p.tape|, c.h, p.e)
    ensures CycleAt(p, t) == (c.ccs != (t < c.h))
  {
  }

  /** With the controller's pointer and the TD both between dequeue and enqueue, the search
      succeeds, and what it finds is a lawful place for the controller to continue, behind
      the TD, with the cycle state it would have had on arriving there. */
  lemma NewDequeueIsJump(order: seq<nat>, p: Producer, c: Consumer, hwDeq: Ptr, last: Ptr,
                         found: bool, deq: Ptr, cycle: bool)
    requires Inv(p, c) && |p.tape| == 64 * |order| && !Drained(|p.tape|, p.d, p.e)
    requires OnRing(order, hwDeq) && Pos(order, hwDeq) == c.h
    requires OnRing(order, last) && Pos(order, last) < |p.tape|
    requires Dist(|p.tape|, p.d, c.h) <= Dist(|p.tape|, p.d, Stop(p))
    requires Dist(|p.tape|, p.d, Pos(order, last)) < Dist(|p.tape|, p.d, Stop(p))
    requires NewDequeue(order, p.d, hwDeq, c.ccs, last, found, deq, cycle)
    ensures found && OnRing(order, deq) && Pos(order, deq) < |p.tape|
    ensures var t := Pos(order, deq);
            && Dist(|p.tape|, c.h, t) <= Dist(|p.tape|, c.h, Stop(p))
            && Dist(|p.tape|, p.d, Pos(order, last)) < Dist(|p.tape|, p.d, t)
            && Dist(|p.tape|, p.d, t) <= Dist(|p.tape|, p.d, p.e)
            && Consumer(t, cycle) == Jump(p, t)
            && !(t % 64 == 63 && p.d == Next(|p.tape|, t))
  {
    var n, d := |p.tape|, p.d;
    var a, b := Dist(n, d, c.h), Dist(n, d, Pos(order, last));
    assert Reach(order, d, hwDeq) == a && Reach(order, d, last) == b;
    AheadDist(n, d, c.h, a);
    LiveOrder(n, d, c.h, Stop(p), p.e);
    LaterPosition(n, d, c.h, b, Stop(p), p.e);
    var t := Pos(order, deq);
    assert t == Ahead(n, d, if b < a then a else b + 1);
    JumpCycle(p, c, t);
  }

  lemma LiveOrder(n: nat, d: nat, h: nat, s: nat, e: nat)
    requires d < n && h < n && s < n && e < n && n % 64 == 0
    requires s == e || (InSpan(n, h, s, e) && s % 64 != 63)
    requires Dist(n, d, h) <= Dist(n, d, s) && !Drained(n, d, e)
    requires WorkCount(n, h, e) <= Occupied(n, d, e)
    ensures Dist(n, h, e) <= Dist(n, d, e)
  {
    CountBound(n, h, e);
  }

  /** The later of two positions ahead of d, both in front of a stop s, is in front of s. */
  lemma LaterPosition(n: nat, d: nat, h: nat, b: nat, s: nat, e: nat)
    requires d < n && h < n && s < n && e < n && n % 64 == 0
    requires s == e || InSpan(n, h, s, e)
    requires Dist(n, d, h) <= Dist(n, d, s) && b < Dist(n, d, s)
    requires Dist(n, h, e) <= Dist(n, d, e) && !Drained(n, d, e)
    ensures var t := Ahead(n, d, if b < Dist(n, d, h) then Dist(n, d, h) else b + 1);
            && t < n
            && b < Dist(n, d, t) <= Dist(n, d, s) <= Dist(n, d, e)
            && Dist(n, h, t) <= Dist(n, h, s) <= Dist(n, h, e)
            && !(t % 64 == 63 && d == Next(n, t))
  {
    var k := if b < Dist(n, d, h) then Dist(n, d, h) else b + 1;
    AheadDist(n, d, Ahead(n, d, k), k);
    AheadDist(n, d, h, Dist(n, d, h));
  }

  // ------------------------------------ completion of the Set TR Dequeue Pointer command

  /** update_ring_for_set_deq_completion: walk dequeue up to the queued pointer, giving up a
      slot for every ordinary TRB passed. */
  method CatchUp(ghost order: seq<nat>, next: seq<nat>, mem: seq<seq<Trb>>,
                 dequeue: Ptr, free: int, queued: Ptr)
    returns (deq: Ptr, newFree: int)
    requires Circle(order, next, mem) && OnRing(order, dequeue) && OnRing(order, queued)
    ensures Pos(order, dequeue) < 64 * |order| && Pos(order, queued) < 64 * |order|
    ensures Next(64 * |order|, Pos(order, dequeue)) < 64 * |order| && (64 * |order|) % 64 == 0
    ensures deq == queued
    ensures var n, d, t := 64 * |order|, Pos(order, dequeue), Pos(order, queued);
            newFree == free + WorkCount(n, if d % 64 == 63 then Next(n, d) else d, t)
  {
    ghost var n, d, t := 64 * |order|, Pos(order, dequeue), Pos(order, queued);
    PosSlot(order, mem, dequeue);
    PosSlot(order, mem, queued);
    Whole(|order|);
    deq, newFree := dequeue, free;
    StepInRing(order, next, mem, deq, deq);
    if mem[deq.seg][deq.idx].typ.Link? {
      NextOfLink(n, d);
      deq := Ptr(next[deq.seg], 0);
    }
    ghost var d1 := Pos(order, deq);
    PosSlot(order, mem, deq);
    while deq != queued
      invariant OnRing(order, deq) && Pos(order, deq) < n
      invariant deq.idx != 63 || deq == queued
      invariant newFree + WorkCount(n, Pos(order, deq), t) == free + WorkCount(n, d1, t)
      invariant Dist(n, d1, Pos(order, deq)) + Dist(n, Pos(order, deq), t) == Dist(n, d1, t)
      decreases Dist(n, Pos(order, deq), t)
    {
      newFree := newFree + 1;
      deq := NextUsable(order, next, mem, deq, queued, d1);
      PosInjective(order, deq, dequeue);
      if deq == dequeue && deq != queued {
        newFree := free;
        break;
      }
    }
  }

  /** One round of the walk: the next slot, or the one behind it if that is a link other than
      the pointer looked for. */
  method NextUsable(ghost order: seq<nat>, next: seq<nat>, mem: seq<seq<Trb>>,
                    start: Ptr, queued: Ptr, ghost d: nat) returns (deq: Ptr)
    requires Circle(order, next, mem) && OnRing(order, start) && OnRing(order, queued)
    requires start != queued && start.idx != 63 && (64 * |order|) % 64 == 0
    requires Pos(order, start) < 64 * |order| && Pos(order, queued) < 64 * |order|
    requires d < 64 * |order|
    requires var n, x, t := 64 * |order|, Pos(order, start), Pos(order, queued);
             Dist(n, d, x) + Dist(n, x, t) == Dist(n, d, t)
    ensures OnRing(order, deq) && Pos(order, deq) < 64 * |order|
    ensures deq.idx != 63 || deq == queued
    ensures var n, x, t, y := 64 * |order|, Pos(order, start), Pos(order, queued), Pos(order, deq);
            && y != d
            && Dist(n, y, t) < Dist(n, x, t)
            && Dist(n, d, y) + Dist(n, y, t) == Dist(n, d, t)
            && WorkCount(n, y, t) == WorkCount(n, x, t) - 1
  {
    ghost var n, x, t := 64 * |order|, Pos(order, start), Pos(order, queued);
    PosSlot(order, mem, start);
    PosInjective(order, start, queued);
    CatchStep(n, d, x, t);
    StepInRing(order, next, mem, start, queued);
    deq := Ptr(start.seg, start.idx + 1);
    PosSlot(order, mem, deq);
    if mem[deq.seg][deq.idx].typ.Link? {
      if deq == queued {
        return;
      }
      PosInjective(order, deq, queued);
      CatchStep(n, d, Next(n, x), t);
      StepInRing(order, next, mem, deq, queued);
      deq := Ptr(next[deq.seg], 0);
      PosSlot(order, mem, deq);
    }
  }

  lemma CatchStep(n: nat, d: nat, x: nat, t: nat)
    requires d < n && x < n && t < n && n % 64 == 0 && x != t
    requires Dist(n, d, x) + Dist(n, x, t) == Dist(n, d, t)
    ensures var y := Next(n, x);
            && y < n && y != d
            && Dist(n, y, t) == Dist(n, x, t) - 1
            && Dist(n, d, y) + Dist(n, y, t) == Dist(n, d, t)
            && WorkCount(n, y, t) == WorkCount(n, x, t) - (if x % 64 == 63 then 0 else 1)
  {
    CountDrop(n, x, t);
  }

  /** update_ring_for_set_deq_completion on the ring object. */
  method UpdateRingForSetDeqCompletion(r: Ring, queued: Ptr)
    requires r.Valid() && OnRing(r.order, queued)
    modifies r`dequeue, r`numTrbsFree
    ensures r.Valid() && r.dequeue == queued
    ensures var p := old(r.Model());
            && p.d < |p.tape| && r.Model().d < |p.tape| && |p.tape| % 64 == 0
            && r.Model() == p.(d := r.Model().d, free := CaughtUp(p, r.Model().d))
  {
    PosSlot(r.order, r.mem, r.dequeue);
    PosSlot(r.order, r.mem, queued);
    Whole(|r.order|);
    ghost var p := r.Model();
    var deq, free := CatchUp(r.order, r.next, r.mem, r.dequeue, r.numTrbsFree, queued);
    r.dequeue, r.numTrbsFree := deq, free;
    assert r.Model().free == CaughtUp(p, r.Model().d);
  }

  /** num_trbs_free after dequeue has walked to t. */
  function CaughtUp(p: Producer, t: nat): int
    requires p.d < |p.tape| && t < |p.tape| && |p.tape| % 64 == 0
  {
    var n := |p.tape|;
    var from := if p.d % 64 == 63 then Next(n, p.d) else p.d;
    if from < n then p.free + WorkCount(n, from, t) else p.free
  }

  /** For a pointer ahead of dequeue and not behind enqueue, the walk restores the free-slot
      accounting: what the completion handler computes is RetireTo. */
  lemma CaughtUpIsRetired(p: Producer, t: nat)
    requires Shape(p) && Accounting(p) && t < |p.tape| && t != p.d
    requires Dist(|p.tape|, p.d, t) <= Dist(|p.tape|, p.d, p.e)
    requires !Drained(|p.tape|, p.d, p.e)
    ensures p.(d := t, free := CaughtUp(p, t)) == RetireTo(p, t)
  {
    var n := |p.tape|;
    CountSplit(n, p.d, t, p.e);
    if p.d % 64 == 63 {
      NextOfLink(n, p.d);
      CountDrop(n, p.d, t);
    }
  }

  // ------------------------------------------------------ getting past a TD as a whole

  /** The controller has stopped between dequeue and the end of what it has been given, and so
      does the TD whose last TRB is `last`. */
  ghost predicate StoppedBefore(f: Fields, last: Ptr) {
    var stopped :=
      && Ok(f) && OnRing(f.order, last) && Pos(f.order, last) < |f.Tape()|
      && Inv(f.Model(), f.Controller()) && Room(f.Model())
      && !Drained(|f.Tape()|, f.Model().d, f.Model().e)
      && Dist(|f.Tape()|, f.Model().d, f.Controller().h) <=
         Dist(|f.Tape()|, f.Model().d, Stop(f.Model()))
      && Dist(|f.Tape()|, f.Model().d, Pos(f.order, last)) <
         Dist(|f.Tape()|, f.Model().d, Stop(f.Model()));
    stopped
  }

  /** Jumping to t and letting dequeue follow. */
  lemma SkipKeeps(p: Producer, c: Consumer, t: nat, q: Producer)
    requires Inv(p, c) && Room(p) && !Drained(|p.tape|, p.d, p.e) && t < |p.tape| && t != p.d
    requires Dist(|p.tape|, c.h, t) <= Dist(|p.tape|, c.h, Stop(p))
    requires Dist(|p.tape|, p.d, t) <= Dist(|p.tape|, p.d, p.e)
    requires !(t % 64 == 63 && p.d == Next(|p.tape|, t))
    requires q == p.(d := t, free := CaughtUp(p, t))
    ensures Inv(q, Jump(p, t)) && Room(q) && Building(q) == Building(p)
    ensures Queue(p, c) == Work(Span(p.tape, c.h, t)) + Queue(q, Jump(p, t))
  {
    JumpKeeps(p, c, t);
    JumpLawful(p, c, t);
    CaughtUpIsRetired(p, t);
    RetireToKeeps(p, Jump(p, t));
  }

  /** What the controller has ahead of it after the TD has been skipped, and what was dropped. */
  ghost predicate Skipped(f: Fields, g: Fields, last: Ptr, dropped: seq<Trb>) {
    var skipped :=
      && Ok(f) && Ok(g) && g.order == f.order && g.dequeue == g.hw
      && OnRing(f.order, last) && Pos(f.order, last) < |f.Tape()|
      && g.Controller().h < |f.Tape()| && f.Model().d < |f.Tape()| && f.Controller().h < |f.Tape()|
      && g.Model() == f.Model().(d := g.Controller().h, free := g.free)
      && Inv(g.Model(), g.Controller()) && Room(g.Model())
      && dropped == Work(Span(f.Tape(), f.Controller().h, g.Controller().h))
      && Stop(f.Model()) < |f.Tape()|
      && Queue(f.Model(), f.Controller()) == dropped + Queue(g.Model(), g.Controller())
      && Dist(|f.Tape()|, f.Model().d, Pos(f.order, last)) <
         Dist(|f.Tape()|, f.Model().d, g.Controller().h);
    skipped
  }

  /** A slot behind the TD at which the controller may continue, with its cycle state. */
  ghost predicate Target(f: Fields, last: Ptr, deq: Ptr, cycle: bool) {
    var target :=
      && StoppedBefore(f, last) && OnRing(f.order, deq)
      && var n, p, c, t := |f.Tape()|, f.Model(), f.Controller(), Pos(f.order, deq);
         && t < n
         && Dist(n, c.h, t) <= Dist(n, c.h, Stop(p))
         && Dist(n, p.d, Pos(f.order, last)) < Dist(n, p.d, t) <= Dist(n, p.d, p.e)
         && Consumer(t, cycle) == Jump(p, t)
         && !(t % 64 == 63 && p.d == Next(n, t));
    target
  }

  lemma FoundTarget(f: Fields, last: Ptr, found: bool, deq: Ptr, cycle: bool)
    requires StoppedBefore(f, last) && f.Model().d < 64 * |f.order|
    requires NewDequeue(f.order, f.Model().d, f.hw, f.ccs, last, found, deq, cycle)
    ensures found && Target(f, last, deq, cycle)
  {
    PosSlot(f.order, f.mem, f.hw);
    NewDequeueIsJump(f.order, f.Model(), f.Controller(), f.hw, last, found, deq, cycle);
  }

  lemma SkippedTo(f: Fields, g: Fields, last: Ptr, deq: Ptr, cycle: bool)
    requires Target(f, last, deq, cycle) && Ok(g) && g.order == f.order
    requires g.dequeue == g.hw == deq && g.ccs == cycle
    requires Pos(f.order, deq) < |f.Tape()| && f.Model().d < |f.Tape()| && |f.Tape()| % 64 == 0
    requires g.Model() == f.Model().(d := Pos(f.order, deq), free := CaughtUp(f.Model(), Pos(f.order, deq)))
    ensures f.Controller().h < |f.Tape()|
    ensures Skipped(f, g, last, Work(Span(f.Tape(), f.Controller().h, Pos(f.order, deq))))
  {
    SkipKeeps(f.Model(), f.Controller(), Pos(f.order, deq), g.Model());
  }

  /** The search of a stopped ring succeeds. */
  method FindTarget(r: Ring, hwDeq: Ptr, hwCycle: bool, last: Ptr) returns (deq: Ptr, cycle: bool)
    requires StoppedBefore(r.Now(), last) && hwDeq == r.hw && hwCycle == r.ccs
    ensures Target(r.Now(), last, deq, cycle)
  {
    var found;
    found, deq, cycle := FindNewDequeueState(r, hwDeq, hwCycle, last);
    FoundTarget(r.Now(), last, found, deq, cycle);
  }

  /** The controller continues at the slot found, and the completion handler catches up. */
  method MoveOn(r: Ring, deq: Ptr, cycle: bool, ghost last: Ptr) returns (ghost dropped: seq<Trb>)
    requires Target(r.Now(), last, deq, cycle)
    modifies r`hw, r`ccs, r`dequeue, r`numTrbsFree
    ensures Skipped(old(r.Now()), r.Now(), last, dropped)
  {
    ghost var f := r.Now();
    r.hw, r.ccs := deq, cycle;
    UpdateRingForSetDeqCompletion(r, deq);
    SkippedTo(f, r.Now(), last, deq, cycle);
    dropped := Work(Span(f.Tape(), f.Controller().h, Pos(f.order, deq)));
  }

  /** From the search to the completion of the command.  `hwDeq` and `hwCycle` are what the
      controller saved when it stopped.  Afterwards dequeue and controller stand on the same
      slot behind the TD, exactly the TRBs jumped over are gone from what the controller has
      been given, and the ring is safe. */
  method SkipTd(r: Ring, hwDeq: Ptr, hwCycle: bool, last: Ptr) returns (ghost dropped: seq<Trb>)
    requires StoppedBefore(r.Now(), last) && hwDeq == r.hw && hwCycle == r.ccs
    modifies r`hw, r`ccs, r`dequeue, r`numTrbsFree
    ensures Skipped(old(r.Now()), r.Now(), last, dropped)
  {
    var deq, cycle := FindTarget(r, hwDeq, hwCycle, last);
    dropped := MoveOn(r, deq, cycle, last);
  }

  // ------------------------------------------------------------ retiring a finished TD

  /** Slot l lies between dequeue and the controller, and the controller short of enqueue. */
  ghost predicate Behind(n: nat, d: nat, l: nat, h: nat, e: nat)
    requires d < n && l < n && h < n && e < n
  {
    && l % 64 != 63
    && Dist(n, d, l) < Dist(n, d, h)
    && Dist(n, d, h) + Dist(n, h, e) == Dist(n, d, e)
  }

  /** Such a dequeue may be moved on, and l stays where it was in relation to it. */
  lemma BehindStep(n: nat, d: nat, l: nat, h: nat, e: nat)
    requires d < n && l < n && h < n && e < n && n % 64 == 0
    requires Behind(n, d, l, h, e) && !Drained(n, d, e)
    ensures d % 64 == 63 || WorkCount(n, h, e) < Occupied(n, d, e)
    ensures NextDequeue(n, d) < n
    ensures d != l ==> Behind(n, NextDequeue(n, d), l, h, e) && !Drained(n, NextDequeue(n, d), e)
  {
    CountSplit(n, d, h, e);
    if d % 64 != 63 {
      CountDrop(n, d, h);
      FollowedByLink(n, d);
    } else {
      NextOfLink(n, d);
    }
    NextDequeueCounts(n, d, e);
  }

  ghost predicate TdBehind(p: Producer, c: Consumer, l: nat) {
    var behind :=
      && Inv(p, c) && Room(p) && l < |p.tape|
      && Behind(|p.tape|, p.d, l, c.h, p.e) && !Drained(|p.tape|, p.d, p.e);
    behind
  }

  lemma TdBehindStep(p: Producer, c: Consumer, l: nat)
    requires TdBehind(p, c, l)
    ensures Inv(Reclaim(p), c) && Room(Reclaim(p))
    ensures Queue(Reclaim(p), c) == Queue(p, c) && Building(Reclaim(p)) == Building(p)
    ensures p.d != l ==> TdBehind(Reclaim(p), c, l)
  {
    BehindStep(|p.tape|, p.d, l, c.h, p.e);
    ReclaimKeeps(p, c);
  }

  /** A ring on its way past slot l, with what the controller has ahead of it. */
  ghost predicate Retiring(f: Fields, last: Ptr, queue: seq<Trb>, building: seq<Trb>) {
    var retiring :=
      && Ok(f) && OnRing(f.order, last)
      && TdBehind(f.Model(), f.Controller(), Pos(f.order, last))
      && Queue(f.Model(), f.Controller()) == queue
      && Building(f.Model()) == building;
    retiring
  }

  lemma RetiringStep(f: Fields, g: Fields, last: Ptr, queue: seq<Trb>, building: seq<Trb>)
    requires Retiring(f, last, queue, building)
    requires Ok(g) && g.order == f.order && g.Controller() == f.Controller()
    requires g.Model() == Reclaim(f.Model())
    ensures Inv(g.Model(), g.Controller()) && Room(g.Model())
    ensures Queue(g.Model(), g.Controller()) == queue && Building(g.Model()) == building
    ensures f.dequeue == last ==> g.Model().d == NextDequeue(|g.Tape()|, Pos(g.order, last))
    ensures f.dequeue != last ==>
              && Retiring(g, last, queue, building)
              && Dist(|g.Tape()|, g.Model().d, Pos(g.order, last)) <
                 Dist(|f.Tape()|, f.Model().d, Pos(f.order, last))
  {
    var l := Pos(f.order, last);
    PosInjective(f.order, f.dequeue, last);
    TdBehindStep(f.Model(), f.Controller(), l);
    if f.dequeue != last {
      CloserToLast(|f.Tape()|, f.Model().d, l);
    }
  }

  /** Slots left to give up in front of `last`. */
  ghost function Left(f: Fields, last: Ptr): nat
    requires Ok(f) && OnRing(f.order, last)
  {
    if Pos(f.order, last) < |f.Tape()| && f.Model().d < |f.Tape()|
    then Dist(|f.Tape()|, f.Model().d, Pos(f.order, last)) else 0
  }

  method RetireSlot(r: Ring, last: Ptr, ghost queue: seq<Trb>, ghost building: seq<Trb>)
    requires Retiring(r.Now(), last, queue, building)
    modifies r`dequeue, r`numTrbsFree
    ensures r.Holds(queue, building) && OnRing(r.order, last)
    ensures old(r.dequeue) == last ==> r.Model().d == NextDequeue(|r.Tape()|, r.At(last))
    ensures old(r.dequeue) != last ==>
              Retiring(r.Now(), last, queue, building) && Left(r.Now(), last) < Left(old(r.Now()), last)
  {
    ghost var f := r.Now();
    r.IncDeq();
    RetiringStep(f, r.Now(), last, queue, building);
  }

  /** The loop of finish_td that takes dequeue past a finished TD, whose last TRB the
      controller has left behind.  What lies ahead of the controller is not touched. */
  method RetireTd(r: Ring, last: Ptr, ghost queue: seq<Trb>, ghost building: seq<Trb>)
    requires Retiring(r.Now(), last, queue, building)
    modifies r`dequeue, r`numTrbsFree
    ensures r.Holds(queue, building) && OnRing(r.order, last)
    ensures r.Model().d == NextDequeue(|r.Tape()|, r.At(last))
  {
    while r.dequeue != last
      invariant Retiring(r.Now(), last, queue, building)
      decreases Left(r.Now(), last)
    {
      RetireSlot(r, last, queue, building);
    }
    RetireSlot(r, last, queue, building);
  }

  lemma CloserToLast(n: nat, d: nat, l: nat)
    requires d < n && l < n && d != l && n % 64 == 0 && l % 64 != 63
    ensures NextDequeue(n, d) < n && Dist(n, NextDequeue(n, d), l) < Dist(n, d, l)
  {
    if d % 64 == 62 {
      FollowedByLink(n, d);
      NextOfLink(n, d + 1);
    }
  }
}
