/** The ring object the driver works on. */
module Rings {
  import opened Trbs
  import opened Laps
  import opened Growth
  import opened Segments
  import opened Splice

  datatype RingType = Ctrl | Isochronous | Bulk | Interrupt | Stream | CommandRing

  datatype EpState = Disabled | Running | Halted | Stopped | Error | Unknown

  datatype Status = Success | NoEntry | Invalid | NoMemory

  /** The endpoint states in which prepare_ring goes ahead. */
  predicate Ready(epState: EpState) {
    epState.Running? || epState.Halted? || epState.Stopped?
  }

  /** Between f and g, a link under enqueue has been handed over and nothing else changed. */
  ghost predicate HandedOver(f: Fields, g: Fields, quirk: bool) {
    var handed :=
      && Ok(f) && Ok(g) && g.order == f.order
      && f.Model().e < |f.Tape()|
      && g.Model() == Onward(f.Model(), true, Some(quirk))
      && g.Controller() == f.Controller();
    handed
  }

  class Ring {
    const kind: RingType
    /** Hardware that wants the chain bit of Link TRBs left alone (0.95 hosts, and
        isochronous rings of AMD 0.96 hosts). */
    const linkQuirk: bool

    var mem: seq<seq<Trb>>
    var next: seq<nat>
    var firstSeg: nat
    var lastSeg: nat
    var numSegs: nat
    var enqueue: Ptr
    var dequeue: Ptr
    var cycleState: bool
    var numTrbsFree: int

    /** The circle of segments, and the first TRB of a TD under construction. */
    ghost var order: seq<nat>
    ghost var withheld: Option<Ptr>
    /** The controller reading this ring. */
    ghost var hw: Ptr
    ghost var ccs: bool

    /** xhci_ring_alloc: a ring of num segments, all owned by the driver; enqueue, dequeue
        and the controller start on the first slot. */
    constructor (kind: RingType, num: nat, cycle: bool, linkQuirk: bool)
      requires 0 < num
      ensures this.kind == kind && this.linkQuirk == linkQuirk
      ensures Holds([], []) && numSegs == num && cycleState == cycle
      ensures enqueue == dequeue == hw == Ptr(0, 0) && withheld == None
      ensures numTrbsFree == 63 * num - 1 && Model().e == 0 == Model().d
    {
      this.kind, this.linkQuirk := kind, linkQuirk;
      mem, next, order := [], [], [];
      firstSeg, lastSeg, numSegs := 0, 0, num;
      enqueue, dequeue, hw, withheld := Ptr(0, 0), Ptr(0, 0), Ptr(0, 0), None;
      cycleState, ccs := cycle, cycle;
      numTrbsFree := 63 * num - 1;
      new;
      firstSeg, lastSeg := InitSegments(num);
      order := Ids(0, num);
      FreshOk(Now(), num, linkQuirk);
    }

    /** The segments of a new ring: allocate them and let the last link toggle. */
    method InitSegments(num: nat) returns (first: nat, last: nat)
      requires mem == [] && next == [] && 0 < num
      modifies this`mem, this`next
      ensures first == 0 && last == num - 1 && |mem| == |next| == num
      ensures forall k :: 0 <= k < num ==> NewAt(next, mem, cycleState, linkQuirk, 0, true, k)
    {
      first, last := AllocSegments(num);
      ghost var mem0 := mem;
      assert NewAt(next, mem, cycleState, linkQuirk, 0, false, last);
      mem := Store(mem, Ptr(last, 63), mem[last][63].(toggle := true));
      forall k | 0 <= k < num
        ensures NewAt(next, mem, cycleState, linkQuirk, 0, true, k)
      {
        assert NewAt(next, mem0, cycleState, linkQuirk, 0, false, k);
      }
    }

    ghost function Now(): Fields
      reads this
    {
      Fields(mem, next, firstSeg, lastSeg, numSegs, enqueue, dequeue, cycleState, numTrbsFree,
             order, withheld, hw, ccs)
    }

    ghost predicate Valid()
      reads this
    {
      var ok := Ok(Now());
      ok
    }

    ghost function Tape(): seq<Trb>
      requires Valid()
      reads this
    {
      Now().Tape()
    }

    ghost function At(p: Ptr): nat
      requires Valid() && OnRing(order, p)
      reads this
    {
      Pos(order, p)
    }

    ghost function Model(): Producer
      requires Valid()
      reads this
    {
      Now().Model()
    }

    ghost function Controller(): Consumer
      requires Valid()
      reads this
    {
      Now().Controller()
    }

    /** The ring invariant; transfer rings also keep Room. */
    ghost predicate Safe()
      requires Valid()
      reads this
    {
      var safe := Inv(Model(), Controller()) && (kind.CommandRing? || Room(Model()));
      safe
    }

    /** A safe ring whose controller has `queue` ahead of it, with `building` held back. */
    ghost predicate Holds(queue: seq<Trb>, building: seq<Trb>)
      reads this
    {
      var holds := Valid() && Safe() &&
                   Queue(Model(), Controller()) == queue && Building(Model()) == building;
      holds
    }

    predicate IsLink(p: Ptr)
      requires p.seg < |mem| && p.idx < |mem[p.seg]|
      reads this
    {
      mem[p.seg][p.idx].typ.Link?
    }

    /** Give the link under enqueue to the hardware and move to the next segment. */
    method PassCurrentLink(chain: bool)
      requires Valid() && enqueue.idx == 63
      modifies this`mem, this`enqueue, this`cycleState
      ensures Valid() && enqueue.idx == 0
      ensures Model() == PassLink(old(Model()), chain)
    {
      PosSlot(order, mem, enqueue);
      NextIsNext(order, next, mem, enqueue);
      var link := mem[enqueue.seg][enqueue.idx];
      StoreCircle(order, next, mem, enqueue, HandOver(link, chain));
      mem := Store(mem, enqueue, HandOver(link, chain));
      if link.toggle {
        cycleState := !cycleState;
      }
      enqueue := Ptr(next[enqueue.seg], 0);
    }

    /** The first half of inc_enq: one less usable TRB, enqueue on the next slot. */
    method TakeSlot()
      requires Valid() && enqueue.idx != 63
      modifies this`enqueue, this`numTrbsFree, this`withheld
      ensures Valid()
      ensures old(Model()).e + 1 < |old(Model()).tape|
      ensures Model() == Write(old(Model()), old(Tape()[At(enqueue)])).(free := old(numTrbsFree) - 1)
    {
      PosSlot(order, mem, enqueue);
      WriteSame(Model());
      if mem[enqueue.seg][enqueue.idx].cycle != cycleState {
        withheld := Some(enqueue);
      }
      numTrbsFree := numTrbsFree - 1;
      enqueue := Ptr(enqueue.seg, enqueue.idx + 1);
    }

    /** If enqueue stands on a link and the caller wants it handed over, do so and go on to
        the next segment; `chain` is the link's new chain bit, if it is to change. */
    method PassLinks(hand: bool, chain: Option<bool>)
      requires Valid()
      modifies this`mem, this`enqueue, this`cycleState
      ensures Valid()
      ensures old(Model()).e < |old(Model()).tape|
      ensures hand ==> enqueue.idx != 63
      ensures Model() == Onward(old(Model()), hand, chain)
    {
      ghost var q := Model();
      PosSlot(order, mem, enqueue);
      while IsLink(enqueue)
        invariant Valid()
        invariant enqueue.seg < |mem| && |mem[enqueue.seg]| == 64
        invariant IsLink(enqueue) <==> enqueue.idx == 63
        invariant IsLink(enqueue) ==> Model() == q
        invariant !IsLink(enqueue) ==> Model() == Onward(q, hand, chain)
        decreases if IsLink(enqueue) then 1 else 0
      {
        PosSlot(order, mem, enqueue);
        if !hand {
          return;
        }
        PassCurrentLink(if chain.Some? then chain.value else mem[enqueue.seg][63].chain);
        PosSlot(order, mem, enqueue);
      }
    }

    /** inc_enq: one less usable TRB; hand over a link that follows, unless this was the
        last TRB of a TD and nothing more is coming. */
    method IncEnq(more: bool)
      requires Valid() && enqueue.idx != 63
      modifies this`mem, this`enqueue, this`cycleState, this`numTrbsFree, this`withheld
      ensures Valid()
      ensures old(At(enqueue)) + 1 < |old(Tape())|
      ensures Model() == Put(old(Model()), old(Tape()[At(enqueue)]), more, linkQuirk)
      ensures Queued(old(Tape()), old(At(enqueue)), old(Tape()[At(enqueue)]), more, linkQuirk, Tape())
    {
      PosSlot(order, mem, enqueue);
      ghost var p := Model();
      ghost var trb := p.tape[p.e];
      var chain := mem[enqueue.seg][enqueue.idx].chain;
      TakeSlot();
      ghost var q := Model();
      PutCases(p, trb, more, linkQuirk);
      PutWrites(p, trb, more, linkQuirk);
      assert q == Write(p, trb).(free := p.free - 1);
      PassLinks(chain || more, if linkQuirk then None else Some(chain));
    }

    /** queue_trb: the caller has made sure there is room. */
    method QueueTrb(trb: Trb, more: bool)
      requires Valid() && enqueue.idx != 63 && !trb.typ.Link?
      modifies this`mem, this`enqueue, this`cycleState, this`numTrbsFree, this`withheld
      ensures Valid()
      ensures old(At(enqueue)) + 1 < |old(Tape())|
      ensures Model() == Put(old(Model()), trb, more, linkQuirk)
      ensures Queued(old(Tape()), old(At(enqueue)), trb, more, linkQuirk, Tape())
    {
      ghost var p := Model();
      PosSlot(order, mem, enqueue);
      StoreCircle(order, next, mem, enqueue, trb);
      mem := Store(mem, enqueue, trb);
      assert Model() == p.(tape := p.tape[p.e := trb]);
      IncEnq(more);
      PutStored(p, trb, more, linkQuirk);
      PutWrites(p, trb, more, linkQuirk);
    }

    /** Where dequeue goes next: past a link that follows. */
    method StepDequeue(start: Ptr) returns (deq: Ptr)
      requires Valid() && OnRing(order, start)
      ensures OnRing(order, deq)
      ensures At(deq) == NextDequeue(|Tape()|, At(start))
    {
      NextIsNext(order, next, mem, start);
      PosSlot(order, mem, start);
      deq := NextTrb(next, mem, start);
      NextIsNext(order, next, mem, deq);
      PosSlot(order, mem, deq);
      while IsLink(deq)
        invariant OnRing(order, deq) && deq.seg < |mem| && |mem[deq.seg]| == 64
        invariant IsLink(deq) <==> deq.idx == 63
        invariant deq.idx == 63 ==> At(start) % 64 == 62 && At(deq) == At(start) + 1
        invariant deq.idx != 63 ==> At(deq) == NextDequeue(64 * |order|, At(start))
        decreases if IsLink(deq) then 1 else 0
      {
        NextIsNext(order, next, mem, deq);
        deq := NextTrb(next, mem, deq);
        NextIsNext(order, next, mem, deq);
      }
    }

    /** inc_deq: one more usable TRB unless dequeue stood on a link; step over links. */
    method IncDeq()
      requires Valid()
      modifies this`dequeue, this`numTrbsFree
      ensures Valid()
      ensures Model() == Reclaim(old(Model()))
    {
      NextIsNext(order, next, mem, dequeue);
      PosSlot(order, mem, dequeue);
      if !IsLink(dequeue) {
        numTrbsFree := numTrbsFree + 1;
      }
      dequeue := StepDequeue(dequeue);
    }

    /** giveback_first_trb: write the first cycle bit of the TD. */
    method GivebackFirstTrb(start: Ptr, startCycle: bool)
      requires Valid() && OnRing(order, start)
      modifies this`mem, this`withheld
      ensures Valid()
      ensures Model() == Release(old(Model()), old(At(start)), startCycle)
    {
      PosSlot(order, mem, start);
      var trb := mem[start.seg][start.idx].(cycle := startCycle);
      StoreCircle(order, next, mem, start, trb);
      mem := Store(mem, start, trb);
      withheld := None;
    }

    /** One step of the controller, following the pointers in the Link TRBs. */
    ghost method Fetch()
      requires Valid()
      modifies this`hw, this`ccs
      ensures Valid()
      ensures Controller() == Advance(Tape(), old(Controller()))
    {
      PosSlot(order, mem, hw);
      NextIsNext(order, next, mem, hw);
      var trb := mem[hw.seg][hw.idx];
      ccs := ccs != (trb.typ.Link? && trb.toggle);
      hw := FollowTrb(mem, hw);
    }

    /** xhci_link_segments: make prev point to target, in `next` and in its Link TRB. */
    method LinkSegments(prev: nat, target: nat)
      requires prev < |mem| == |next| && |mem[prev]| == 64
      modifies this`mem, this`next
      ensures next == old(next)[prev := target]
      ensures mem == Store(old(mem), Ptr(prev, 63), AsLink(old(mem)[prev][63], target, linkQuirk))
    {
      next := next[prev := target];
      mem := Store(mem, Ptr(prev, 63), AsLink(mem[prev][63], target, linkQuirk));
    }

    /** xhci_segment_alloc: a zeroed segment whose slots the consumer does not own. */
    static method SegmentAlloc(cycle: bool) returns (trbs: seq<Trb>)
      ensures |trbs| == 64
      ensures forall i :: 0 <= i < 64 ==>
                trbs[i] == BlankSlot(cycle) == Trb(0, 0, Unused, false, false, false, !cycle)
    {
      trbs := seq(64, i => Trb(0, 0, Unused, false, false, false, false));
      if !cycle {
        var i := 0;
        while i < 64
          invariant 0 <= i <= 64 == |trbs|
          invariant forall k :: 0 <= k < 64 ==>
                      trbs[k] == Trb(0, 0, Unused, false, false, false, k < i)
        {
          trbs := trbs[i := trbs[i].(cycle := true)];
          i := i + 1;
        }
      }
    }

    /** xhci_alloc_segments_for_ring: num new segments, linked one to the next and the
        last back to the first. */
    method AllocSegments(num: nat) returns (first: nat, last: nat)
      requires |mem| == |next| && 0 < num
      modifies this`mem, this`next
      ensures first == |old(mem)| && last == first + num - 1
      ensures |mem| == |next| == first + num
      ensures mem[..first] == old(mem) && next[..first] == old(next)
      ensures forall k :: first <= k <= last ==>
                NewAt(next, mem, cycleState, linkQuirk, first, false, k)
    {
      first := |mem|;
      var seg := SegmentAlloc(cycleState);
      mem, next := mem + [seg], next + [0];
      last := first;
      while last < first + num - 1
        invariant first <= last < first + num
        invariant |mem| == |next| == last + 1
        invariant mem[..first] == old(mem) && next[..first] == old(next)
        invariant |mem[last]| == 64
        invariant forall i :: 0 <= i < 64 ==> mem[last][i] == BlankSlot(cycleState)
        invariant forall k :: first <= k < last ==>
                    next[k] == k + 1 && mem[k] == BlankSegment(cycleState, k + 1, linkQuirk)
      {
        seg := SegmentAlloc(cycleState);
        mem, next := mem + [seg], next + [0];
        LinkSegments(last, last + 1);
        last := last + 1;
      }
      ghost var mem1 := mem;
      LinkSegments(last, first);
      forall k | first <= k <= last
        ensures NewAt(next, mem, cycleState, linkQuirk, first, false, k)
      {
        assert k < last ==> mem[k] == mem1[k];
        assert mem[k] == NewSegment(cycleState, next[k], linkQuirk, false);
      }
    }

    /** xhci_link_rings: splice the new segments in behind enqueue's segment, and move the
        toggle to the new last segment if enqueue's was the last. */
    method LinkRings(first: nat, last: nat, num: nat)
      requires |mem| == |next| && enqueue.seg < |mem| && |mem[enqueue.seg]| == 64
      requires enqueue.seg != last < |mem| && |mem[last]| == 64
      modifies this`mem, this`next, this`numSegs, this`numTrbsFree, this`lastSeg
      ensures next == old(next)[enqueue.seg := first][last := old(next)[enqueue.seg]]
      ensures mem == Relink(old(mem), enqueue.seg, first, last, old(next)[enqueue.seg],
                            linkQuirk, enqueue.seg == old(lastSeg))
      ensures numSegs == old(numSegs) + num && numTrbsFree == old(numTrbsFree) + 63 * num
      ensures lastSeg == if enqueue.seg == old(lastSeg) then last else old(lastSeg)
    {
      var after := next[enqueue.seg];
      LinkSegments(enqueue.seg, first);
      LinkSegments(last, after);
      numSegs := numSegs + num;
      numTrbsFree := numTrbsFree + 63 * num;
      if enqueue.seg == lastSeg {
        mem := Store(mem, Ptr(lastSeg, 63), mem[lastSeg][63].(toggle := false));
        mem := Store(mem, Ptr(last, 63), mem[last][63].(toggle := true));
        lastSeg := last;
      }
    }

    /** The number of segments an expansion adds: what is needed, but at least as many as
        there are. */
    static function NewSegments(segs: nat, numTrbs: nat): nat {
      var needed := (numTrbs + 62) / 63;
      if segs > needed then segs else needed
    }

    /** ehub_xhci_ring_expansion.  `budget` is the number of segments that can still be
        allocated; when it is too small the ring stays as it is. */
    method RingExpansion(numTrbs: nat, budget: nat) returns (ok: bool, ghost blank: seq<Trb>)
      requires Valid() && (withheld.Some? ==> withheld.value.idx != 63)
      modifies this`mem, this`next, this`numSegs, this`numTrbsFree, this`lastSeg, this`order
      ensures Valid()
      ensures ok <==> NewSegments(old(numSegs), numTrbs) <= budget
      ensures !ok ==> Now() == old(Now())
      ensures ok ==>
                && |blank| == 64 * NewSegments(old(numSegs), numTrbs)
                && numSegs == old(numSegs) + NewSegments(old(numSegs), numTrbs)
                && Grew(old(Model()), old(Controller()), old(|mem|), linkQuirk, blank,
                        Model(), Controller())
    {
      var num := NewSegments(numSegs, numTrbs);
      ok := num <= budget;
      blank := [];
      if ok {
        ghost var f := Now();
        blank := Expand(num);
        SplicedGrew(f, Now(), num, linkQuirk, blank);
      }
    }

    method Expand(num: nat) returns (ghost blank: seq<Trb>)
      requires Valid() && 0 < num && (withheld.Some? ==> withheld.value.idx != 63)
      modifies this`mem, this`next, this`numSegs, this`numTrbsFree, this`lastSeg, this`order
      ensures Valid() && |blank| == 64 * num
      ensures order == Insert(old(order), Rank(old(order), enqueue.seg), Ids(|old(mem)|, num))
      ensures numSegs == old(numSegs) + num && numTrbsFree == old(numTrbsFree) + 63 * num
      ensures Spliceable(old(Model()), blank)
      ensures Tape() == Grow(old(Model()), old(|mem|), linkQuirk, blank).tape
    {
      ghost var f := Now();
      PosSlot(order, mem, enqueue);
      Whole(|order|);
      SpliceIn(num);
      order := Insert(order, Rank(order, enqueue.seg), Ids(|f.mem|, num));
      SplicedOk(f, Now(), num, linkQuirk);
      blank := Flat(Ids(|f.mem|, num), mem);
    }

    /** Allocate num segments and splice them in behind enqueue's segment. */
    method SpliceIn(num: nat)
      requires Valid() && 0 < num
      modifies this`mem, this`next, this`numSegs, this`numTrbsFree, this`lastSeg
      ensures Spliced(order, old(next), old(mem), Rank(order, enqueue.seg), num,
                      cycleState, linkQuirk, next, mem)
      ensures numSegs == old(numSegs) + num && numTrbsFree == old(numTrbsFree) + 63 * num
      ensures lastSeg == if IsLast(order, Rank(order, enqueue.seg)) then old(|mem|) + num - 1
                         else old(lastSeg)
    {
      ghost var next0, mem0 := next, mem;
      ghost var r := Rank(order, enqueue.seg);
      RankIs(order, mem, numSegs - 1);
      var first, last := AllocSegments(num);
      RelinkIsSpliced(order, next0, mem0, r, num, cycleState, linkQuirk, next, mem);
      assert next[enqueue.seg] == next0[enqueue.seg];
      LinkRings(first, last, num);
    }

    /** num_trbs_needed: how many more free slots num_trbs TRBs would take.  On a transfer
        ring enqueue must also stay out of the part of dequeue's segment behind dequeue. */
    static function Needed(transfer: bool, free: int, deqIdx: nat, numTrbs: nat): nat {
      if free < numTrbs then numTrbs - free
      else if transfer && free < numTrbs + deqIdx then numTrbs + deqIdx - free
      else 0
    }

    function NumTrbsNeeded(numTrbs: nat): nat
      reads this
    {
      Needed(!kind.CommandRing?, numTrbsFree, dequeue.idx, numTrbs)
    }

    /** Nothing is missing exactly when the TRBs fit, on a transfer ring together with the part
        of dequeue's segment behind dequeue; what is missing is the TRBs' own shortage if there
        is one, and that part's otherwise. */
    static lemma NeededIs(transfer: bool, free: int, deqIdx: nat, numTrbs: nat)
      ensures Needed(transfer, free, deqIdx, numTrbs) == 0 <==>
              numTrbs + (if transfer then deqIdx else 0) <= free
      ensures free < numTrbs ==> free + Needed(transfer, free, deqIdx, numTrbs) == numTrbs
      ensures transfer && numTrbs <= free < numTrbs + deqIdx ==>
                free + Needed(transfer, free, deqIdx, numTrbs) == numTrbs + deqIdx
    {
    }

    /** An expansion by at least the slots needed leaves at most dequeue's index missing, a
        second one leaves nothing missing. */
    static lemma NeededShrinks(free: int, deqIdx: nat, numTrbs: nat, added: nat)
      requires 0 < Needed(true, free, deqIdx, numTrbs) <= 63 * added
      ensures Needed(true, free + 63 * added, deqIdx, numTrbs) <= deqIdx
      ensures numTrbs <= free ==> Needed(true, free + 63 * added, deqIdx, numTrbs) == 0
    {
    }

    /** The segments a transfer ring asks for before numTrbs TRBs fit: the first expansion goes
        by what is missing then, and a second follows if that leaves dequeue's part short. */
    static function Asked(segs: nat, free: int, deqIdx: nat, numTrbs: nat): nat {
      var missing := Needed(true, free, deqIdx, numTrbs);
      var first := NewSegments(segs, missing);
      var still := Needed(true, free + 63 * first, deqIdx, numTrbs);
      if missing == 0 then 0
      else if still == 0 then first
      else first + NewSegments(segs + first, still)
    }

    /** One expansion takes its share off what has to be asked for. */
    static lemma AskedShrinks(segs: nat, free: int, deqIdx: nat, numTrbs: nat, added: nat)
      requires 0 < segs && 0 < Needed(true, free, deqIdx, numTrbs)
      requires added == NewSegments(segs, Needed(true, free, deqIdx, numTrbs))
      ensures Asked(segs, free, deqIdx, numTrbs) ==
              added + Asked(segs + added, free + 63 * added, deqIdx, numTrbs)
    {
      EnoughSegments(segs, Needed(true, free, deqIdx, numTrbs));
      NeededShrinks(free, deqIdx, numTrbs, added);
      var still := Needed(true, free + 63 * added, deqIdx, numTrbs);
      EnoughSegments(segs + added, still);
      if 0 < still {
        NeededShrinks(free + 63 * added, deqIdx, numTrbs, NewSegments(segs + added, still));
      }
    }

    /** The memory there is suffices; the command ring is never expanded. */
    predicate Affords(numTrbs: nat, budget: nat)
      reads this
    {
      if kind.CommandRing? then NumTrbsNeeded(numTrbs) == 0
      else Asked(numSegs, numTrbsFree, dequeue.idx, numTrbs) <= budget
    }

    /** An expansion now would meet neither a drained ring nor a lingering controller. */
    ghost predicate SafeToGrow()
      reads this
    {
      var ok := Valid() && !Lingers(Model(), Controller()) &&
                !Drained(|Tape()|, Model().d, Model().e);
      ok
    }

    /** One round of prepare_ring's loop keeps the ring safe and the controller's view. */
    method GrowOnce(needed: nat, budget: nat, ghost queue: seq<Trb>, ghost building: seq<Trb>)
      returns (ok: bool, added: nat)
      requires Holds(queue, building) && SafeToGrow() && !kind.CommandRing? && 0 < needed
      modifies this`mem, this`next, this`numSegs, this`numTrbsFree, this`lastSeg, this`order
      ensures Holds(queue, building) && SafeToGrow()
      ensures added == NewSegments(old(numSegs), needed)
      ensures ok <==> added <= budget
      ensures 0 < added && needed <= 63 * added
      ensures !ok ==> Now() == old(Now())
      ensures 0 < old(numSegs)
      ensures ok ==> numTrbsFree == old(numTrbsFree) + 63 * added && numSegs == old(numSegs) + added
    {
      ghost var p, c, ptr := Model(), Controller(), |mem|;
      if withheld.Some? {
        PosSlot(order, mem, withheld.value);
      }
      added := NewSegments(numSegs, needed);
      EnoughSegments(numSegs, needed);
      Whole(added);
      ghost var blank;
      ok, blank := RingExpansion(needed, budget);
      if ok {
        GrowKeeps(p, c, ptr, linkQuirk, blank);
        SecondGrowthIsSafe(p, c, ptr, linkQuirk, blank);
      }
    }

    /** The last part of prepare_ring: if enqueue rests on a link, hand it over. */
    method LeaveLink(ghost queue: seq<Trb>, ghost building: seq<Trb>)
      requires Holds(queue, building)
      modifies this`mem, this`enqueue, this`cycleState
      ensures Holds(queue, building) && enqueue.idx != 63
      ensures numTrbsFree == old(numTrbsFree) && dequeue == old(dequeue)
      ensures HandedOver(old(Now()), Now(), linkQuirk)
    {
      OnwardKeeps(Model(), Controller(), true, Some(linkQuirk));
      PassLinks(true, Some(linkQuirk));
    }

    /** Where prepare_ring's loop stands after some rounds: what is still to be asked for is
        what there was to ask for, less what has been spent. */
    static ghost predicate Spent(segs: nat, free: int, deqIdx: nat, numTrbs: nat, rounds: nat,
                                 left: nat, budget: nat, asked: nat) {
      var spent :=
        && rounds <= 2
        && Asked(segs, free, deqIdx, numTrbs) + budget == asked + left
        && (1 <= rounds ==> numTrbs <= free)
        && (2 == rounds ==> Needed(true, free, deqIdx, numTrbs) == 0);
      spent
    }

    static lemma SpentMore(segs: nat, free: int, deqIdx: nat, numTrbs: nat, rounds: nat,
                           left: nat, budget: nat, asked: nat, added: nat,
                           segs': nat, free': int, left': int)
      requires Spent(segs, free, deqIdx, numTrbs, rounds, left, budget, asked)
      requires 0 < segs && 0 < Needed(true, free, deqIdx, numTrbs)
      requires added == NewSegments(segs, Needed(true, free, deqIdx, numTrbs))
      requires segs' == segs + added && free' == free + 63 * added && left' == left - added
      ensures left' < 0 ==> budget < asked
      ensures 0 <= left' ==>
                rounds < 2 && Spent(segs', free', deqIdx, numTrbs, rounds + 1, left', budget, asked)
    {
      AskedShrinks(segs, free, deqIdx, numTrbs, added);
      EnoughSegments(segs, Needed(true, free, deqIdx, numTrbs));
      NeededShrinks(free, deqIdx, numTrbs, added);
    }

    /** One round, with what it costs. */
    method GrowRound(numTrbs: nat, left: nat, ghost queue: seq<Trb>, ghost building: seq<Trb>,
                     ghost rounds: nat, ghost budget: nat, ghost asked: nat)
      returns (ok: bool, left': int)
      requires Holds(queue, building) && SafeToGrow() && !kind.CommandRing?
      requires 0 < NumTrbsNeeded(numTrbs)
      requires Spent(numSegs, numTrbsFree, dequeue.idx, numTrbs, rounds, left, budget, asked)
      modifies this`mem, this`next, this`numSegs, this`numTrbsFree, this`lastSeg, this`order
      ensures Holds(queue, building) && SafeToGrow()
      ensures !ok ==> Now() == old(Now()) && budget < asked
      ensures ok ==> 0 <= left' && rounds < 2
      ensures ok ==> Spent(numSegs, numTrbsFree, dequeue.idx, numTrbs, rounds + 1, left', budget,
                           asked)
    {
      ghost var segs, free := numSegs, numTrbsFree;
      var needed := NumTrbsNeeded(numTrbs);
      var added;
      ok, added := GrowOnce(needed, left, queue, building);
      left' := left - added;
      SpentMore(segs, free, dequeue.idx, numTrbs, rounds, left, budget, asked, added,
                if ok then numSegs else segs + added,
                if ok then numTrbsFree else free + 63 * added, left');
    }

    /** prepare_ring's loop: at most two expansions make room for numTrbs TRBs, and they succeed
        exactly when the segments to be asked for can be had. */
    method MakeRoom(numTrbs: nat, budget: nat, ghost queue: seq<Trb>, ghost building: seq<Trb>)
      returns (ok: bool, ghost rounds: nat)
      requires Holds(queue, building)
      requires NumTrbsNeeded(numTrbs) == 0 || kind.CommandRing? || SafeToGrow()
      modifies this`mem, this`next, this`numSegs, this`numTrbsFree, this`lastSeg, this`order
      ensures Holds(queue, building)
      ensures ok <==> old(Affords(numTrbs, budget))
      ensures ok ==> NumTrbsNeeded(numTrbs) == 0
      ensures rounds <= 2 && (rounds == 0 ==> Now() == old(Now()))
      ensures 1 <= rounds ==> 0 < old(NumTrbsNeeded(numTrbs)) && !kind.CommandRing?
    {
      var left: int := budget;
      ghost var asked := Asked(numSegs, numTrbsFree, dequeue.idx, numTrbs);
      rounds := 0;
      while true
        invariant Holds(queue, building)
        invariant NumTrbsNeeded(numTrbs) == 0 || kind.CommandRing? || SafeToGrow()
        invariant rounds == 0 ==> Now() == old(Now())
        invariant 1 <= rounds ==> 0 < old(NumTrbsNeeded(numTrbs)) && !kind.CommandRing?
        invariant 0 <= left
        invariant Spent(numSegs, numTrbsFree, dequeue.idx, numTrbs, rounds, left, budget, asked)
        decreases 2 - rounds
      {
        var needed := NumTrbsNeeded(numTrbs);
        if needed < 1 {
          return true, rounds;
        }
        if kind.CommandRing? {
          return false, rounds;
        }
        var grown;
        grown, left := GrowRound(numTrbs, left, queue, building, rounds, budget, asked);
        if !grown {
          return false, rounds;
        }
        rounds := rounds + 1;
      }
    }

    /** prepare_ring: check the endpoint state, make room for numTrbs TRBs and leave enqueue
        on an ordinary slot.  Nothing the controller has been given changes. */
    method PrepareRing(epState: EpState, numTrbs: nat, budget: nat,
                       ghost queue: seq<Trb>, ghost building: seq<Trb>) returns (status: Status)
      requires Holds(queue, building)
      requires NumTrbsNeeded(numTrbs) == 0 || kind.CommandRing? || SafeToGrow()
      modifies this`mem, this`next, this`numSegs, this`numTrbsFree, this`lastSeg, this`order,
               this`enqueue, this`cycleState
      ensures Holds(queue, building)
      ensures status == NoEntry <==> epState.Disabled?
      ensures status == Invalid <==> epState.Error? || epState.Unknown?
      ensures status == Success <==> Ready(epState) && old(Affords(numTrbs, budget))
      ensures status == NoMemory <==>
              !epState.Disabled? && !epState.Error? && !epState.Unknown? && !old(Affords(numTrbs, budget))
      ensures kind.CommandRing? && status == NoMemory ==> Now() == old(Now())
      ensures status == Success && old(NumTrbsNeeded(numTrbs)) == 0 ==>
                HandedOver(old(Now()), Now(), linkQuirk)
      ensures status == Success ==> NumTrbsNeeded(numTrbs) == 0 && enqueue.idx != 63
    {
      if epState.Disabled? {
        return NoEntry;
      }
      if epState.Error? || epState.Unknown? {
        return Invalid;
      }
      var ok, _ := MakeRoom(numTrbs, budget, queue, building);
      if !ok {
        return NoMemory;
      }
      LeaveLink(queue, building);
      status := Success;
    }

    /** prepare_ring on the command ring, which is never expanded. */
    method PrepareCommandRing(numTrbs: nat) returns (ok: bool)
      requires Valid() && kind.CommandRing?
      modifies this`mem, this`enqueue, this`cycleState
      ensures ok <==> numTrbs <= old(numTrbsFree)
      ensures !ok ==> Now() == old(Now())
      ensures ok ==> HandedOver(old(Now()), Now(), linkQuirk) && enqueue.idx != 63
    {
      if NumTrbsNeeded(numTrbs) >= 1 {
        return false;
      }
      PassLinks(true, Some(linkQuirk));
      ok := true;
    }

    /** An expansion adds as many segments as there are, or as many as the slots asked for take
        if that is more, and no more. */
    static lemma EnoughSegments(segs: nat, numTrbs: nat)
      requires 0 < segs
      ensures numTrbs <= 63 * NewSegments(segs, numTrbs)
      ensures 63 <= 63 * NewSegments(segs, numTrbs)
      ensures segs <= NewSegments(segs, numTrbs)
      ensures segs < NewSegments(segs, numTrbs) ==> 63 * (NewSegments(segs, numTrbs) - 1) < numTrbs
    {
    }
  }
}
