/** The command queue: a list of commands beside the command ring their TRBs are on. */
module Commands {
  import opened Trbs
  import opened Laps
  import opened Segments
  import opened Rings

  /** `Aborted` is set on the command that timed out, `Nooped` once its TRB has been turned
      into a no-op. */
  datatype CmdStatus = Waiting | Aborted | Nooped

  datatype Cmd = Cmd(slot: Ptr, trb: Trb, status: CmdStatus)

  datatype Code = Finished | RingStopped | CommandAborted

  // ----------------------------------------------------------- the slots of the ring

  /** The i-th slot from d on, links not counted. */
  function Nth(n: nat, d: nat, i: nat): nat
    decreases i
  {
    if i == 0 then d else Nth(n, NextDequeue(n, d), i - 1)
  }

  /** The slots counted as occupied come in front of enqueue, none of them is a link, and
      enqueue itself is the next one. */
  lemma {:induction false} NthOccupied(n: nat, d: nat, e: nat, i: nat)
    requires d < n && e < n && n % 64 == 0 && d % 64 != 63
    requires i <= Occupied(n, d, e)
    ensures i < Occupied(n, d, e) ==> Nth(n, d, i) < n && Nth(n, d, i) % 64 != 63 && Nth(n, d, i) != e
    ensures i == Occupied(n, d, e) && e % 64 != 63 ==> Nth(n, d, i) == e
    decreases i
  {
    if i == 0 {
      if e % 64 != 63 {
        SelfEmpty(n, d, e);
      }
    } else {
      NextDequeueCounts(n, d, e);
      NextIsOrdinary(n, d);
      NthOccupied(n, NextDequeue(n, d), e, i - 1);
    }
  }

  lemma SelfEmpty(n: nat, d: nat, e: nat)
    requires d < n && e < n && n % 64 == 0 && d % 64 != 63 && e % 64 != 63
    ensures Occupied(n, d, e) == 0 <==> d == e
  {
  }

  lemma NextIsOrdinary(n: nat, d: nat)
    requires d < n && n % 64 == 0 && d % 64 != 63
    ensures NextDequeue(n, d) < n && NextDequeue(n, d) % 64 != 63
  {
    FollowedByLink(n, d);
    if d % 64 == 62 {
      NextOfLink(n, d + 1);
    }
  }

  // --------------------------------------------------------------------- the invariant

  /** A command no-op that keeps the cycle bit of the TRB it replaces. */
  function Noop(t: Trb): Trb {
    Trb(0, 0, CommandNoop, false, false, false, t.cycle)
  }

  /** What a command's slot holds.  A command may be aborted again after it was turned into a
      no-op. */
  predicate Shows(t: Trb, c: Cmd) {
    match c.status
    case Waiting => t == c.trb.(cycle := t.cycle)
    case Aborted => t == c.trb.(cycle := t.cycle) || t == Noop(t)
    case Nooped => t == Noop(t)
  }

  /** The list once the command ring has stopped. */
  function AfterStop(cmds: seq<Cmd>): seq<Cmd> {
    seq(|cmds|, i requires 0 <= i < |cmds| =>
      if cmds[i].status.Aborted? then cmds[i].(status := Nooped) else cmds[i])
  }

  /** The list with the first k commands dealt with. */
  function StoppedUpTo(cmds: seq<Cmd>, k: nat): seq<Cmd>
    requires k <= |cmds|
  {
    AfterStop(cmds[..k]) + cmds[k..]
  }

  lemma StoppedMore(cmds: seq<Cmd>, k: nat)
    requires k < |cmds|
    ensures StoppedUpTo(cmds, k)[k] == cmds[k]
    ensures StoppedUpTo(cmds, k)[k := AfterStop(cmds)[k]] == StoppedUpTo(cmds, k + 1)
  {
  }

  lemma StoppedEnds(cmds: seq<Cmd>)
    ensures StoppedUpTo(cmds, 0) == cmds && StoppedUpTo(cmds, |cmds|) == AfterStop(cmds)
  {
    assert cmds[..|cmds|] == cmds;
  }

  /** Exactly the aborted commands have become no-ops, on the list and on the ring. */
  ghost predicate NowNoops(cmds0: seq<Cmd>, mem0: seq<seq<Trb>>, cmds: seq<Cmd>, mem: seq<seq<Trb>>) {
    var noops :=
      && |cmds| == |cmds0|
      && (forall i :: 0 <= i < |cmds0| ==>
            cmds[i] == if cmds0[i].status == Aborted then cmds0[i].(status := Nooped) else cmds0[i])
      && NoopsIn(cmds0, |cmds0|, mem0, mem);
    noops
  }

  lemma AfterStopIs(cmds0: seq<Cmd>, mem0: seq<seq<Trb>>, mem: seq<seq<Trb>>)
    requires NoopsIn(cmds0, |cmds0|, mem0, mem)
    ensures NowNoops(cmds0, mem0, AfterStop(cmds0), mem)
  {
  }

  lemma NoneAborted(mem: seq<seq<Trb>>)
    ensures NowNoops([], mem, [], mem)
  {
  }

  /** The loop of xhci_handle_stopped_cmd_ring in front of command i. */
  ghost predicate Stopping(f: Fields, cmds: seq<Cmd>, i: nat, cmds0: seq<Cmd>, mem0: seq<seq<Trb>>) {
    var stopping :=
      && i <= |cmds0| && cmds == StoppedUpTo(cmds0, i)
      && Listed(f, cmds) && NoopsIn(cmds0, i, mem0, f.mem);
    stopping
  }

  /** One of the first k commands was aborted and lies on slot p. */
  ghost predicate AbortedOn(cmds: seq<Cmd>, k: nat, p: Ptr)
    requires k <= |cmds|
  {
    exists i :: 0 <= i < k && cmds[i].status.Aborted? && cmds[i].slot == p
  }

  /** Every slot of an aborted command, of the first k, holds a no-op command with nothing but
      its old cycle bit; no other slot has changed. */
  ghost predicate NoopsIn(cmds: seq<Cmd>, k: nat, mem0: seq<seq<Trb>>, mem: seq<seq<Trb>>)
    requires k <= |cmds|
  {
    var noops :=
      && |mem| == |mem0|
      && (forall s :: 0 <= s < |mem0| ==> |mem[s]| == |mem0[s]|)
      && (forall s, j :: 0 <= s < |mem0| && 0 <= j < |mem0[s]| ==>
            mem[s][j] == if AbortedOn(cmds, k, Ptr(s, j))
                         then Trb(0, 0, CommandNoop, false, false, false, mem0[s][j].cycle)
                         else mem0[s][j]);
    noops
  }

  lemma NoopsMore(cmds: seq<Cmd>, k: nat, mem0: seq<seq<Trb>>, mem: seq<seq<Trb>>, mem': seq<seq<Trb>>)
    requires k < |cmds| && NoopsIn(cmds, k, mem0, mem)
    requires !cmds[k].status.Aborted? ==> mem' == mem
    requires cmds[k].status.Aborted? ==>
               var p := cmds[k].slot;
               && p.seg < |mem| && p.idx < |mem[p.seg]|
               && mem' == Store(mem, p, Trb(0, 0, CommandNoop, false, false, false,
                                            mem[p.seg][p.idx].cycle))
    ensures NoopsIn(cmds, k + 1, mem0, mem')
  {
    forall s, j | 0 <= s < |mem0| && 0 <= j < |mem0[s]|
      ensures AbortedOn(cmds, k + 1, Ptr(s, j)) <==>
              AbortedOn(cmds, k, Ptr(s, j)) || (cmds[k].status.Aborted? && cmds[k].slot == Ptr(s, j))
    {
      if cmds[k].status.Aborted? && cmds[k].slot == Ptr(s, j) {
        assert AbortedOn(cmds, k + 1, Ptr(s, j));
      }
    }
  }

  /** The list after a timeout, with the command waited for marked. */
  function TimedOut(cmds: seq<Cmd>, current: Option<nat>): (r: seq<Cmd>)
    requires current.Some? ==> current.value < |cmds|
    ensures |r| == |cmds|
    ensures forall i :: 0 <= i < |r| ==>
              r[i] == if current == Some(i) then cmds[i].(status := Aborted) else cmds[i]
  {
    if current.None? then cmds
    else cmds[current.value := cmds[current.value].(status := Aborted)]
  }

  lemma ListedTimedOut(f: Fields, cmds: seq<Cmd>, current: Option<nat>)
    requires Listed(f, cmds) && (current.Some? ==> current.value < |cmds|)
    ensures Listed(f, TimedOut(cmds, current))
  {
    forall i | 0 <= i < |cmds| ensures ListedAt(f, TimedOut(cmds, current), i) {
      assert ListedAt(f, cmds, i);
    }
  }

  ghost predicate ListedAt(f: Fields, cmds: seq<Cmd>, i: nat)
    requires Ok(f) && i < |cmds|
  {
    var p := f.Model();
    && OnRing(f.order, cmds[i].slot)
    && Pos(f.order, cmds[i].slot) == Nth(|p.tape|, p.d, i)
    && Pos(f.order, cmds[i].slot) < |p.tape|
    && Shows(p.tape[Pos(f.order, cmds[i].slot)], cmds[i])
  }

  /** The i-th command of the list is the i-th occupied slot of the ring, for every i. */
  ghost predicate Listed(f: Fields, cmds: seq<Cmd>) {
    var listed :=
      && Ok(f)
      && Inv(f.Model(), f.Controller())
      && f.withheld.None?
      && f.Model().d % 64 != 63
      && |cmds| == Occupied(|f.Tape()|, f.Model().d, f.Model().e)
      && forall i :: 0 <= i < |cmds| ==> ListedAt(f, cmds, i);
    listed
  }

  /** The list is kept when the ring changes only on slots that are not occupied. */
  lemma ListedFrame(f: Fields, g: Fields, cmds: seq<Cmd>)
    requires Listed(f, cmds) && Ok(g) && Inv(g.Model(), g.Controller()) && g.withheld.None?
    requires g.order == f.order && g.Model().d == f.Model().d
    requires Occupied(|g.Tape()|, g.Model().d, g.Model().e) == |cmds|
    requires |g.Tape()| == |f.Tape()|
    requires forall j :: 0 <= j < |f.Tape()| && j != f.Model().e ==> g.Tape()[j] == f.Tape()[j]
    ensures Listed(g, cmds)
  {
    var p := f.Model();
    forall i | 0 <= i < |cmds| ensures ListedAt(g, cmds, i) {
      assert ListedAt(f, cmds, i);
      NthOccupied(|p.tape|, p.d, p.e, i);
    }
  }

  lemma ListedOnward(f: Fields, g: Fields, cmds: seq<Cmd>, quirk: bool)
    requires Listed(f, cmds) && HandedOver(f, g, quirk)
    ensures Listed(g, cmds) && g.free == f.free
  {
    var p := f.Model();
    OnwardKeeps(p, f.Controller(), true, Some(quirk));
    assert g.Model().withheld.None?;
    if p.e % 64 == 63 {
      OccupiedNext(|p.tape|, p.d, p.e);
    }
    ListedFrame(f, g, cmds);
  }

  /** Queueing a command TRB on an ordinary slot. */
  lemma ListedPut(f: Fields, g: Fields, cmds: seq<Cmd>, trb: Trb, quirk: bool)
    requires Listed(f, cmds) && f.enqueue.idx != 63 && 1 <= f.free
    requires !trb.typ.Link? && !trb.chain && trb.cycle == f.cycle
    requires f.Model().e + 1 < |f.Tape()|
    requires Ok(g) && g.order == f.order && g.Controller() == f.Controller()
    requires g.Model() == Put(f.Model(), trb, false, quirk)
    ensures Listed(g, cmds + [Cmd(f.enqueue, trb, Waiting)]) && g.free == f.free - 1
  {
    var p, q := f.Model(), g.Model();
    var cmd := Cmd(f.enqueue, trb, Waiting);
    PosSlot(f.order, f.mem, f.enqueue);
    PutKeeps(p, f.Controller(), trb, false, quirk);
    PutCases(p, trb, false, quirk);
    assert q.tape == p.tape[p.e := trb];
    OccupiedNext(|p.tape|, p.d, p.e);
    forall i | 0 <= i < |cmds| + 1 ensures ListedAt(g, cmds + [cmd], i) {
      assert i < |cmds| ==> ListedAt(f, cmds, i);
      NthOccupied(|p.tape|, p.d, p.e, i);
    }
  }

  /** The controller has finished the first command: it leaves the list and its slot is given
      up. */
  lemma ListedReclaim(f: Fields, g: Fields, cmds: seq<Cmd>)
    requires Listed(f, cmds)
    requires WorkCount(|f.Tape()|, f.Controller().h, f.Model().e) < |cmds|
    requires Ok(g) && g.order == f.order && g.Controller() == f.Controller()
    requires g.Model() == Reclaim(f.Model())
    ensures cmds != [] && cmds[0].slot == f.dequeue
    ensures Listed(g, cmds[1..])
  {
    var p := f.Model();
    assert ListedAt(f, cmds, 0);
    PosInjective(f.order, cmds[0].slot, f.dequeue);
    ReclaimKeeps(p, f.Controller());
    NextDequeueCounts(|p.tape|, p.d, p.e);
    NextIsOrdinary(|p.tape|, p.d);
    forall i | 0 <= i < |cmds[1..]| ensures ListedAt(g, cmds[1..], i) {
      assert ListedAt(f, cmds, i + 1);
    }
  }

  /** Nobody else's slot changes when command k is turned into a no-op. */
  lemma ListedNoop(f: Fields, g: Fields, cmds: seq<Cmd>, k: nat)
    requires Listed(f, cmds) && k < |cmds|
    requires OnRing(f.order, cmds[k].slot) && Pos(f.order, cmds[k].slot) < |f.Tape()|
    requires Ok(g) && g.order == f.order && g.Controller() == f.Controller()
    requires var j := Pos(f.order, cmds[k].slot);
             g.Model() == f.Model().(tape := f.Tape()[j := Noop(f.Tape()[j])])
    ensures Listed(g, cmds[k := cmds[k].(status := Nooped)])
    ensures var j := Pos(f.order, cmds[k].slot);
            && g.Tape()[j] == Trb(0, 0, CommandNoop, false, false, false, f.Tape()[j].cycle)
            && forall i :: 0 <= i < |f.Tape()| && i != j ==> g.Tape()[i] == f.Tape()[i]
  {
    var p, q := f.Model(), g.Model();
    var j := Pos(f.order, cmds[k].slot);
    var cmds' := cmds[k := cmds[k].(status := Nooped)];
    assert ListedAt(f, cmds, k);
    NthOccupied(|p.tape|, p.d, p.e, k);
    NoopInv(p, f.Controller(), j);
    forall i | 0 <= i < |cmds| ensures ListedAt(g, cmds', i) {
      assert ListedAt(f, cmds, i);
      if i != k {
        NthDistinct(|p.tape|, p.d, p.e, i, k);
      }
    }
  }

  lemma NoopInv(p: Producer, c: Consumer, j: nat)
    requires Inv(p, c) && j < |p.tape| && j % 64 != 63
    ensures Inv(p.(tape := p.tape[j := Noop(p.tape[j])]), c)
  {
    var q := p.(tape := p.tape[j := Noop(p.tape[j])]);
    GeometryStore(p.tape, j, Noop(p.tape[j]));
    assert Bits(q);
  }

  /** Different numbers, different slots. */
  lemma {:induction false} NthDistinct(n: nat, d: nat, e: nat, i: nat, k: nat)
    requires d < n && e < n && n % 64 == 0 && d % 64 != 63
    requires i < Occupied(n, d, e) && k < Occupied(n, d, e) && i != k
    ensures Nth(n, d, i) != Nth(n, d, k)
    decreases i
  {
    if i == 0 {
      NthApart(n, d, e, k);
    } else if k == 0 {
      NthApart(n, d, e, i);
    } else {
      NextDequeueCounts(n, d, e);
      NextIsOrdinary(n, d);
      NthDistinct(n, NextDequeue(n, d), e, i - 1, k - 1);
    }
  }

  /** Later slots are further away from dequeue. */
  lemma {:induction false} NthApart(n: nat, d: nat, e: nat, k: nat)
    requires d < n && e < n && n % 64 == 0 && d % 64 != 63
    requires 0 < k < Occupied(n, d, e)
    ensures Nth(n, d, k) != d
  {
    CountBound(n, d, e);
    NthAway(n, d, d, e, k);
  }

  /** Walking on from x, which lies between d and e, does not lead back to d before e. */
  lemma {:induction false} NthAway(n: nat, d: nat, x: nat, e: nat, k: nat)
    requires d < n && x < n && e < n && n % 64 == 0 && x % 64 != 63
    requires Dist(n, d, x) + Dist(n, x, e) == Dist(n, d, e)
    requires 0 < k < Occupied(n, x, e)
    ensures Nth(n, x, k) != d
    decreases k
  {
    var y := NextDequeue(n, x);
    NextDequeueCounts(n, x, e);
    NextIsOrdinary(n, x);
    StepAway(n, d, x, e);
    if 1 < k {
      NthAway(n, d, y, e, k - 1);
    }
  }

  lemma StepAway(n: nat, d: nat, x: nat, e: nat)
    requires d < n && x < n && e < n && n % 64 == 0 && x % 64 != 63
    requires Dist(n, d, x) + Dist(n, x, e) == Dist(n, d, e) && 1 < Occupied(n, x, e)
    ensures var y := NextDequeue(n, x);
            y < n && y != d && Dist(n, d, y) + Dist(n, y, e) == Dist(n, d, e)
  {
  }

  // ------------------------------------------------------------------------ the object

  datatype Outcome = Queued | Shutdown | NoRoom

  class CommandQueue {
    const ring: Ring
    var cmds: seq<Cmd>
    /** Slots kept for commands that must not fail; one is reserved at start-up. */
    var reserved: nat
    var dying: bool

    ghost predicate Valid()
      reads this, ring
    {
      && ring.kind.CommandRing? && 1 <= reserved
      && (Listed(ring.Now(), cmds) || GivenUp())
    }

    /** The host is gone: every command has been completed and the ring left as it was. */
    ghost predicate GivenUp()
      reads this
    {
      dying && cmds == []
    }

    constructor (quirk: bool, reserved: nat)
      requires 1 <= reserved
      ensures Valid() && fresh(ring) && cmds == [] && !dying && this.reserved == reserved
    {
      ring := new Ring(CommandRing, 1, true, quirk);
      cmds, dying := [], false;
      this.reserved := reserved;
      new;
      PosSlot(ring.order, ring.mem, ring.enqueue);
      SelfEmpty(|ring.Tape()|, ring.Model().d, ring.Model().e);
    }

    /** queue_command.  An ordinary command leaves the reserved slots alone. */
    method QueueCommand(trb: Trb, mustSucceed: bool) returns (outcome: Outcome)
      requires Valid() && !trb.typ.Link? && !trb.chain
      modifies this, ring
      ensures Valid() && reserved == old(reserved) && dying == old(dying)
      ensures outcome == Shutdown <==> old(dying)
      ensures outcome == NoRoom <==>
                !old(dying) && old(ring.numTrbsFree) < reserved + (if mustSucceed then 0 else 1)
      ensures outcome != Queued ==> cmds == old(cmds) && ring.Now() == old(ring.Now())
      ensures outcome == Queued ==>
                && |cmds| == |old(cmds)| + 1 && cmds[..|old(cmds)|] == old(cmds)
                && cmds[|old(cmds)|].trb == trb.(cycle := cmds[|old(cmds)|].trb.cycle)
                && ring.numTrbsFree == old(ring.numTrbsFree) - 1
                && (mustSucceed || reserved <= ring.numTrbsFree)
    {
      if dying {
        return Shutdown;
      }
      var room := ring.PrepareCommandRing(reserved + if mustSucceed then 0 else 1);
      if !room {
        return NoRoom;
      }
      AppendBehind(trb, old(ring.Now()));
      outcome := Queued;
    }

    /** Queue the command behind a link that has just been handed over, if there was one. */
    method AppendBehind(trb: Trb, ghost f: Fields)
      requires ring.kind.CommandRing? && Listed(f, cmds) && HandedOver(f, ring.Now(), ring.linkQuirk)
      requires ring.enqueue.idx != 63 && 1 <= f.free && !trb.typ.Link? && !trb.chain
      modifies this`cmds, ring
      ensures Listed(ring.Now(), cmds) && ring.numTrbsFree == f.free - 1
      ensures cmds == old(cmds) + [Cmd(old(ring.enqueue), trb.(cycle := old(ring.cycleState)), Waiting)]
    {
      ListedOnward(f, ring.Now(), cmds, ring.linkQuirk);
      Append(trb.(cycle := ring.cycleState));
    }

    /** Put a command TRB on the ring and the command on the list. */
    method Append(trb: Trb)
      requires ring.kind.CommandRing? && Listed(ring.Now(), cmds) && ring.enqueue.idx != 63
      requires 1 <= ring.numTrbsFree && !trb.typ.Link? && !trb.chain && trb.cycle == ring.cycleState
      modifies this`cmds, ring
      ensures Listed(ring.Now(), cmds)
      ensures cmds == old(cmds) + [Cmd(old(ring.enqueue), trb, Waiting)]
      ensures ring.numTrbsFree == old(ring.numTrbsFree) - 1
    {
      ghost var f := ring.Now();
      var slot := ring.enqueue;
      ring.QueueTrb(trb, false);
      ListedPut(f, ring.Now(), cmds, trb, ring.linkQuirk);
      cmds := cmds + [Cmd(slot, trb, Waiting)];
    }

    /** ehub_xhci_cleanup_command_queue: every command is completed, in order. */
    method CleanupQueue() returns (completed: seq<Cmd>)
      modifies this`cmds
      ensures cmds == [] && completed == old(cmds)
    {
      completed := [];
      while cmds != []
        invariant completed + cmds == old(cmds)
        decreases |cmds|
      {
        completed := completed + [cmds[0]];
        cmds := cmds[1..];
      }
    }

    /** ehub_xhci_handle_command_timeout: the command being waited for, if any, is to be
        aborted, and the host is given up.  On a running ring every command is then completed;
        on a stopped one the aborted commands become no-ops. */
    method HandleTimeout(current: Option<nat>, running: bool) returns (completed: seq<Cmd>)
      requires Valid() && (current.Some? ==> current.value < |cmds|)
      modifies this`cmds, this`dying, ring`mem
      ensures Valid() && dying
      ensures running ==>
                && |completed| == |old(cmds)| && cmds == [] && ring.Now() == old(ring.Now())
                && forall i :: 0 <= i < |completed| ==>
                     completed[i] == if current == Some(i) then old(cmds)[i].(status := Aborted)
                                     else old(cmds)[i]
      ensures !running ==>
                && completed == []
                && NowNoops(TimedOut(old(cmds), current), old(ring.mem), cmds, ring.mem)
                && (Listed(old(ring.Now()), old(cmds)) ==> Listed(ring.Now(), cmds))
    {
      if Listed(ring.Now(), cmds) {
        ListedTimedOut(ring.Now(), cmds, current);
      }
      if current.Some? {
        cmds := cmds[current.value := cmds[current.value].(status := Aborted)];
      }
      dying := true;
      completed := [];
      if running {
        completed := CleanupQueue();
      } else {
        HandleStoppedRing();
      }
    }

    /** xhci_handle_stopped_cmd_ring: aborted commands become no-ops. */
    method HandleStoppedRing()
      requires Valid()
      modifies this`cmds, ring`mem
      ensures Valid() && NowNoops(old(cmds), old(ring.mem), cmds, ring.mem)
      ensures Listed(old(ring.Now()), old(cmds)) ==> Listed(ring.Now(), cmds)
    {
      if cmds == [] {
        NoneAborted(ring.mem);
      } else {
        AbortedToNoops();
      }
    }

    /** Its loop. */
    method AbortedToNoops()
      requires Listed(ring.Now(), cmds)
      modifies this`cmds, ring`mem
      ensures Listed(ring.Now(), cmds) && NowNoops(old(cmds), old(ring.mem), cmds, ring.mem)
    {
      ghost var cmds0, mem0 := cmds, ring.mem;
      var i, n := 0, |cmds|;
      StoppedEnds(cmds0);
      assert NoopsIn(cmds0, 0, mem0, ring.mem);
      while i < n
        invariant 0 <= i <= n == |cmds0| && Stopping(ring.Now(), cmds, i, cmds0, mem0)
      {
        AbortedToNoop(i, cmds0, mem0);
        i := i + 1;
      }
      AfterStopIs(cmds0, mem0, ring.mem);
    }

    /** One turn of the loop. */
    method AbortedToNoop(i: nat, ghost cmds0: seq<Cmd>, ghost mem0: seq<seq<Trb>>)
      requires Stopping(ring.Now(), cmds, i, cmds0, mem0) && i < |cmds0| == |cmds|
      modifies this`cmds, ring`mem
      ensures |cmds| == |old(cmds)| && Stopping(ring.Now(), cmds, i + 1, cmds0, mem0)
    {
      ghost var mem := ring.mem;
      StoppedMore(cmds0, i);
      if cmds[i].status.Aborted? {
        ToNoop(i);
      } else {
        assert cmds[i := cmds[i]] == cmds;
      }
      NoopsMore(cmds0, i, mem0, mem, ring.mem);
    }

    method ToNoop(k: nat)
      requires Listed(ring.Now(), cmds) && k < |cmds|
      modifies this`cmds, ring`mem
      ensures Listed(ring.Now(), cmds)
      ensures cmds == old(cmds)[k := old(cmds)[k].(status := Nooped)]
      ensures var p := old(cmds)[k].slot;
              && p.seg < |old(ring.mem)| && p.idx < |old(ring.mem)[p.seg]|
              && ring.mem == Store(old(ring.mem), p, Trb(0, 0, CommandNoop, false, false, false,
                                                         old(ring.mem)[p.seg][p.idx].cycle))
    {
      ghost var f := ring.Now();
      assert ListedAt(f, cmds, k);
      NthOccupied(|f.Tape()|, f.Model().d, f.Model().e, k);
      var slot := cmds[k].slot;
      PosSlot(ring.order, ring.mem, slot);
      var noop := Noop(ring.mem[slot.seg][slot.idx]);
      StoreCircle(ring.order, ring.next, ring.mem, slot, noop);
      ring.mem := Store(ring.mem, slot, noop);
      ListedNoop(f, ring.Now(), cmds, k);
      cmds := cmds[k := cmds[k].(status := Nooped)];
    }

    /** handle_cmd_completion, for an event that names TRB `ev`.  An event that does not name
        the slot under dequeue is ignored; the first command of the list is then always the
        one that completed, so the check of its slot never fails. */
    method HandleCompletion(ev: Ptr, code: Code) returns (done: bool)
      requires Valid() && OnRing(ring.order, ev)
      requires ev == ring.dequeue ==> cmds != []
      requires ev == ring.dequeue && code != RingStopped ==>
                 WorkCount(|ring.Tape()|, ring.Controller().h, ring.Model().e) < |cmds|
      modifies this`cmds, ring`mem, ring`dequeue, ring`numTrbsFree
      ensures Valid()
      ensures done <==> ev == old(ring.dequeue) && code != RingStopped
      ensures done ==> cmds == old(cmds)[1..] && old(cmds)[0].slot == ev && ring.mem == old(ring.mem)
      ensures done ==> ring.Valid() && ring.Model() == Reclaim(old(ring.Model()))
      ensures ev != old(ring.dequeue) ==> cmds == old(cmds) && ring.Now() == old(ring.Now())
      ensures ev == old(ring.dequeue) && code == RingStopped ==>
                && Listed(ring.Now(), cmds) && NowNoops(old(cmds), old(ring.mem), cmds, ring.mem)
                && ring.Now() == old(ring.Now()).(mem := ring.mem)
    {
      if ev != ring.dequeue {
        return false;
      }
      FirstIsDequeue(ring.Now(), cmds);
      if cmds[0].slot != ring.dequeue {
        assert false;
      }
      if code.RingStopped? {
        HandleStoppedRing();
        return false;
      }
      CompleteFirst();
      done := true;
    }

    /** The first command of the list is done: it leaves, and its slot is given up. */
    method CompleteFirst()
      requires Listed(ring.Now(), cmds)
      requires WorkCount(|ring.Tape()|, ring.Controller().h, ring.Model().e) < |cmds|
      modifies this`cmds, ring`dequeue, ring`numTrbsFree
      ensures Listed(ring.Now(), cmds) && cmds == old(cmds)[1..]
      ensures ring.Valid() && ring.Model() == Reclaim(old(ring.Model()))
    {
      ghost var f := ring.Now();
      ring.IncDeq();
      ListedReclaim(f, ring.Now(), cmds);
      cmds := cmds[1..];
    }
  }

  lemma FirstIsDequeue(f: Fields, cmds: seq<Cmd>)
    requires Listed(f, cmds) && cmds != []
    ensures cmds[0].slot == f.dequeue
  {
    assert ListedAt(f, cmds, 0);
    PosInjective(f.order, cmds[0].slot, f.dequeue);
  }
}
