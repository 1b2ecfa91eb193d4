/** Queueing one bulk transfer, from the count of its TRBs to the moment the controller
    may have it. */
module Submission {
  import opened Trbs
  import opened Laps
  import opened Segments
  import opened Rings
  import opened Splitting

  // ------------------------------------------------------------ the TD a transfer asks for

  /** The pieces of a contiguous transfer; an empty transfer still takes one TRB. */
  function BulkPieces(addr: nat, len: nat): (ps: seq<Piece>)
    ensures ps != []
  {
    if len == 0 then [Piece(addr, 0)] else Pieces(Unit64K, addr, len)
  }

  /** The TD, with every cycle bit left blank. */
  function BulkTd(addr: nat, len: nat): seq<Trb> {
    ChainedTd(BulkPieces(addr, len))
  }

  /** TRBs with their cycle bits blanked out. */
  function Blanked(s: seq<Trb>): seq<Trb> {
    seq(|s|, i requires 0 <= i < |s| => s[i].(cycle := false))
  }

  // ---------------------------------------------------------------------- the splitter

  /** TRB number j of the transfer covers trbLen bytes at `at`, out of `remain` left. */
  ghost predicate Cutting(addr: nat, len: nat, j: nat, at: nat, remain: nat, trbLen: nat) {
    var ps := BulkPieces(addr, len);
    && j < |ps|
    && trbLen == Min(0x10000 - Offset(Unit64K, at), remain)
    && (len == 0 ==> j == 0 && at == addr && remain == 0)
    && (0 < len ==> 0 < remain && ps[j..] == Pieces(Unit64K, at, remain))
  }

  /** One turn of the loop.  Behind the first TRB every address is a 64 KB boundary. */
  lemma CuttingStep(addr: nat, len: nat, j: nat, at: nat, remain: nat, trbLen: nat)
    requires Cutting(addr, len, j, at, remain, trbLen)
    ensures trbLen <= remain
    ensures BulkPieces(addr, len)[j] == Piece(at, trbLen)
    ensures trbLen < remain ==>
              Cutting(addr, len, j + 1, at + trbLen, remain - trbLen, Min(remain - trbLen, 0x10000))
    ensures trbLen == remain ==> j + 1 == |BulkPieces(addr, len)|
  {
    if 0 < len {
      var ps := BulkPieces(addr, len);
      assert ps[j] == ps[j..][0] && ps[j + 1..] == ps[j..][1..];
      assert Pieces(Unit64K, at, remain)[1..] == Pieces(Unit64K, at + trbLen, remain - trbLen);
      OffsetStep(Unit64K, at, trbLen);
    }
  }

  /** The TRBs built so far are the TD's first, and the next piece is known. */
  ghost predicate SoFar(addr: nat, len: nat, built: seq<Trb>, at: nat, remain: nat, trbLen: nat) {
    var soFar :=
      && Cutting(addr, len, |built|, at, remain, trbLen)
      && Blanked(built) == BulkTd(addr, len)[..|built|];
    soFar
  }

  lemma SoFarStarts(addr: nat, len: nat)
    ensures SoFar(addr, len, [], addr, len, Min(0x10000 - Offset(Unit64K, addr), len))
  {
    assert BulkPieces(addr, len)[0..] == BulkPieces(addr, len);
  }

  lemma SoFarStep(addr: nat, len: nat, built: seq<Trb>, at: nat, remain: nat, trbLen: nat,
                  cycle: bool, built': seq<Trb>, at': nat, remain': nat, trbLen': nat)
    requires SoFar(addr, len, built, at, remain, trbLen) && trbLen <= remain
    requires built' == built + [TdTrb(Piece(at, trbLen),
                                      |built| + 1 == |BulkPieces(addr, len)|, cycle)]
    requires at' == at + trbLen && remain' == remain - trbLen && trbLen' == Min(remain', 0x10000)
    ensures 0 < remain' ==> SoFar(addr, len, built', at', remain', trbLen')
    ensures 0 < remain' <==> |built'| < |BulkPieces(addr, len)|
    ensures remain' == 0 ==> Blanked(built') == BulkTd(addr, len)
  {
    CuttingStep(addr, len, |built|, at, remain, trbLen);
    var td := BulkTd(addr, len);
    BlankedAppend(built, built'[|built|]);
    assert td[..|built'|] == td[..|built|] + [td[|built|]];
    assert remain' == 0 ==> td[..|built'|] == td;
  }

  lemma BlankedIsTd(trbs: seq<Trb>, ps: seq<Piece>)
    requires Blanked(trbs) == ChainedTd(ps)
    ensures IsTd(trbs, ps, Normal)
  {
    ChainedTdIsTd(ps);
    assert |Blanked(trbs)| == |trbs|;
    assert forall i :: 0 <= i < |trbs| ==> Blanked(trbs)[i] == trbs[i].(cycle := false);
  }

  lemma BlankedAppend(s: seq<Trb>, x: Trb)
    ensures Blanked(s + [x]) == Blanked(s) + [x.(cycle := false)]
  {
  }

  // ------------------------------------------------------------------- one TRB at a time

  lemma PutMoves(p: Producer, trb: Trb, keepChain: bool)
    requires Geometry(p.tape) && p.e + 1 < |p.tape|
    ensures Put(p, trb, true, keepChain).e % 64 != 63
  {
    PutCases(p, trb, true, keepChain);
    if (p.e + 1) % 64 == 63 {
      NextOfLink(|p.tape|, p.e + 1);
    }
  }

  /** Queue one TRB of a TD under construction: the controller's view does not change. */
  lemma PutBuilds(p: Producer, c: Consumer, trb: Trb, more: bool, keepChain: bool, num: nat, f: nat)
    requires Inv(p, c) && p.e % 64 != 63 && !trb.typ.Link?
    requires 0 < num && p.d % 64 + num <= p.free
    requires if p.withheld.None? then trb.cycle != p.pcs && p.e == f
             else trb.cycle == p.pcs && p.withheld == Some(f)
    ensures p.e + 1 < |p.tape|
    ensures var q := Put(p, trb, more, keepChain);
            && Inv(q, c)
            && Room(q)
            && Queue(q, c) == Queue(p, c)
            && Building(q) == Building(p) + [trb]
            && q.withheld == Some(f)
            && q.d == p.d && q.free == p.free - 1
            && (more ==> q.e % 64 != 63)
  {
    PutKeeps(p, c, trb, more, keepChain);
    PutQueue(p, c, trb, more, keepChain);
    if more {
      PutMoves(p, trb, keepChain);
    }
  }

  /** A transfer ring in the middle of a TD that starts at `start`: num more TRBs fit, the
      controller has `queue` ahead of it and `built` is held back. */
  ghost predicate MidTd(f: Fields, start: Ptr, startCycle: bool, num: nat,
                        queue: seq<Trb>, built: seq<Trb>) {
    var mid :=
      && Ok(f)
      && OnRing(f.order, start)
      && Inv(f.Model(), f.Controller())
      && f.Model().d % 64 + num <= f.free
      && Queue(f.Model(), f.Controller()) == queue
      && Building(f.Model()) == built
      && (if f.withheld.None? then f.enqueue == start && f.cycle == startCycle && built == []
          else f.Model().withheld == Some(Pos(f.order, start)) &&
               built != [] && built[0].cycle != startCycle);
    mid
  }

  /** Enqueue stands right behind the ordinary slot `last`. */
  ghost predicate Behind(f: Fields, last: Ptr) {
    Ok(f) && OnRing(f.order, last) && last.idx != 63 && f.Model().e == Pos(f.order, last) + 1
  }

  lemma MidTdNext(f: Fields, g: Fields, trb: Trb, more: bool, keepChain: bool,
                  start: Ptr, startCycle: bool, num: nat, queue: seq<Trb>, built: seq<Trb>)
    requires MidTd(f, start, startCycle, num, queue, built) && f.enqueue.idx != 63 && 0 < num
    requires !trb.typ.Link? && trb.cycle == (f.cycle != f.withheld.None?)
    requires f.Model().e + 1 < |f.Model().tape|
    requires Ok(g) && g.order == f.order && g.Controller() == f.Controller()
    requires g.Model() == Put(f.Model(), trb, more, keepChain)
    ensures MidTd(g, start, startCycle, num - 1, queue, built + [trb]) && g.withheld.Some?
    ensures more ==> g.enqueue.idx != 63
    ensures !more && !trb.chain ==> Behind(g, f.enqueue)
  {
    PosSlot(f.order, f.mem, f.enqueue);
    PosSlot(g.order, g.mem, g.enqueue);
    PutCases(f.Model(), trb, more, keepChain);
    PutBuilds(f.Model(), f.Controller(), trb, more, keepChain, num, Pos(f.order, start));
  }

  /** On hardware without the link quirk, every link the TD has crossed so far is chained. */
  ghost predicate Through(f: Fields, start: Ptr, quirk: bool) {
    var through :=
      && Ok(f) && OnRing(f.order, start)
      && Pos(f.order, start) < |f.Tape()| && f.Model().e < |f.Tape()|
      && (quirk || LinksChained(f.Tape(), Pos(f.order, start), f.Model().e));
    through
  }

  lemma ThroughNext(f: Fields, g: Fields, trb: Trb, more: bool, quirk: bool, start: Ptr)
    requires Through(f, start, quirk) && f.enqueue.idx != 63 && !trb.typ.Link? && (more ==> trb.chain)
    requires f.Model().e + 1 < |f.Model().tape|
    requires Ok(g) && g.order == f.order && g.Model() == Put(f.Model(), trb, more, quirk)
    ensures Through(g, start, quirk)
  {
    PosSlot(f.order, f.mem, f.enqueue);
    PosSlot(g.order, g.mem, g.enqueue);
    if !quirk {
      PutChains(f.Model(), trb, more, Pos(f.order, start));
    }
  }

  method QueueOne(r: Ring, trb: Trb, more: bool, ghost num: nat, ghost start: Ptr,
                  ghost startCycle: bool, ghost queue: seq<Trb>, ghost built: seq<Trb>)
    requires MidTd(r.Now(), start, startCycle, num, queue, built) && r.enqueue.idx != 63 && 0 < num
    requires !trb.typ.Link? && trb.cycle == (r.cycleState != r.withheld.None?)
    requires Through(r.Now(), start, r.linkQuirk) && (more ==> trb.chain)
    modifies r`mem, r`enqueue, r`cycleState, r`numTrbsFree, r`withheld
    ensures Through(r.Now(), start, r.linkQuirk)
    ensures MidTd(r.Now(), start, startCycle, num - 1, queue, built + [trb]) && r.withheld.Some?
    ensures more ==> r.enqueue.idx != 63
    ensures !more && !trb.chain ==> Behind(r.Now(), old(r.enqueue))
  {
    ghost var f := r.Now();
    r.QueueTrb(trb, more);
    MidTdNext(f, r.Now(), trb, more, r.linkQuirk, start, startCycle, num, queue, built);
    ThroughNext(f, r.Now(), trb, more, r.linkQuirk, start);
  }

  // ---------------------------------------------------------------------- publication

  /** The first TRB of a TD under construction lies on the withheld slot, marked with the
      complement of the cycle bit it is due. */
  lemma FirstOfBuilding(p: Producer, c: Consumer)
    requires Inv(p, c) && p.withheld.Some?
    ensures Building(p) != []
    ensures Building(p)[0].cycle != StartCycle(p, p.withheld.value)
  {
    var f := p.withheld.value;
    SpanFirst(p.tape, f, p.e);
    WorkConcat([p.tape[f]], Span(p.tape, Next(|p.tape|, f), p.e));
  }

  /** The TD as the controller gets it. */
  function Published(built: seq<Trb>, startCycle: bool): seq<Trb>
    requires built != []
  {
    [built[0].(cycle := startCycle)] + built[1..]
  }

  lemma PublishedBlank(built: seq<Trb>, startCycle: bool)
    requires built != []
    ensures Blanked(Published(built, startCycle)) == Blanked(built)
  {
  }

  lemma PublishedJoins(queue: seq<Trb>, built: seq<Trb>, startCycle: bool)
    requires built != []
    ensures queue + [built[0].(cycle := startCycle)] + built[1..] ==
            queue + Published(built, startCycle)
  {
  }

  lemma MidTdEnds(f: Fields, g: Fields, start: Ptr, startCycle: bool,
                  queue: seq<Trb>, built: seq<Trb>)
    requires MidTd(f, start, startCycle, 0, queue, built) && f.withheld.Some?
    requires Pos(f.order, start) < |f.Tape()|
    requires Ok(g) && g.Controller() == f.Controller()
    requires g.Model() == Release(f.Model(), Pos(f.order, start), startCycle)
    ensures built != []
    ensures Inv(g.Model(), g.Controller()) && Room(g.Model())
    ensures Queue(g.Model(), g.Controller()) ==
            queue + Published(built, startCycle)
    ensures Building(g.Model()) == []
  {
    FirstOfBuilding(f.Model(), f.Controller());
    ReleaseKeeps(f.Model(), f.Controller());
    PublishedJoins(queue, built, startCycle);
  }

  /** prepare_ring has made room for a TD of num TRBs. */
  lemma Prepared(r: Ring, num: nat, queue: seq<Trb>)
    requires r.Holds(queue, []) && !r.kind.CommandRing? && r.withheld.None?
    requires r.NumTrbsNeeded(num) == 0
    ensures MidTd(r.Now(), r.enqueue, r.cycleState, num, queue, [])
    ensures Through(r.Now(), r.enqueue, r.linkQuirk)
  {
    PosSlot(r.order, r.mem, r.dequeue);
    PosSlot(r.order, r.mem, r.enqueue);
  }

  /** What one transfer is after: its buffer, where its TD starts, what the controller had been
      given before, and whether the hardware has the link quirk. */
  datatype Goal = Goal(addr: nat, len: nat, start: Ptr, startCycle: bool, queue: seq<Trb>, quirk: bool)

  ghost predicate Midway(f: Fields, g: Goal, built: seq<Trb>, num: nat,
                         at: nat, remain: nat, trbLen: nat) {
    var midway :=
      && MidTd(f, g.start, g.startCycle, num, g.queue, built)
      && Through(f, g.start, g.quirk)
      && SoFar(g.addr, g.len, built, at, remain, trbLen)
      && |built| + num == |BulkPieces(g.addr, g.len)|
      && 0 < num
      && trbLen <= remain;
    midway
  }

  ghost predicate Finished(f: Fields, g: Goal, built: seq<Trb>, last: Ptr) {
    var finished :=
      && MidTd(f, g.start, g.startCycle, 0, g.queue, built)
      && f.withheld.Some? && Behind(f, last) && Through(f, g.start, g.quirk)
      && Blanked(built) == BulkTd(g.addr, g.len)
      && IsTd(built, BulkPieces(g.addr, g.len), Normal);
    finished
  }

  /** One turn of the loop: queue a TRB and compute the next piece. */
  method QueuePiece(r: Ring, first: bool, num: nat, at: nat, remain: nat, trbLen: nat,
                    ghost g: Goal, ghost built: seq<Trb>)
    returns (at': nat, remain': nat, trbLen': nat, last: Ptr, ghost built': seq<Trb>)
    requires Midway(r.Now(), g, built, num, at, remain, trbLen)
    requires r.enqueue.idx != 63 && first == r.withheld.None? && g.quirk == r.linkQuirk
    modifies r`mem, r`enqueue, r`cycleState, r`numTrbsFree, r`withheld
    ensures 0 < remain' ==>
              && 1 < num
              && Midway(r.Now(), g, built', num - 1, at', remain', trbLen')
              && r.enqueue.idx != 63
              && r.withheld.Some?
    ensures remain' == 0 ==> Finished(r.Now(), g, built', last)
  {
    last := r.enqueue;
    var cycle := r.cycleState != first;
    var trb := TdTrb(Piece(at, trbLen), num <= 1, cycle);
    QueueOne(r, trb, num > 1, num, g.start, g.startCycle, g.queue, built);
    built' := built + [trb];
    at', remain' := at + trbLen, remain - trbLen;
    trbLen' := Min(remain', 0x10000);
    SoFarStep(g.addr, g.len, built, at, remain, trbLen, cycle, built', at', remain', trbLen');
    if remain' == 0 {
      BlankedIsTd(built', BulkPieces(g.addr, g.len));
    }
  }

  /** The loop of ehub_xhci_queue_bulk_tx. */
  method QueueTd(r: Ring, addr: nat, len: nat, trbs: nat, ghost g: Goal)
    returns (last: Ptr, ghost built: seq<Trb>)
    requires trbs == |BulkPieces(addr, len)| && r.enqueue.idx != 63 && r.withheld.None?
    requires g.addr == addr && g.len == len && g.quirk == r.linkQuirk
    requires Through(r.Now(), g.start, g.quirk)
    requires MidTd(r.Now(), g.start, g.startCycle, trbs, g.queue, [])
    modifies r`mem, r`enqueue, r`cycleState, r`numTrbsFree, r`withheld
    ensures Finished(r.Now(), g, built, last)
  {
    var num, first := trbs, true;
    var at: nat, remain: nat, trbLen: nat := addr, len, Min(0x10000 - Offset(Unit64K, addr), len);
    built := [];
    SoFarStarts(addr, len);
    while true
      invariant Midway(r.Now(), g, built, num, at, remain, trbLen)
      invariant r.enqueue.idx != 63 && first == r.withheld.None?
      decreases num
    {
      at, remain, trbLen, last, built := QueuePiece(r, first, num, at, remain, trbLen, g, built);
      if remain == 0 {
        break;
      }
      first, num := false, num - 1;
    }
  }

  // ---------------------------------------------------------- where the TD then lies

  /** The slots from f to l of a ring hold the TRBs of one bulk TD, links apart, and the TD
      lies ahead of dequeue. */
  ghost predicate Laid(t: seq<Trb>, d: nat, f: nat, l: nat, addr: nat, len: nat) {
    && d < |t| && f < |t| && l < |t|
    && Dist(|t|, d, f) + Dist(|t|, f, l) == Dist(|t|, d, l)
    && !t[l].typ.Link?
    && Blanked(Work(Span(t, f, l) + [t[l]])) == BulkTd(addr, len)
  }

  lemma {:induction false} BlankedWork(s: seq<Trb>)
    ensures Blanked(Work(s)) == Work(Blanked(s))
  {
    if s != [] {
      BlankedWork(s[1..]);
      assert Blanked(s)[1..] == Blanked(s[1..]);
      var w := if s[0].typ.Link? then [] else [s[0]];
      assert Blanked(w + Work(s[1..])) == Blanked(w) + Blanked(Work(s[1..]));
    }
  }

  /** The work of a stretch does not depend on its cycle bits. */
  lemma BlankedAlike(s: seq<Trb>, u: seq<Trb>)
    requires Blanked(s) == Blanked(u)
    ensures Blanked(Work(s)) == Blanked(Work(u))
  {
    BlankedWork(s);
    BlankedWork(u);
  }

  lemma SpanLast(t: seq<Trb>, a: nat, b: nat)
    requires a < |t| && b + 1 < |t| && b + 1 != a
    ensures Span(t, a, b + 1) == Span(t, a, b) + [t[b]]
  {
    SpanAppend(t, a, b, t[b]);
    assert t[b := t[b]] == t;
  }

  lemma SpanBlanked(t: seq<Trb>, u: seq<Trb>, a: nat, b: nat)
    requires |t| == |u| && a < |t| && b < |t| && Blanked(t) == Blanked(u)
    ensures Blanked(Span(t, a, b)) == Blanked(Span(u, a, b))
  {
    forall j | 0 <= j < |t| ensures t[j].(cycle := false) == u[j].(cycle := false) {
      assert Blanked(t)[j] == Blanked(u)[j];
    }
  }

  /** A TD under construction lies ahead of dequeue: all of it counts as occupied. */
  lemma StartAhead(n: nat, d: nat, h: nat, s: nat, e: nat)
    requires d < n && h < n && s < n && e < n && n % 64 == 0
    requires InSpan(n, h, s, e) && s % 64 != 63
    requires WorkCount(n, h, e) <= Occupied(n, d, e)
    ensures Dist(n, d, s) + Dist(n, s, e) == Dist(n, d, e)
  {
    CountSplit(n, h, s, e);
    if Dist(n, d, s) + Dist(n, s, e) != Dist(n, d, e) {
      CountSplit(n, s, d, e);
      CountFirst(n, s, d);
    }
  }

  lemma LastAhead(n: nat, d: nat, s: nat, l: nat)
    requires d < n && s < n && l + 1 < n && s != l + 1
    requires Dist(n, d, s) + Dist(n, s, l + 1) == Dist(n, d, l + 1)
    ensures Dist(n, d, s) + Dist(n, s, l) == Dist(n, d, l)
  {
  }

  /** Once published, the TD lies where it was built. */
  lemma LaidOnRelease(p: Producer, c: Consumer, s: nat, l: nat, startCycle: bool,
                      addr: nat, len: nat)
    requires Inv(p, c) && p.withheld == Some(s) && l % 64 != 63 && p.e == l + 1
    requires Blanked(Building(p)) == BulkTd(addr, len)
    ensures s < |p.tape|
    ensures Laid(Release(p, s, startCycle).tape, p.d, s, l, addr, len)
  {
    var n, t, u := |p.tape|, p.tape, Release(p, s, startCycle).tape;
    StartAhead(n, p.d, c.h, s, p.e);
    LastAhead(n, p.d, s, l);
    SpanLast(t, s, l);
    SpanLast(u, s, l);
    assert Blanked(u) == Blanked(t);
    SpanBlanked(t, u, s, p.e);
    BlankedAlike(Span(t, s, p.e), Span(u, s, p.e));
  }

  /** The TD of a transfer just queued, on the ring. */
  ghost predicate LaidOut(f: Fields, first: Ptr, last: Ptr, addr: nat, len: nat, quirk: bool) {
    var laid := Ok(f) && OnRing(f.order, first) && OnRing(f.order, last) &&
                Laid(f.Tape(), f.Model().d, Pos(f.order, first), Pos(f.order, last), addr, len) &&
                (quirk || LinksChained(f.Tape(), Pos(f.order, first), Pos(f.order, last)));
    laid
  }

  /** Publication does not touch the links, and the last TRB lies in front of enqueue. */
  lemma ReleaseChained(p: Producer, s: nat, l: nat, startCycle: bool)
    requires s < |p.tape| && l + 1 < |p.tape| && p.e == l + 1 && s != p.e
    requires LinksChained(p.tape, s, p.e)
    ensures LinksChained(Release(p, s, startCycle).tape, s, l)
  {
    var n, u := |p.tape|, Release(p, s, startCycle).tape;
    forall j | 0 <= j < n && InSpan(n, s, j, l) && u[j].typ.Link? ensures u[j].chain {
      assert InSpan(n, s, j, p.e);
    }
  }

  lemma LaidOutOnRelease(f: Fields, g: Fields, goal: Goal, built: seq<Trb>, last: Ptr)
    requires Finished(f, goal, built, last) && Pos(f.order, goal.start) < |f.Tape()|
    requires Ok(g) && g.order == f.order && g.dequeue == f.dequeue
    requires g.Model() == Release(f.Model(), Pos(f.order, goal.start), goal.startCycle)
    ensures LaidOut(g, goal.start, last, goal.addr, goal.len, goal.quirk)
  {
    PosSlot(f.order, f.mem, last);
    if !goal.quirk {
      ReleaseChained(f.Model(), Pos(f.order, goal.start), Pos(f.order, last), goal.startCycle);
    }
    LaidOnRelease(f.Model(), f.Controller(), Pos(f.order, goal.start), Pos(f.order, last),
                  goal.startCycle, goal.addr, goal.len);
  }

  /** giveback_first_trb at the end of a TD: the controller gets all of it in one step, and it
      lies on the ring from its first TRB to its last. */
  method Publish(r: Ring, start: Ptr, startCycle: bool, ghost goal: Goal, ghost last: Ptr,
                 ghost built: seq<Trb>)
    requires Finished(r.Now(), goal, built, last)
    requires goal.start == start && goal.startCycle == startCycle
    modifies r`mem, r`withheld
    ensures r.withheld.None? && built != []
    ensures r.Holds(goal.queue + Published(built, goal.startCycle), [])
    ensures LaidOut(r.Now(), goal.start, last, goal.addr, goal.len, goal.quirk)
  {
    ghost var f := r.Now();
    PosSlot(r.order, r.mem, goal.start);
    r.GivebackFirstTrb(start, startCycle);
    MidTdEnds(f, r.Now(), goal.start, goal.startCycle, goal.queue, built);
    LaidOutOnRelease(f, r.Now(), goal, built, last);
  }

  /** The controller's queue has grown by exactly the transfer's TD, which lies on the ring from
      its first TRB to its last and is chained up to there, through links as well, and nothing
      is held back. */
  ghost predicate Submitted(r: Ring, queue: seq<Trb>, td: seq<Trb>, first: Ptr, last: Ptr,
                            addr: nat, len: nat)
    reads r
  {
    var submitted :=
      && r.withheld.None?
      && r.Holds(queue + td, [])
      && Blanked(td) == BulkTd(addr, len)
      && IsTd(td, if len == 0 then [Piece(addr, 0)] else Pieces(Unit64K, addr, len), Normal)
      && LaidOut(r.Now(), first, last, addr, len, r.linkQuirk);
    submitted
  }

  /** The part of ehub_xhci_queue_bulk_tx behind prepare_ring: the TD is built and published. */
  method QueuePrepared(r: Ring, addr: nat, len: nat, num: nat, ghost queue: seq<Trb>)
    returns (first: Ptr, last: Ptr, ghost td: seq<Trb>)
    requires r.Holds(queue, []) && r.withheld.None? && !r.kind.CommandRing?
    requires num == |BulkPieces(addr, len)| && r.NumTrbsNeeded(num) == 0 && r.enqueue.idx != 63
    modifies r`mem, r`enqueue, r`cycleState, r`numTrbsFree, r`withheld
    ensures Submitted(r, queue, td, first, last, addr, len)
  {
    Prepared(r, num, queue);
    first := r.enqueue;
    var startCycle := r.cycleState;
    ghost var goal, built := Goal(addr, len, first, startCycle, queue, r.linkQuirk), [];
    last, built := QueueTd(r, addr, len, num, goal);
    Publish(r, first, startCycle, goal, last, built);
    td := Published(built, startCycle);
    PublishedBlank(built, startCycle);
    BlankedIsTd(td, BulkPieces(addr, len));
  }

  /** ehub_xhci_queue_bulk_tx for a transfer without scatter-gather list.  On success the
      controller's queue has grown by exactly the TD, which lies between the TRBs recorded as
      its first and last; otherwise it has not changed.  It succeeds exactly when the
      endpoint is ready and there is memory for the segments the ring is short of. */
  method QueueBulkTx(r: Ring, epState: EpState, addr: nat, len: nat, budget: nat,
                     ghost queue: seq<Trb>)
    returns (status: Status, first: Ptr, last: Ptr, ghost td: seq<Trb>)
    requires r.Holds(queue, []) && r.withheld.None? && !r.kind.CommandRing?
    requires r.NumTrbsNeeded(|BulkPieces(addr, len)|) == 0 || r.SafeToGrow()
    modifies r
    ensures status == Success ==> Submitted(r, queue, td, first, last, addr, len)
    ensures status != Success ==> r.withheld.None? && r.Holds(queue, [])
    ensures status == Success <==>
            Ready(epState) && old(r.Affords(|BulkPieces(addr, len)|, budget))
  {
    var num := CountBulkTrbs(addr, len);
    status := r.PrepareRing(epState, num, budget, queue, []);
    first, last, td := r.enqueue, r.enqueue, [];
    if status == Success {
      first, last, td := QueuePrepared(r, addr, len, num, queue);
    }
  }
}
