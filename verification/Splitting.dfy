/** Cutting a transfer buffer into pieces a TRB can describe: no piece crosses a boundary of
    `unit` bytes, where unit is 64 KB, or 1 KB for data cached on chip. */
module Splitting {
  import opened Trbs

  datatype Piece = Piece(addr: nat, len: nat)

  /** TRB_MAX_BUFF_SIZE and EHUB_CACHE_BLOCK_SIZE. */
  datatype Unit = Unit64K | Unit1K {
    function Size(): nat {
      if Unit64K? then 0x10000 else 0x400
    }
  }

  /** addr & (unit - 1): what is left of an address after whole units. */
  function Offset(u: Unit, addr: nat): (r: nat)
    ensures r < u.Size()
  {
    if u.Unit64K? then addr % 0x10000 else addr % 0x400
  }

  /** Which unit an address lies in. */
  function Window(u: Unit, addr: nat): nat {
    if u.Unit64K? then addr / 0x10000 else addr / 0x400
  }

  function Min(a: nat, b: nat): nat {
    if a <= b then a else b
  }

  /** The reference split: as much as fits in front of the next boundary, then the rest. */
  function Pieces(u: Unit, addr: nat, len: nat): (r: seq<Piece>)
    ensures len == 0 <==> r == []
    decreases len
  {
    if len == 0 then []
    else
      var k := Min(u.Size() - Offset(u, addr), len);
      [Piece(addr, k)] + Pieces(u, addr + k, len - k)
  }

  // ------------------------------------------------------- what makes a split right

  function Total(ps: seq<Piece>): nat {
    if ps == [] then 0 else ps[0].len + Total(ps[1..])
  }

  /** The pieces follow one another from addr, none is empty, and each lies in one unit. */
  ghost predicate Sound(u: Unit, addr: nat, ps: seq<Piece>)
    decreases |ps|
  {
    ps == [] ||
    (&& ps[0].addr == addr
     && 0 < ps[0].len
     && Window(u, addr) == Window(u, addr + ps[0].len - 1)
     && Sound(u, addr + ps[0].len, ps[1..]))
  }

  lemma OffsetStep(u: Unit, addr: nat, k: nat)
    requires k <= u.Size() - Offset(u, addr)
    ensures Offset(u, addr + k) == if k == u.Size() - Offset(u, addr) then 0 else Offset(u, addr) + k
    ensures 0 < k ==> Window(u, addr + k - 1) == Window(u, addr)
    ensures Window(u, addr + k) ==
            Window(u, addr) + (if k == u.Size() - Offset(u, addr) then 1 else 0)
  {
    var q, r := Window(u, addr), Offset(u, addr);
    var last := k == u.Size() - r;
    if u.Unit64K? {
      Divided64K(addr + k, if last then q + 1 else q, if last then 0 else r + k);
      if 0 < k {
        Divided64K(addr + k - 1, q, r + k - 1);
      }
    } else {
      Divided1K(addr + k, if last then q + 1 else q, if last then 0 else r + k);
      if 0 < k {
        Divided1K(addr + k - 1, q, r + k - 1);
      }
    }
  }

  lemma Divided64K(a: nat, q: nat, r: nat)
    requires a == 0x10000 * q + r && r < 0x10000
    ensures a / 0x10000 == q && a % 0x10000 == r
  {
  }

  lemma Divided1K(a: nat, q: nat, r: nat)
    requires a == 0x400 * q + r && r < 0x400
    ensures a / 0x400 == q && a % 0x400 == r
  {
  }

  lemma {:induction false} PiecesSound(u: Unit, addr: nat, len: nat)
    ensures Sound(u, addr, Pieces(u, addr, len))
    ensures Total(Pieces(u, addr, len)) == len
    decreases len
  {
    if len != 0 {
      var k := Min(u.Size() - Offset(u, addr), len);
      OffsetStep(u, addr, k);
      PiecesSound(u, addr + k, len - k);
      assert Pieces(u, addr, len)[1..] == Pieces(u, addr + k, len - k);
    }
  }

  /** The number of pieces is the number of units the buffer touches. */
  lemma {:induction false} PiecesCount(u: Unit, addr: nat, len: nat)
    requires 0 < len
    ensures |Pieces(u, addr, len)| == Window(u, addr + len - 1) - Window(u, addr) + 1
    decreases len
  {
    var k := Min(u.Size() - Offset(u, addr), len);
    OffsetStep(u, addr, k);
    if k < len {
      PiecesCount(u, addr + k, len - k);
      assert addr + k + (len - k) - 1 == addr + len - 1;
    }
  }

  /** No sound split of the same bytes has fewer pieces. */
  lemma {:induction false} PiecesMinimal(u: Unit, addr: nat, ps: seq<Piece>)
    requires Sound(u, addr, ps)
    ensures |Pieces(u, addr, Total(ps))| <= |ps|
    decreases |ps|
  {
    if ps != [] {
      var k, more := ps[0].len, Total(ps[1..]);
      PiecesCount(u, addr, k + more);
      if more == 0 {
      } else {
        PiecesMinimal(u, addr + k, ps[1..]);
        PiecesCount(u, addr + k, more);
        WindowNext(u, addr, k);
        assert addr + k + more - 1 == addr + (k + more) - 1;
      }
    }
  }

  lemma WindowNext(u: Unit, addr: nat, k: nat)
    requires 0 < k && Window(u, addr) == Window(u, addr + k - 1)
    ensures Window(u, addr + k) <= Window(u, addr) + 1
  {
  }

  // ---------------------------------------------------------------- counting in advance

  /** ehub_xhci_queue_bulk_tx's count: one TRB for an empty transfer, otherwise one per piece. */
  method CountBulkTrbs(addr: nat, len: nat) returns (num: nat)
    ensures num == if len == 0 then 1 else |Pieces(Unit64K, addr, len)|
  {
    var running := (0x10000 - addr % 0x10000) % 0x10000;
    num := 0;
    if running != 0 || len == 0 {
      num := 1;
    }
    while running < len
      invariant (addr + running) % 0x10000 == 0
      invariant 0 < len ==> num == (addr + running) / 0x10000 - addr / 0x10000
      invariant len == 0 ==> num == 1
      invariant running < len + 0x10000
    {
      num := num + 1;
      running := running + 0x10000;
    }
    if 0 < len {
      PiecesCount(Unit64K, addr, len);
    }
  }

  /** One scatter-gather entry of count_sg_trbs_needed: `room` bytes are still wanted. */
  method CountSgEntry(entry: Piece, room: nat) returns (num: nat)
    requires 0 < entry.len
    ensures 0 < room ==> num == |Pieces(Unit64K, entry.addr, Min(entry.len, room))|
    ensures room == 0 ==> num == if entry.addr % 0x10000 == 0 then 0 else 1
  {
    var running := (0x10000 - entry.addr % 0x10000) % 0x10000;
    num := if running != 0 then 1 else 0;
    ghost var len := Min(entry.len, room);
    while running < entry.len && running < room
      invariant (entry.addr + running) % 0x10000 == 0
      invariant num == (entry.addr + running) / 0x10000 - entry.addr / 0x10000
      invariant running < len + 0x10000
      invariant room == 0 ==> num == if entry.addr % 0x10000 == 0 then 0 else 1
      decreases len + 0x10000 - running
    {
      num := num + 1;
      running := running + 0x10000;
    }
    if 0 < room {
      PiecesCount(Unit64K, entry.addr, len);
    }
  }

  ghost predicate NonEmpty(sg: seq<Piece>) {
    sg != [] && forall i :: 0 <= i < |sg| ==> 0 < sg[i].len
  }

  /** The reference split of the first len bytes of a scatter-gather list. */
  function SgPieces(sg: seq<Piece>, len: nat): seq<Piece> {
    if sg == [] || len == 0 then []
    else
      var k := Min(sg[0].len, len);
      Pieces(Unit64K, sg[0].addr, k) + SgPieces(sg[1..], len - k)
  }

  /** count_sg_trbs_needed.  An empty transfer counts one TRB unless the first entry starts on
      a boundary. */
  method CountSgTrbs(sg: seq<Piece>, len: nat) returns (num: nat)
    requires NonEmpty(sg)
    ensures 0 < len ==> num == |SgPieces(sg, len)|
    ensures len == 0 ==> num == if sg[0].addr % 0x10000 == 0 then 0 else 1
  {
    num := 0;
    var temp: nat, i := len, 0;
    assert sg[0..] == sg;
    while i < |sg|
      invariant 0 <= i <= |sg|
      invariant 0 < len ==> 0 < temp && num + |SgPieces(sg[i..], temp)| == |SgPieces(sg, len)|
      invariant len == 0 ==> i == 0 && num == 0 && temp == 0
    {
      assert sg[i..][0] == sg[i] && sg[i..][1..] == sg[i + 1..];
      var k := CountSgEntry(sg[i], temp);
      num := num + k;
      temp := temp - Min(sg[i].len, temp);
      if temp == 0 {
        return;
      }
      i := i + 1;
    }
  }

  /** DIV_ROUND_UP of the TD's length, counted from the boundary in front of it; at least 1. */
  function CountIsocTrbs(u: Unit, addr: nat, len: nat): (num: nat)
    ensures 0 < num
  {
    var end := len + Offset(u, addr);
    var num := if u.Unit64K? then (end + 0xffff) / 0x10000 else (end + 0x3ff) / 0x400;
    if num == 0 then 1 else num
  }

  /** count_isoc_trbs_needed counts the pieces of the TD. */
  lemma IsocCountIsPieces(u: Unit, addr: nat, len: nat)
    ensures CountIsocTrbs(u, addr, len) == if len == 0 then 1 else |Pieces(u, addr, len)|
  {
    if 0 < len {
      PiecesCount(u, addr, len);
    }
  }

  // ------------------------------------------------------------ the bytes described

  lemma {:induction false} TotalAppend(ps: seq<Piece>, x: Piece)
    ensures Total(ps + [x]) == Total(ps) + x.len
  {
    if ps == [] {
      assert (ps + [x])[1..] == [];
    } else {
      assert (ps + [x])[1..] == ps[1..] + [x];
      TotalAppend(ps[1..], x);
    }
  }

  /** The byte addresses of a buffer, in order. */
  function Bytes(addr: nat, len: nat): (r: seq<nat>)
    ensures |r| == len
    decreases len
  {
    if len == 0 then [] else [addr] + Bytes(addr + 1, len - 1)
  }

  /** The byte addresses a list of pieces describes, in order. */
  function AllBytes(ps: seq<Piece>): (r: seq<nat>)
    ensures |r| == Total(ps)
  {
    if ps == [] then [] else Bytes(ps[0].addr, ps[0].len) + AllBytes(ps[1..])
  }

  lemma {:induction false} BytesSplit(addr: nat, k: nat, len: nat)
    requires k <= len
    ensures Bytes(addr, len) == Bytes(addr, k) + Bytes(addr + k, len - k)
    decreases k
  {
    if k != 0 {
      BytesSplit(addr + 1, k - 1, len - 1);
    }
  }

  lemma {:induction false} AllBytesConcat(ps: seq<Piece>, qs: seq<Piece>)
    ensures AllBytes(ps + qs) == AllBytes(ps) + AllBytes(qs)
  {
    if ps == [] {
      assert ps + qs == qs;
    } else {
      assert (ps + qs)[1..] == ps[1..] + qs;
      AllBytesConcat(ps[1..], qs);
    }
  }

  lemma AllBytesCons(p: Piece, ps: seq<Piece>)
    ensures AllBytes([p] + ps) == Bytes(p.addr, p.len) + AllBytes(ps)
  {
    assert ([p] + ps)[1..] == ps;
  }

  lemma FirstPiece(u: Unit, addr: nat, len: nat) returns (k: nat)
    requires 0 < len
    ensures 0 < k <= len && Pieces(u, addr, len) == [Piece(addr, k)] + Pieces(u, addr + k, len - k)
  {
    k := Min(u.Size() - Offset(u, addr), len);
  }

  /** Pieces describe every byte of the buffer once, in order. */
  lemma {:induction false} PiecesCover(u: Unit, addr: nat, len: nat)
    ensures AllBytes(Pieces(u, addr, len)) == Bytes(addr, len)
    decreases len
  {
    if len != 0 {
      var k := FirstPiece(u, addr, len);
      PiecesCover(u, addr + k, len - k);
      BytesSplit(addr, k, len);
      AllBytesCons(Piece(addr, k), Pieces(u, addr + k, len - k));
    }
  }

  lemma SgHead(sg: seq<Piece>, len: nat)
    requires sg != [] && 0 < len
    ensures var k := Min(sg[0].len, len);
            AllBytes(SgPieces(sg, len)) ==
            Bytes(sg[0].addr, k) + AllBytes(SgPieces(sg[1..], len - k))
  {
    var k := Min(sg[0].len, len);
    PiecesCover(Unit64K, sg[0].addr, k);
    AllBytesConcat(Pieces(Unit64K, sg[0].addr, k), SgPieces(sg[1..], len - k));
  }

  /** A scatter-gather transfer describes the first len bytes of the list, in order (all of
      them if the list is shorter). */
  lemma {:induction false} SgCover(sg: seq<Piece>, len: nat)
    ensures AllBytes(SgPieces(sg, len)) == AllBytes(sg)[..Min(len, Total(sg))]
  {
    if sg == [] || len == 0 {
      assert AllBytes(SgPieces(sg, len)) == [];
    } else {
      var k := Min(sg[0].len, len);
      SgHead(sg, len);
      SgCover(sg[1..], len - k);
      BytesSplit(sg[0].addr, k, sg[0].len);
      Prefix(Bytes(sg[0].addr, sg[0].len), AllBytes(sg[1..]), k, len, Total(sg[1..]));
    }
  }

  /** The first len items of two lists in a row, k of them from the first. */
  lemma Prefix(a: seq<nat>, b: seq<nat>, k: nat, len: nat, total: nat)
    requires k == Min(|a|, len) && |b| == total
    ensures a[..k] + b[..Min(len - k, total)] == (a + b)[..Min(len, |a| + total)]
  {
  }

  /** No piece is empty or crosses a 64 KB boundary. */
  lemma {:induction false} SoundEach(u: Unit, addr: nat, ps: seq<Piece>, i: nat)
    requires Sound(u, addr, ps) && i < |ps|
    ensures 0 < ps[i].len && Window(u, ps[i].addr) == Window(u, ps[i].addr + ps[i].len - 1)
    decreases i
  {
    if i != 0 {
      SoundEach(u, addr + ps[0].len, ps[1..], i - 1);
    }
  }

  lemma {:induction false} SgSound(sg: seq<Piece>, len: nat, i: nat)
    requires i < |SgPieces(sg, len)|
    ensures var p := SgPieces(sg, len)[i];
            0 < p.len && p.addr / 0x10000 == (p.addr + p.len - 1) / 0x10000
    decreases sg
  {
    var k := Min(sg[0].len, len);
    var here := Pieces(Unit64K, sg[0].addr, k);
    if i < |here| {
      PiecesSound(Unit64K, sg[0].addr, k);
      SoundEach(Unit64K, sg[0].addr, here, i);
    } else {
      SgSound(sg[1..], len - k, i - |here|);
    }
  }

  // ------------------------------------------------------------- the TRBs of a TD

  /** A TRB of a TD: all but the last are chained, the last one interrupts. */
  function TdTrb(p: Piece, last: bool, cycle: bool): Trb {
    Trb(p.addr, p.len, Normal, !last, last, false, cycle)
  }

  /** The TD made of some pieces, with every cycle bit left blank: only its last TRB lacks the
      chain bit, and only that one interrupts. */
  function ChainedTd(ps: seq<Piece>): seq<Trb> {
    seq(|ps|, i requires 0 <= i < |ps| => TdTrb(ps[i], i == |ps| - 1, false))
  }

  /** An isochronous TD starts with a TRB of its own type. */
  function IsocTd(ps: seq<Piece>): seq<Trb> {
    seq(|ps|, i requires 0 <= i < |ps| => IsocTrb(ps[i], i == 0, i == |ps| - 1))
  }

  function IsocTrb(p: Piece, first: bool, last: bool): Trb {
    TdTrb(p, last, false).(typ := if first then Isoc else Normal)
  }

  /** The TRBs of one TD made of some pieces: TRB i describes piece i, all but the last are
      chained, the last one alone interrupts, and all but perhaps the first are normal TRBs. */
  ghost predicate IsTd(trbs: seq<Trb>, ps: seq<Piece>, first: TrbType) {
    && |trbs| == |ps|
    && forall i :: 0 <= i < |trbs| ==>
         && trbs[i].ptr == ps[i].addr && trbs[i].len == ps[i].len
         && (trbs[i].chain <==> i < |trbs| - 1)
         && (trbs[i].ioc <==> i == |trbs| - 1)
         && trbs[i].typ == (if i == 0 then first else Normal)
  }

  lemma ChainedTdIsTd(ps: seq<Piece>)
    ensures IsTd(ChainedTd(ps), ps, Normal) && IsTd(IsocTd(ps), ps, Isoc)
  {
  }

  /** The TRBs queued while more are to come. */
  function Links(ps: seq<Piece>): seq<Trb> {
    seq(|ps|, i requires 0 <= i < |ps| => TdTrb(ps[i], false, false))
  }

  lemma LinksMore(ps: seq<Piece>, p: Piece)
    ensures Links(ps) + [TdTrb(p, false, false)] == Links(ps + [p])
    ensures Links(ps) + [TdTrb(p, true, false)] == ChainedTd(ps + [p])
  {
  }

  // ---------------------------------------------------------------------- queueing

  /** A TRB takes what fits into its window, the entry and the request. */
  function TrbLen(head: Piece, want: nat): (k: nat)
    ensures k <= head.len && k <= want
    ensures 0 < head.len && 0 < want ==> 0 < k
  {
    Min(Min(0x10000 - Offset(Unit64K, head.addr), head.len), want)
  }

  lemma PiecesHead(addr: nat, len: nat)
    requires 0 < len
    ensures var k := Min(0x10000 - Offset(Unit64K, addr), len);
            Pieces(Unit64K, addr, len) == [Piece(addr, k)] + Pieces(Unit64K, addr + k, len - k)
  {
  }

  lemma Joined(first: Piece, more: seq<Piece>, rest: seq<Piece>, tail: seq<Piece>)
    requires more + rest == tail
    ensures ([first] + more) + rest == [first] + tail
  {
  }

  /** What follows the TRB: the rest of its entry, unless that or the request is used up. */
  lemma SgRest(head: Piece, rest: seq<Piece>, want: nat, k: nat, m: nat, left: seq<Piece>)
    requires m == Min(head.len, want) && 0 < k <= m
    requires left == if k == head.len then rest else [Piece(head.addr + k, head.len - k)] + rest
    ensures Pieces(Unit64K, head.addr + k, m - k) + SgPieces(rest, want - m) ==
            SgPieces(left, want - k)
  {
    if k < head.len && k < want {
      SgCons(Piece(head.addr + k, head.len - k), rest, want - k);
    }
  }

  lemma SgTake(head: Piece, rest: seq<Piece>, want: nat, k: nat, left: seq<Piece>)
    requires 0 < head.len && 0 < want && k == TrbLen(head, want)
    requires left == if k == head.len then rest else [Piece(head.addr + k, head.len - k)] + rest
    ensures SgPieces([head] + rest, want) == [Piece(head.addr, k)] + SgPieces(left, want - k)
  {
    var m := Min(head.len, want);
    SgCons(head, rest, want);
    PiecesHead(head.addr, m);
    SgRest(head, rest, want, k, m, left);
    Joined(Piece(head.addr, k), Pieces(Unit64K, head.addr + k, m - k), SgPieces(rest, want - m),
           SgPieces(left, want - k));
  }

  lemma SgCons(head: Piece, rest: seq<Piece>, want: nat)
    requires 0 < want
    ensures var m := Min(head.len, want);
            SgPieces([head] + rest, want) == Pieces(Unit64K, head.addr, m) + SgPieces(rest, want - m)
  {
    assert ([head] + rest)[1..] == rest;
  }

  /** ps has been queued and `want` bytes of `left` are still to come. */
  ghost predicate Partway(sg: seq<Piece>, len: nat, ps: seq<Piece>, left: seq<Piece>, want: nat) {
    var partway :=
      && want <= len
      && Total(ps) == len - want
      && (0 < len ==> ps + SgPieces(left, want) == SgPieces(sg, len));
    partway
  }

  /** One turn of queue_bulk_sg_tx. */
  lemma PartwayStep(sg: seq<Piece>, len: nat, ps: seq<Piece>, head: Piece, rest: seq<Piece>,
                    want: nat, k: nat, left: seq<Piece>)
    requires Partway(sg, len, ps, [head] + rest, want)
    requires 0 < head.len && (len == 0 || 0 < want) && k == TrbLen(head, want)
    requires left == if k == head.len then rest else [Piece(head.addr + k, head.len - k)] + rest
    ensures Partway(sg, len, ps + [Piece(head.addr, k)], left, want - k)
  {
    TotalAppend(ps, Piece(head.addr, k));
    if 0 < len {
      SgTake(head, rest, want, k, left);
    }
  }

  /** Nothing is left to queue once the request or the list is used up. */
  lemma PartwayEnd(sg: seq<Piece>, len: nat, ps: seq<Piece>, left: seq<Piece>, want: nat)
    requires Partway(sg, len, ps, left, want) && (want == 0 || left == [])
    ensures 0 < len ==> ps == SgPieces(sg, len)
    ensures 0 < len ==> len - want == Min(len, Total(sg))
  {
    SgCover(sg, len);
  }

  /** The pieces of a scatter-gather transfer; an empty one still takes one TRB. */
  function SgTransfer(sg: seq<Piece>, len: nat): seq<Piece>
    requires sg != []
  {
    if len == 0 then [Piece(sg[0].addr, 0)] else SgPieces(sg, len)
  }

  /** The loop of queue_bulk_sg_tx, in front of a TRB: `want` bytes of `left` and, if the
      count was right, `trbsLeft` TRBs are still to come. */
  ghost predicate Queueing(sg: seq<Piece>, len: nat, num: int, ps: seq<Piece>, trbs: seq<Trb>,
                           left: seq<Piece>, want: nat, trbsLeft: int) {
    var queueing :=
      && Partway(sg, len, ps, left, want)
      && trbs == Links(ps)
      && trbsLeft == num - |ps|
      && (if len == 0 then ps == [] && num <= 1 else 0 < want && num == |SgPieces(sg, len)|);
    queueing
  }

  /** The loop behind its last TRB. */
  ghost predicate AllQueued(sg: seq<Piece>, len: nat, num: int, trbs: seq<Trb>, want: nat,
                            trbsLeft: int)
    requires sg != []
  {
    var queued :=
      && trbs == ChainedTd(SgTransfer(sg, len))
      && (trbsLeft == 0 <==> 0 < len || num == 1)
      && len - want == Min(len, Total(sg));
    queued
  }

  /** The TRB just queued was the TD's last exactly when nothing is left to queue. */
  lemma LastIsLast(sg: seq<Piece>, len: nat, num: int, ps: seq<Piece>, left: seq<Piece>, want: nat)
    requires Partway(sg, len, ps, left, want) && 0 < len && num == |SgPieces(sg, len)|
    requires left != [] ==> 0 < left[0].len
    ensures num == |ps| <==> want == 0 || left == []
  {
    assert |ps + SgPieces(left, want)| == |ps| + |SgPieces(left, want)|;
  }

  /** Behind a TRB with something left to queue. */
  lemma QueueingGoesOn(sg: seq<Piece>, len: nat, num: int, ps: seq<Piece>, trbs: seq<Trb>,
                       p: Piece, left: seq<Piece>, want: nat, trbsLeft: int)
    requires Partway(sg, len, ps + [p], left, want) && 0 < want && left != [] && 0 < left[0].len
    requires trbs == Links(ps) && trbsLeft == num - |ps|
    requires 0 < len && num == |SgPieces(sg, len)|
    ensures Queueing(sg, len, num, ps + [p], trbs + [TdTrb(p, trbsLeft <= 1, false)],
                     left, want, trbsLeft - 1)
  {
    LastIsLast(sg, len, num, ps + [p], left, want);
    assert |SgPieces(left, want)| != 0;
    assert |(ps + [p]) + SgPieces(left, want)| == |ps| + 1 + |SgPieces(left, want)|;
    LinksMore(ps, p);
  }

  /** Behind the last TRB. */
  lemma QueueingEnds(sg: seq<Piece>, len: nat, num: int, ps: seq<Piece>, trbs: seq<Trb>,
                     p: Piece, left: seq<Piece>, want: nat, trbsLeft: int)
    requires sg != [] && Partway(sg, len, ps + [p], left, want) && (want == 0 || left == [])
    requires trbs == Links(ps) && trbsLeft == num - |ps|
    requires 0 < len && num == |SgPieces(sg, len)|
    ensures AllQueued(sg, len, num, trbs + [TdTrb(p, trbsLeft <= 1, false)], want, trbsLeft - 1)
  {
    PartwayEnd(sg, len, ps + [p], left, want);
    LinksMore(ps, p);
  }

  lemma QueueingEmpty(sg: seq<Piece>, num: int, ps: seq<Piece>, trbs: seq<Trb>,
                      head: Piece, rest: seq<Piece>, want: nat, trbsLeft: int)
    requires Queueing(sg, 0, num, ps, trbs, [head] + rest, want, trbsLeft)
    requires sg != [] && head == sg[0]
    ensures want == 0
    ensures AllQueued(sg, 0, num, trbs + [TdTrb(Piece(head.addr, 0), trbsLeft <= 1, false)], 0,
                      trbsLeft - 1)
  {
    LinksMore([], Piece(head.addr, 0));
    assert ps == [];
  }

  lemma QueueingMore(sg: seq<Piece>, len: nat, num: int, ps: seq<Piece>, trbs: seq<Trb>,
                     head: Piece, rest: seq<Piece>, want: nat, trbsLeft: int, k: nat,
                     left: seq<Piece>)
    requires Queueing(sg, len, num, ps, trbs, [head] + rest, want, trbsLeft) && sg != []
    requires 0 < len && 0 < head.len && (rest != [] ==> 0 < rest[0].len) && k == TrbLen(head, want)
    requires left == if k == head.len then rest else [Piece(head.addr + k, head.len - k)] + rest
    ensures var p := Piece(head.addr, k);
            var trbs' := trbs + [TdTrb(p, trbsLeft <= 1, false)];
            if want == k || left == [] then AllQueued(sg, len, num, trbs', want - k, trbsLeft - 1)
            else Queueing(sg, len, num, ps + [p], trbs', left, want - k, trbsLeft - 1)
  {
    PartwayStep(sg, len, ps, head, rest, want, k, left);
    if want == k || left == [] {
      QueueingEnds(sg, len, num, ps, trbs, Piece(head.addr, k), left, want - k, trbsLeft);
    } else {
      QueueingGoesOn(sg, len, num, ps, trbs, Piece(head.addr, k), left, want - k, trbsLeft);
    }
  }

  /** The same with the list entry the loop is in and what is left of it. */
  ghost predicate AtTrb(sg: seq<Piece>, len: nat, num: int, ps: seq<Piece>, trbs: seq<Trb>,
                        i: nat, head: Piece, want: nat, trbsLeft: int) {
    var at :=
      && i < |sg| && 0 < head.len
      && (len == 0 ==> head == sg[0])
      && Queueing(sg, len, num, ps, trbs, [head] + sg[i + 1..], want, trbsLeft);
    at
  }

  lemma AtFirst(sg: seq<Piece>, len: nat, num: int)
    requires NonEmpty(sg) && (if len == 0 then num <= 1 else num == |SgPieces(sg, len)|)
    ensures AtTrb(sg, len, num, [], [], 0, sg[0], len, num)
  {
    assert [sg[0]] + sg[1..] == sg;
  }

  /** One turn of the loop, with a TRB of k bytes. */
  lemma AtNext(sg: seq<Piece>, len: nat, num: int, ps: seq<Piece>, trbs: seq<Trb>, i: nat,
               head: Piece, want: nat, trbsLeft: int, k: nat)
    requires NonEmpty(sg) && AtTrb(sg, len, num, ps, trbs, i, head, want, trbsLeft)
    requires k == TrbLen(head, want)
    ensures var p := Piece(head.addr, k);
            var trbs' := trbs + [TdTrb(p, trbsLeft <= 1, false)];
            if want == k || (k == head.len && i + 1 == |sg|) then
              AllQueued(sg, len, num, trbs', want - k, trbsLeft - 1)
            else if k == head.len then
              AtTrb(sg, len, num, ps + [p], trbs', i + 1, sg[i + 1], want - k, trbsLeft - 1)
            else
              AtTrb(sg, len, num, ps + [p], trbs', i, Piece(head.addr + k, head.len - k), want - k,
                    trbsLeft - 1)
  {
    var left := if k == head.len then sg[i + 1..]
                else [Piece(head.addr + k, head.len - k)] + sg[i + 1..];
    if len == 0 {
      QueueingEmpty(sg, num, ps, trbs, head, sg[i + 1..], want, trbsLeft);
    } else {
      QueueingMore(sg, len, num, ps, trbs, head, sg[i + 1..], want, trbsLeft, k, left);
    }
    if k == head.len && i + 1 < |sg| {
      assert left == [sg[i + 1]] + sg[i + 2..];
    }
  }

  /** The TRBs queue_bulk_sg_tx queues, with what check_trb_math then compares: TRBs counted
      but not queued, and bytes queued.  The chain bit and the interrupt are decided by the
      count alone.  The loop runs at least once, even for an empty transfer, and stops when
      the list is used up. */
  method QueueSg(sg: seq<Piece>, len: nat)
    returns (trbs: seq<Trb>, trbsLeft: int, running: nat)
    requires NonEmpty(sg)
    ensures trbs == ChainedTd(SgTransfer(sg, len))
    ensures IsTd(trbs, if len == 0 then [Piece(sg[0].addr, 0)] else SgPieces(sg, len), Normal)
    ensures trbsLeft == 0 <==> 0 < len || sg[0].addr % 0x10000 != 0
    ensures running == Min(len, Total(sg))
  {
    trbsLeft := CountSgTrbs(sg, len);
    var i, head := 0, sg[0];
    var trbLen := TrbLen(head, len);
    running := 0;
    trbs := [];
    ghost var num, ps := trbsLeft, [];
    AtFirst(sg, len, num);
    while true
      invariant running <= len && (0 < len ==> running < len)
      invariant trbLen == TrbLen(head, len - running)
      invariant AtTrb(sg, len, num, ps, trbs, i, head, len - running, trbsLeft)
      decreases len - running
    {
      AtNext(sg, len, num, ps, trbs, i, head, len - running, trbsLeft, trbLen);
      trbs := trbs + [TdTrb(Piece(head.addr, trbLen), trbsLeft <= 1, false)];
      ps := ps + [Piece(head.addr, trbLen)];
      trbsLeft := trbsLeft - 1;
      running := running + trbLen;
      head := Piece(head.addr + trbLen, head.len - trbLen);
      if head.len == 0 {
        if i + 1 == |sg| {
          break;
        }
        i := i + 1;
        head := sg[i];
      }
      trbLen := TrbLen(head, len - running);
      if running >= len {
        break;
      }
    }
    assert AllQueued(sg, len, num, trbs, len - running, trbsLeft);
    ChainedTdIsTd(SgTransfer(sg, len));
  }

  /** What one TD of an isochronous URB queues when it has been given num TRBs. */
  function Cut(u: Unit, addr: nat, len: nat, num: nat): seq<Piece>
    decreases num
  {
    if num == 0 then []
    else
      var k := Min(u.Size() - Offset(u, addr), len);
      [Piece(addr, k)] + Cut(u, addr + k, len - k, num - 1)
  }

  lemma CutHead(u: Unit, addr: nat, len: nat, num: nat, k: nat)
    requires 0 < num && k == Min(u.Size() - Offset(u, addr), len)
    ensures Cut(u, addr, len, num) == [Piece(addr, k)] + Cut(u, addr + k, len - k, num - 1)
  {
  }

  /** Too few TRBs lose the end of the TD; too many end in empty TRBs. */
  lemma {:induction false} CutIsPieces(u: Unit, addr: nat, len: nat, num: nat)
    ensures var all := Pieces(u, addr, len);
            Cut(u, addr, len, num) ==
            if num <= |all| then all[..num]
            else all + seq(num - |all|, _ => Piece(addr + len, 0))
    decreases num
  {
    if num != 0 {
      var k := Min(u.Size() - Offset(u, addr), len);
      CutIsPieces(u, addr + k, len - k, num - 1);
      if len == 0 {
        assert seq(num, _ => Piece(addr, 0)) ==
               [Piece(addr, 0)] + seq(num - 1, _ => Piece(addr, 0));
      }
    }
  }

  lemma {:induction false} CutTotal(u: Unit, addr: nat, len: nat, num: nat)
    ensures Total(Cut(u, addr, len, num)) <= len
    ensures Total(Cut(u, addr, len, num)) == len <==> |Pieces(u, addr, len)| <= num
    decreases num
  {
    if num != 0 {
      var k := Min(u.Size() - Offset(u, addr), len);
      CutTotal(u, addr + k, len - k, num - 1);
      assert Cut(u, addr, len, num)[1..] == Cut(u, addr + k, len - k, num - 1);
    }
  }

  /** The TRBs are counted from the DMA address and cut from the buffer address; the TD comes
      out whole exactly when the buffer address would not have counted more, in particular
      when both agree modulo the unit. */
  lemma IsocExact(u: Unit, buffer: nat, dma: nat, len: nat)
    ensures var ps := Cut(u, buffer, len, CountIsocTrbs(u, dma, len));
            && (Total(ps) == len <==> CountIsocTrbs(u, buffer, len) <= CountIsocTrbs(u, dma, len))
            && (Offset(u, buffer) == Offset(u, dma) ==>
                  ps == if len == 0 then [Piece(buffer, 0)] else Pieces(u, buffer, len))
  {
    var num := CountIsocTrbs(u, dma, len);
    CutTotal(u, buffer, len, num);
    CutIsPieces(u, buffer, len, num);
    IsocCountIsPieces(u, buffer, len);
  }

  /** ps has been cut, `left` TRBs and `remain` bytes are still to come. */
  ghost predicate CutSoFar(all: seq<Piece>, u: Unit, ps: seq<Piece>, addr: nat, remain: nat, left: nat) {
    var soFar := ps + Cut(u, addr, remain, left) == all;
    soFar
  }

  lemma CutMore(all: seq<Piece>, u: Unit, ps: seq<Piece>, addr: nat, remain: nat, left: nat, k: nat)
    requires CutSoFar(all, u, ps, addr, remain, left) && 0 < left
    requires k == Min(u.Size() - Offset(u, addr), remain)
    ensures CutSoFar(all, u, ps + [Piece(addr, k)], addr + k, remain - k, left - 1)
  {
    CutHead(u, addr, remain, left, k);
    Appended(ps, Piece(addr, k), Cut(u, addr + k, remain - k, left - 1));
  }

  lemma Appended(ps: seq<Piece>, p: Piece, rest: seq<Piece>)
    ensures ps + ([p] + rest) == (ps + [p]) + rest
  {
  }

  /** The TRBs of an isochronous TD of num TRBs queued so far. */
  function IsocSoFar(ps: seq<Piece>, num: nat): seq<Trb> {
    seq(|ps|, i requires 0 <= i < |ps| => IsocTrb(ps[i], i == 0, i == num - 1))
  }

  lemma IsocMore(ps: seq<Piece>, p: Piece, num: nat)
    ensures IsocSoFar(ps + [p], num) ==
            IsocSoFar(ps, num) + [IsocTrb(p, |ps| == 0, |ps| == num - 1)]
  {
  }

  /** The inner loop of xhci_queue_isoc_tx. */
  method CutTd(u: Unit, buffer: nat, len: nat, num: nat)
    returns (trbs: seq<Trb>, running: nat)
    ensures trbs == IsocTd(Cut(u, buffer, len, num))
    ensures running == Total(Cut(u, buffer, len, num))
  {
    var addr, remain: nat, j, first := buffer, len, 0, true;
    ghost var all := Cut(u, buffer, len, num);
    ghost var ps := [];
    trbs, running := [], 0;
    while j < num
      invariant 0 <= j <= num && |ps| == j
      invariant running == Total(ps) && first == (j == 0)
      invariant trbs == IsocSoFar(ps, num)
      invariant CutSoFar(all, u, ps, addr, remain, num - j)
    {
      var k := Min(u.Size() - Offset(u, addr), remain);
      CutMore(all, u, ps, addr, remain, num - j, k);
      TotalAppend(ps, Piece(addr, k));
      IsocMore(ps, Piece(addr, k), num);
      trbs := trbs + [IsocTrb(Piece(addr, k), first, !(j < num - 1))];
      first := false;
      ps := ps + [Piece(addr, k)];
      running := running + k;
      addr := addr + k;
      remain := remain - k;
      j := j + 1;
    }
    assert ps == all;
  }

  /** One TD of xhci_queue_isoc_tx: its TRBs, and whether their lengths add up. */
  method QueueIsocTd(u: Unit, buffer: nat, dma: nat, len: nat) returns (trbs: seq<Trb>, ok: bool)
    ensures trbs == IsocTd(Cut(u, buffer, len, CountIsocTrbs(u, dma, len)))
    ensures IsTd(trbs, Cut(u, buffer, len, CountIsocTrbs(u, dma, len)), Isoc)
    ensures ok <==> CountIsocTrbs(u, buffer, len) <= CountIsocTrbs(u, dma, len)
  {
    var running;
    trbs, running := CutTd(u, buffer, len, CountIsocTrbs(u, dma, len));
    ok := running == len;
    IsocExact(u, buffer, dma, len);
    ChainedTdIsTd(Cut(u, buffer, len, CountIsocTrbs(u, dma, len)));
  }
}
