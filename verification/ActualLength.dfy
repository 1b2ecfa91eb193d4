/** How many bytes of a bulk TD a transfer event accounts for. */
module ActualLength {
  import opened Trbs
  import opened Laps
  import opened Segments
  import opened Splitting
  import opened Submission
  import opened Cancel

  const WORD: nat := 0x1_0000_0000

  datatype Code = Done | Short | Stopped | StoppedInvalid | Failed

  /** TRBs whose length the walk does not add. */
  predicate Silent(t: Trb) {
    t.typ.Link? || t.typ.TransferNoop?
  }

  /** The bytes described by a stretch of ring, no-ops and links left out. */
  function Data(s: seq<Trb>): nat {
    if s == [] then 0 else (if Silent(s[0]) then 0 else s[0].len) + Data(s[1..])
  }

  /** A TRB counts with its length unless it is a link or a transfer no-op. */
  lemma DataOfOne(t: Trb)
    ensures Data([t]) == if t.typ == Link || t.typ == TransferNoop then 0 else t.len
  {
    assert [t][1..] == [];
  }

  lemma {:induction false} DataConcat(s: seq<Trb>, u: seq<Trb>)
    ensures Data(s + u) == Data(s) + Data(u)
  {
    if s == [] {
      assert s + u == u;
    } else {
      assert (s + u)[1..] == s[1..] + u;
      DataConcat(s[1..], u);
    }
  }

  /** Links carry no data: only the work of a stretch counts. */
  lemma {:induction false} DataOfWork(s: seq<Trb>)
    ensures Data(s) == Data(Work(s))
  {
    if s != [] {
      DataOfWork(s[1..]);
      var w := if s[0].typ.Link? then [] else [s[0]];
      DataConcat(w, Work(s[1..]));
      assert s[0].typ.Link? || (w[0] == s[0] && w[1..] == []);
    }
  }

  /** 32-bit wrap-around. */
  function Wrap(x: nat): (r: nat)
    ensures r < WORD && (x < WORD ==> r == x)
  {
    x % WORD
  }

  lemma WrapAdd(a: nat, b: nat)
    ensures Wrap(Wrap(a) + b) == Wrap(a + b)
  {
  }

  /** A 32-bit sum of some bytes, with `left` more to come out of `all`. */
  ghost predicate Summed(sum: nat, left: nat, all: nat) {
    var summed := left <= all && sum == Wrap(all - left);
    summed
  }

  /** The walk of the slow path, from the dequeue pointer to the event TRB, in 32 bits. */
  method SlowWalk(ghost order: seq<nat>, next: seq<nat>, mem: seq<seq<Trb>>, deq: Ptr, ev: Ptr)
    returns (sum: nat)
    requires Circle(order, next, mem) && OnRing(order, deq) && OnRing(order, ev)
    ensures Pos(order, deq) < |Flat(order, mem)| && Pos(order, ev) < |Flat(order, mem)|
    ensures sum == Wrap(Data(Span(Flat(order, mem), Pos(order, deq), Pos(order, ev))))
  {
    ghost var t := Flat(order, mem);
    PosSlot(order, mem, deq);
    PosSlot(order, mem, ev);
    ghost var v := Pos(order, ev);
    ghost var all := Data(Span(t, Pos(order, deq), v));
    var cur := deq;
    sum := 0;
    while cur != ev
      invariant OnRing(order, cur) && Pos(order, cur) < |t|
      invariant Summed(sum, Data(Span(t, Pos(order, cur), v)), all)
      decreases Dist(|t|, Pos(order, cur), v)
    {
      PosInjective(order, cur, ev);
      PosSlot(order, mem, cur);
      NextIsNext(order, next, mem, cur);
      DataFirst(t, Pos(order, cur), v);
      var trb := mem[cur.seg][cur.idx];
      if !Silent(trb) {
        SummedMore(sum, Data(Span(t, Pos(order, cur), v)), all, trb.len);
        sum := Wrap(sum + trb.len);
      }
      cur := NextTrb(next, mem, cur);
    }
    assert Data(Span(t, v, v)) == 0;
  }

  lemma SummedMore(sum: nat, left: nat, all: nat, k: nat)
    requires Summed(sum, left, all) && k <= left
    ensures Summed(Wrap(sum + k), left - k, all)
  {
    WrapAdd(all - left, k);
  }

  lemma DataFirst(t: seq<Trb>, a: nat, b: nat)
    requires a < |t| && b < |t| && a != b
    ensures Next(|t|, a) < |t|
    ensures Data(Span(t, a, b)) ==
            (if Silent(t[a]) then 0 else t[a].len) + Data(Span(t, Next(|t|, a), b))
    ensures Dist(|t|, Next(|t|, a), b) < Dist(|t|, a, b)
  {
    SpanFirst(t, a, b);
  }

  // -------------------------------------------------- a TD built by the queueing code

  /** A bulk TD lies on the ring from f to l, and what lies between dequeue and f carries no
      data. */
  ghost predicate TdOn(t: seq<Trb>, d: nat, f: nat, l: nat, addr: nat, len: nat) {
    Laid(t, d, f, l, addr, len) && Data(Span(t, d, f)) == 0
  }

  // ------------------------------------------------------ TDs cancelled in front of it

  /** What is not transferred is not counted. */
  lemma {:induction false} NoTransfersNoData(s: seq<Trb>)
    requires Transfers(s) == []
    ensures Data(s) == 0
  {
    if s != [] {
      assert Silent(s[0]);
      NoTransfersNoData(s[1..]);
    }
  }

  lemma {:induction false} DataMonotone(s: seq<Trb>, u: seq<Trb>)
    requires |u| == |s| && forall i :: 0 <= i < |s| ==> u[i] == s[i] || u[i] == NoopSlot(s[i])
    ensures Data(u) <= Data(s)
  {
    if s != [] {
      DataMonotone(s[1..], u[1..]);
    }
  }

  /** A stretch without data stays without, whatever is cancelled. */
  lemma SilentStays(t: seq<Trb>, a: nat, b: nat, f: nat, k: nat)
    requires a < |t| && b < |t| && f < |t| && Data(Span(t, a, b)) == 0
    ensures Data(Span(Nooped(t, f, k), a, b)) == 0
  {
    DataMonotone(Span(t, a, b), Span(Nooped(t, f, k), a, b));
  }

  lemma AheadOf(n: nat, d: nat, f: nat, l: nat, g: nat, j: nat)
    requires d < n && f < n && l < n && g < n && j < n
    requires Dist(n, d, f) <= Dist(n, d, l) < Dist(n, d, g) <= Dist(n, d, j)
    ensures Dist(n, f, l) + 1 <= Dist(n, f, j)
  {
  }

  /** A TD stays where it is when one in front of it is cancelled. */
  lemma LaidStays(t: seq<Trb>, d: nat, f: nat, l: nat, g: nat, m: nat, addr: nat, len: nat)
    requires Laid(t, d, g, m, addr, len) && f < |t| && l < |t|
    requires Dist(|t|, d, f) <= Dist(|t|, d, l) < Dist(|t|, d, g)
    ensures Laid(Nooped(t, f, Dist(|t|, f, l) + 1), d, g, m, addr, len)
  {
    var n, k := |t|, Dist(|t|, f, l) + 1;
    forall j | 0 <= j < n && (InSpan(n, g, j, m) || j == m) ensures k <= Dist(n, f, j) {
      Between(n, d, g, m, j);
      AheadOf(n, d, f, l, g, j);
    }
    NoopedOutside(t, f, k, g, m);
  }

  /** The queueing code lays a TD on the ring, and cancelling what lies in front of it leaves
      nothing there that carries data: the walk may start at dequeue. */
  lemma CancelledInFront(t: seq<Trb>, d: nat, f: nat, l: nat, g: nat, m: nat, addr: nat, len: nat)
    requires Laid(t, d, g, m, addr, len) && f < |t| && l < |t|
    requires Dist(|t|, d, f) <= Dist(|t|, d, l) < Dist(|t|, d, g) && Next(|t|, l) < |t|
    requires Data(Span(t, d, f)) == 0 && Data(Span(t, Next(|t|, l), g)) == 0
    ensures TdOn(Nooped(t, f, Dist(|t|, f, l) + 1), d, g, m, addr, len)
  {
    var k := Dist(|t|, f, l) + 1;
    var u := Nooped(t, f, k);
    LaidStays(t, d, f, l, g, m, addr, len);
    NoopedSpans(t, f, l, d, g);
    NoTransfersNoData(Span(u, f, Next(|t|, l)));
    BehindTd(|t|, d, f, l, g);
    SpanSplit(u, d, f, g);
    SpanSplit(u, f, Next(|t|, l), g);
    DataConcat(Span(u, d, f), Span(u, f, g));
    DataConcat(Span(u, f, Next(|t|, l)), Span(u, Next(|t|, l), g));
  }

  lemma {:induction false} DataOfTd(s: seq<Trb>, addr: nat, len: nat, k: nat)
    requires k <= |s| <= |BulkTd(addr, len)|
    requires Blanked(s) == BulkTd(addr, len)[..|s|]
    ensures k <= |BulkPieces(addr, len)|
    ensures Data(s[..k]) == Total(BulkPieces(addr, len)[..k])
    decreases k
  {
    var ps := BulkPieces(addr, len);
    if k != 0 {
      DataOfTd(s, addr, len, k - 1);
      assert s[..k] == s[..k - 1] + [s[k - 1]] && ps[..k] == ps[..k - 1] + [ps[k - 1]];
      DataConcat(s[..k - 1], [s[k - 1]]);
      TotalAppend(ps[..k - 1], ps[k - 1]);
      assert Blanked(s)[k - 1] == BulkTd(addr, len)[k - 1];
      assert Data([s[k - 1]]) == s[k - 1].len;
    }
  }

  /** The work in front of slot v is a proper prefix of the TD's. */
  lemma TdPrefix(t: seq<Trb>, f: nat, l: nat, v: nat)
    requires f < |t| && l < |t| && v < |t| && !t[l].typ.Link?
    requires Dist(|t|, f, v) <= Dist(|t|, f, l)
    ensures var td := Work(Span(t, f, l) + [t[l]]);
            var k := |Work(Span(t, f, v))|;
            && k < |td|
            && td[..k] == Work(Span(t, f, v))
            && (v == l ==> k == |td| - 1)
            && (!t[v].typ.Link? ==> td[k] == t[v] && (v != l ==> k < |td| - 1))
  {
    WorkConcat(Span(t, f, l), [t[l]]);
    assert Work([t[l]]) == [t[l]];
    SpanSplit(t, f, v, l);
    WorkConcat(Span(t, f, v), Span(t, v, l));
    if v != l {
      SpanFirst(t, v, l);
      WorkConcat([t[v]], Span(t, Next(|t|, v), l));
      assert !t[v].typ.Link? ==> Work([t[v]]) == [t[v]];
    }
  }

  /** The TRB under v, its number k in the TD, and the data in front of it. */
  lemma DataBefore(t: seq<Trb>, d: nat, f: nat, l: nat, v: nat, addr: nat, len: nat)
    requires TdOn(t, d, f, l, addr, len)
    requires v < |t| && Dist(|t|, f, v) <= Dist(|t|, f, l)
    ensures var k := |Work(Span(t, f, v))|;
            var ps := BulkPieces(addr, len);
            && k < |ps|
            && Data(Span(t, d, v)) == Total(ps[..k])
            && (v == l ==> k == |ps| - 1)
            && (!t[v].typ.Link? ==> t[v].len == ps[k].len && (v != l ==> k < |ps| - 1))
  {
    var td := Work(Span(t, f, l) + [t[l]]);
    var k := |Work(Span(t, f, v))|;
    TdPrefix(t, f, l, v);
    assert |Blanked(td)| == |td|;
    assert Blanked(td)[k] == BulkTd(addr, len)[k];
    assert BulkTd(addr, len)[..|td|] == BulkTd(addr, len);
    DataOfTd(td, addr, len, k);
    Between(|t|, d, f, l, v);
    DataAfter(t, d, f, v);
  }

  lemma Between(n: nat, d: nat, f: nat, l: nat, v: nat)
    requires d < n && f < n && l < n && v < n
    requires Dist(n, d, f) + Dist(n, f, l) == Dist(n, d, l) && Dist(n, f, v) <= Dist(n, f, l)
    ensures Dist(n, d, f) <= Dist(n, d, v)
  {
  }

  lemma DataAfter(t: seq<Trb>, d: nat, f: nat, v: nat)
    requires d < |t| && f < |t| && v < |t| && Dist(|t|, d, f) <= Dist(|t|, d, v)
    requires Data(Span(t, d, f)) == 0
    ensures Data(Span(t, d, v)) == Data(Work(Span(t, f, v)))
  {
    SpanSplit(t, d, f, v);
    DataConcat(Span(t, d, f), Span(t, f, v));
    DataOfWork(Span(t, f, v));
  }

  // --------------------------------------------------------------- the reported length

  /** What finish_td leaves of a length larger than the request. */
  function Clamped(actual: nat, request: nat): nat {
    if actual > request then 0 else actual
  }

  /** Unsigned 32-bit subtraction. */
  function Minus(a: nat, b: nat): nat
    requires a < WORD && b < WORD
  {
    if b <= a then a - b else a + WORD - b
  }

  /** The bytes of the TD moved by the time an event is raised on its TRB number k with
      `residual` bytes of that TRB's tail missing; a residual nobody could have asked for
      counts as nothing moved. */
  function Moved(addr: nat, len: nat, k: nat, residual: nat): nat
    requires k < |BulkPieces(addr, len)|
  {
    var reached := Total(BulkPieces(addr, len)[..k + 1]);
    if residual <= reached then reached - residual else 0
  }

  lemma ReachedAt(addr: nat, len: nat, k: nat)
    requires k < |BulkPieces(addr, len)|
    ensures var ps := BulkPieces(addr, len);
            && Total(ps[..k + 1]) == Total(ps[..k]) + ps[k].len
            && Total(ps[..k + 1]) <= len
            && (k == |ps| - 1 ==> Total(ps[..k + 1]) == len)
  {
    var ps := BulkPieces(addr, len);
    assert ps[..k + 1] == ps[..k] + [ps[k]];
    TotalAppend(ps[..k], ps[k]);
    PiecesSound(Unit64K, addr, len);
    assert Total(ps) == len;
    TotalPrefix(ps, k + 1);
    assert k == |ps| - 1 ==> ps[..k + 1] == ps;
  }

  lemma {:induction false} TotalPrefix(ps: seq<Piece>, k: nat)
    requires k <= |ps|
    ensures Total(ps[..k]) <= Total(ps)
    decreases k
  {
    if k != 0 {
      TotalPrefix(ps[1..], k - 1);
      assert ps[..k][1..] == ps[1..][..k - 1];
    }
  }

  /** The length in front of finish_td's check, for an event on TRB number k of the TD. */
  ghost function Counted(addr: nat, len: nat, k: nat, residual: nat, code: Code, last: bool): int
    requires k < |BulkPieces(addr, len)|
  {
    var ps := BulkPieces(addr, len);
    if last then Moved(addr, len, k, residual)
    else if code.StoppedInvalid? then Total(ps[..k])
    else if residual <= Total(ps[..k + 1]) then Total(ps[..k + 1]) - residual
    else Total(ps[..k + 1]) + WORD - residual
  }

  /** Both formulas, for an event on TRB number k. */
  lemma Formulas(addr: nat, len: nat, k: nat, residual: nat, code: Code, before: nat, trbLen: nat)
    requires k < |BulkPieces(addr, len)| && len < 0x8000_0000 && residual < 0x100_0000
    requires before == Total(BulkPieces(addr, len)[..k])
    ensures k == |BulkPieces(addr, len)| - 1 ==>
              Counted(addr, len, k, residual, code, true) == if residual <= len then len - residual else 0
    ensures code.StoppedInvalid? || trbLen == BulkPieces(addr, len)[k].len ==>
              Counted(addr, len, k, residual, code, false) == SlowLength(before, trbLen, residual, code)
  {
    ReachedAt(addr, len, k);
  }

  /** The fast path, for an event on the last TRB. */
  method FastPath(len: nat, residual: nat) returns (actual: nat)
    requires len < 0x8000_0000 && residual < 0x100_0000
    ensures actual == if residual <= len then len - residual else 0
  {
    if residual == 0 {
      return len;
    }
    actual := Minus(len, residual);
    if len < actual {
      actual := 0;
    }
  }

  /** The walk's sum with the event TRB's own part added, in 32 bits. */
  function SlowLength(before: nat, trbLen: nat, residual: nat, code: Code): nat
    requires residual < WORD
  {
    if code.StoppedInvalid? then Wrap(before) else Minus(Wrap(before + trbLen), residual)
  }

  /** The sum of the walk, with the event TRB's part unless the stop was on no data. */
  method AddLast(sum: nat, trbLen: nat, residual: nat, code: Code, ghost before: nat)
    returns (actual: nat)
    requires residual < WORD && sum == Wrap(before)
    ensures actual == SlowLength(before, trbLen, residual, code)
  {
    WrapAdd(before, trbLen);
    actual := if code.StoppedInvalid? then sum else Minus(Wrap(sum + trbLen), residual);
  }

  /** The slow path. */
  method SlowPath(ghost order: seq<nat>, next: seq<nat>, mem: seq<seq<Trb>>, deq: Ptr, ev: Ptr,
                  residual: nat, code: Code, ghost before: nat, ghost trbLen: nat)
    returns (actual: nat)
    requires Circle(order, next, mem) && OnRing(order, deq) && OnRing(order, ev)
    requires Pos(order, deq) < |Flat(order, mem)| && Pos(order, ev) < |Flat(order, mem)|
    requires before == Data(Span(Flat(order, mem), Pos(order, deq), Pos(order, ev)))
    requires trbLen == Flat(order, mem)[Pos(order, ev)].len && residual < 0x100_0000
    ensures actual == SlowLength(before, trbLen, residual, code)
  {
    var sum := SlowWalk(order, next, mem, deq, ev);
    PosSlot(order, mem, ev);
    actual := AddLast(sum, mem[ev.seg][ev.idx].len, residual, code, before);
  }

  /** process_bulk_intr_td. */
  method CountLength(ghost order: seq<nat>, next: seq<nat>, mem: seq<seq<Trb>>,
                     deq: Ptr, ghost f: nat, last: Ptr, ev: Ptr,
                     ghost addr: nat, len: nat, residual: nat, code: Code,
                     ghost t: seq<Trb>, ghost k: nat)
    returns (actual: nat)
    requires Circle(order, next, mem) && t == Flat(order, mem)
    requires OnRing(order, deq) && OnRing(order, last) && OnRing(order, ev)
    requires len < 0x8000_0000 && residual < 0x100_0000
    requires TdOn(t, Pos(order, deq), f, Pos(order, last), addr, len)
    requires Pos(order, ev) < |t|
    requires Dist(|t|, f, Pos(order, ev)) <= Dist(|t|, f, Pos(order, last))
    requires t[Pos(order, ev)].typ.Link? ==> code.StoppedInvalid?
    requires k == |Work(Span(t, f, Pos(order, ev)))|
    ensures k < |BulkPieces(addr, len)|
    ensures actual == Counted(addr, len, k, residual, code, ev == last)
  {
    ghost var v := Pos(order, ev);
    ghost var before, trbLen := Data(Span(t, Pos(order, deq), v)), t[v].len;
    DataBefore(t, Pos(order, deq), f, Pos(order, last), v, addr, len);
    Formulas(addr, len, k, residual, code, before, trbLen);
    if ev == last {
      actual := FastPath(len, residual);
    } else {
      actual := SlowPath(order, next, mem, deq, ev, residual, code, before, trbLen);
    }
  }

  /** What the last check makes of it. */
  lemma Checked(addr: nat, len: nat, k: nat, residual: nat, code: Code, last: bool, actual: nat)
    requires k < |BulkPieces(addr, len)| && len < 0x8000_0000 && residual < 0x100_0000
    requires actual == Counted(addr, len, k, residual, code, last)
    ensures !code.StoppedInvalid? ==> Clamped(actual, len) == Moved(addr, len, k, residual)
    ensures !code.StoppedInvalid? && residual <= Total(BulkPieces(addr, len)[..k + 1]) ==>
              actual == Moved(addr, len, k, residual)
    ensures !code.StoppedInvalid? && residual > Total(BulkPieces(addr, len)[..k + 1]) ==>
              actual == if last then 0 else Total(BulkPieces(addr, len)[..k + 1]) + WORD - residual
    ensures code.StoppedInvalid? ==>
              actual == if last then Moved(addr, len, k, residual)
                        else Total(BulkPieces(addr, len)[..k])
  {
    ReachedAt(addr, len, k);
  }

  /** process_bulk_intr_td and the last check in finish_td.  Whether the event names the last
      TRB (no walk) or an earlier one (walk), the URB reports the bytes of the TD moved up to
      the event; TRBs cancelled in front of the TD, and links, do not count.  A controller
      stopped on a link or no-op has moved what lies in front of it. */
  method BulkActualLength(ghost order: seq<nat>, next: seq<nat>, mem: seq<seq<Trb>>,
                          deq: Ptr, ghost f: nat, last: Ptr, ev: Ptr,
                          ghost addr: nat, len: nat, residual: nat, code: Code,
                          ghost t: seq<Trb>, ghost k: nat)
    returns (actual: nat)
    requires Circle(order, next, mem) && t == Flat(order, mem)
    requires OnRing(order, deq) && OnRing(order, last) && OnRing(order, ev)
    requires len < 0x8000_0000 && residual < 0x100_0000
    requires TdOn(t, Pos(order, deq), f, Pos(order, last), addr, len)
    requires Pos(order, ev) < |t|
    requires Dist(|t|, f, Pos(order, ev)) <= Dist(|t|, f, Pos(order, last))
    requires t[Pos(order, ev)].typ.Link? ==> code.StoppedInvalid?
    requires k == |Work(Span(t, f, Pos(order, ev)))|
    ensures k < |BulkPieces(addr, len)|
    ensures !code.Stopped? && !code.StoppedInvalid? ==> actual == Moved(addr, len, k, residual)
    ensures code.Stopped? && residual <= Total(BulkPieces(addr, len)[..k + 1]) ==>
              actual == Moved(addr, len, k, residual)
    ensures code.Stopped? && residual > Total(BulkPieces(addr, len)[..k + 1]) ==>
              actual == if ev == last then 0
                        else Total(BulkPieces(addr, len)[..k + 1]) + WORD - residual
    ensures code.StoppedInvalid? ==>
              actual == if ev == last then Moved(addr, len, k, residual)
                        else Total(BulkPieces(addr, len)[..k])
  {
    actual := CountLength(order, next, mem, deq, f, last, ev, addr, len, residual, code, t, k);
    Checked(addr, len, k, residual, code, ev == last, actual);
    if !code.Stopped? && !code.StoppedInvalid? {
      actual := Clamped(actual, len);
    }
  }
}
