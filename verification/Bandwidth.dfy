/** The periodic bandwidth table: for every interval a list of endpoints, largest packet
    first, with running totals; and the transaction that tries out a new configuration. */
module Bandwidth {
  import opened Lists

  datatype EpType = IsocOut | IsocIn | IntOut | IntIn | OtherType

  datatype Speed = Low | Full | High | Super | UnknownSpeed | Wireless

  datatype Info = Info(interval: nat, mult: nat, packets: nat, mps: nat, esit: nat, typ: EpType)

  datatype Interval = Interval(packets: int, ls: int, fs: int, hs: int, eps: seq<nat>)

  /** `info` is each endpoint's bw_info and `speed` the speed of its device; `tt` says that
      the table belongs to a transaction translator, whose active_eps is `active`. */
  datatype State = State(
    info: map<nat, Info>,
    speed: map<nat, Speed>,
    intervals: seq<Interval>,
    esit0: int,
    ssIn: int,
    ssOut: int,
    tt: bool,
    active: int
  )

  const CLEARED := Info(0, 0, 0, 0, 0, OtherType)

  predicate Async(x: Info) {
    x.typ.OtherType?
  }

  /** Speeds whose endpoints are put on lists. */
  predicate Listable(sp: Speed) {
    sp.Low? || sp.Full? || sp.High?
  }

  /** Low and full speed intervals are counted in frames, not microframes. */
  function Slot(x: Info, sp: Speed): int {
    if sp.High? then x.interval else x.interval - 3
  }

  predicate InRange(x: Info, sp: Speed) {
    0 <= Slot(x, sp) < 16
  }

  function CeilDiv(a: nat, b: nat): nat
    requires 0 < b
  {
    (a + b - 1) / b
  }

  function Pow2(k: nat): (r: nat)
    ensures 0 < r
  {
    if k == 0 then 1 else 2 * Pow2(k - 1)
  }

  /** xhci_get_ss_bw_consumed; SS_OVERHEAD is 8 and SS_OVERHEAD_BURST 32, in blocks of 16. */
  function Consumed(x: Info): nat {
    var mps := CeilDiv(x.mps, 16);
    if x.interval == 0 then 32 + x.mult * x.packets * (8 + mps)
    else CeilDiv(x.mult * x.packets * (8 + mps + 32), Pow2(x.interval))
  }

  // --------------------------------------------------------------------------- totals

  datatype Kind = Packets | LowCount | FullCount | HighCount | Esit | Members

  function Weight(kind: Kind, x: Info, sp: Speed): int {
    match kind
    case Packets => x.packets
    case LowCount => if sp.Low? then 1 else 0
    case FullCount => if sp.Full? then 1 else 0
    case HighCount => if sp.High? then 1 else 0
    case Esit => x.esit
    case Members => 1
  }

  function WeightOf(kind: Kind, info: map<nat, Info>, speed: map<nat, Speed>, id: nat): int {
    if id in info && id in speed then Weight(kind, info[id], speed[id]) else 0
  }

  function Sum(kind: Kind, info: map<nat, Info>, speed: map<nat, Speed>, eps: seq<nat>): int {
    if eps == [] then 0
    else WeightOf(kind, info, speed, eps[0]) + Sum(kind, info, speed, eps[1..])
  }

  function Mps(info: map<nat, Info>, id: nat): nat {
    if id in info then info[id].mps else 0
  }

  /** Largest packet first. */
  predicate Sorted(info: map<nat, Info>, eps: seq<nat>) {
    |eps| < 2 || (Mps(info, eps[0]) >= Mps(info, eps[1]) && Sorted(info, eps[1..]))
  }

  /** In front of the first endpoint that is not larger, or at the end. */
  function Insert(info: map<nat, Info>, eps: seq<nat>, id: nat): seq<nat> {
    if eps == [] then [id]
    else if Mps(info, id) >= Mps(info, eps[0]) then [id] + eps
    else [eps[0]] + Insert(info, eps[1..], id)
  }

  lemma {:induction false} InsertTimes(info: map<nat, Info>, eps: seq<nat>, id: nat, v: nat)
    ensures Times(Insert(info, eps, id), v) == Times(eps, v) + if v == id then 1 else 0
  {
    var q := Insert(info, eps, id);
    if eps != [] {
      if Mps(info, id) >= Mps(info, eps[0]) {
        assert q[1..] == eps;
      } else {
        InsertTimes(info, eps[1..], id, v);
        assert q[1..] == Insert(info, eps[1..], id);
      }
    }
  }

  lemma {:induction false} InsertSorted(info: map<nat, Info>, eps: seq<nat>, id: nat)
    requires Sorted(info, eps)
    ensures Sorted(info, Insert(info, eps, id))
  {
    var q := Insert(info, eps, id);
    if eps != [] {
      if Mps(info, id) >= Mps(info, eps[0]) {
        assert q[1..] == eps;
      } else {
        InsertSorted(info, eps[1..], id);
        assert q[1..] == Insert(info, eps[1..], id);
      }
    }
  }

  lemma {:induction false} InsertSum(kind: Kind, info: map<nat, Info>, speed: map<nat, Speed>,
                                     eps: seq<nat>, id: nat)
    ensures Sum(kind, info, speed, Insert(info, eps, id)) ==
            Sum(kind, info, speed, eps) + WeightOf(kind, info, speed, id)
  {
    var q := Insert(info, eps, id);
    if eps != [] {
      if Mps(info, id) >= Mps(info, eps[0]) {
        assert q[1..] == eps;
      } else {
        assert q[1..] == Insert(info, eps[1..], id);
        InsertSum(kind, info, speed, eps[1..], id);
      }
    }
  }

  lemma {:induction false} RemoveSorted(info: map<nat, Info>, eps: seq<nat>, id: nat)
    requires Sorted(info, eps)
    ensures Sorted(info, Remove(eps, id))
  {
    if |eps| >= 2 && eps[0] != id {
      RemoveSorted(info, eps[1..], id);
      var rest := Remove(eps[1..], id);
      assert Remove(eps, id)[1..] == rest;
      if eps[1] == id && 2 < |eps| {
        assert rest == eps[2..];
        assert Mps(info, eps[1]) >= Mps(info, eps[1..][1]);
      }
    }
  }

  lemma {:induction false} RemoveSum(kind: Kind, info: map<nat, Info>, speed: map<nat, Speed>,
                                     eps: seq<nat>, id: nat)
    requires id in eps
    ensures Sum(kind, info, speed, Remove(eps, id)) ==
            Sum(kind, info, speed, eps) - WeightOf(kind, info, speed, id)
  {
    if eps[0] != id {
      RemoveSum(kind, info, speed, eps[1..], id);
      assert Remove(eps, id)[1..] == Remove(eps[1..], id);
    }
  }

  lemma {:induction false} SumFrame(kind: Kind, info: map<nat, Info>, info': map<nat, Info>,
                                    speed: map<nat, Speed>, eps: seq<nat>)
    requires forall id :: id in eps ==> id in info && id in info' && info[id] == info'[id]
    ensures Sum(kind, info, speed, eps) == Sum(kind, info', speed, eps)
  {
    if eps != [] {
      SumFrame(kind, info, info', speed, eps[1..]);
    }
  }

  /** Totals do not depend on the order of a list. */
  lemma {:induction false} SumOrder(kind: Kind, info: map<nat, Info>, speed: map<nat, Speed>,
                                    a: seq<nat>, b: seq<nat>)
    requires forall v :: Times(a, v) == Times(b, v)
    ensures Sum(kind, info, speed, a) == Sum(kind, info, speed, b)
  {
    assert b != [] ==> Times(a, b[0]) == Times(b, b[0]);
    if a != [] {
      var x := a[0];
      assert Times(a, x) == Times(b, x);
      TimesIn(b, x);
      RemoveSum(kind, info, speed, b, x);
      forall v ensures Times(a[1..], v) == Times(Remove(b, x), v) {
        RemoveTimes(b, x, v);
        assert Times(a, v) == Times(b, v);
      }
      SumOrder(kind, info, speed, a[1..], Remove(b, x));
    }
  }

  // ------------------------------------------------------------------------ invariant

  predicate OnList(s: State, id: nat) {
    exists n :: 0 <= n < |s.intervals| && id in s.intervals[n].eps
  }

  /** An endpoint on the list of interval n belongs there, and is there once. */
  predicate Belongs(s: State, n: nat, id: nat) {
    && id in s.info
    && id in s.speed
    && !Async(s.info[id])
    && Listable(s.speed[id])
    && Slot(s.info[id], s.speed[id]) == n
  }

  ghost predicate IntervalOk(s: State, n: nat)
    requires n < |s.intervals|
  {
    var v := s.intervals[n];
    && Sorted(s.info, v.eps)
    && (forall id :: id in v.eps ==> Belongs(s, n, id))
    && (forall id :: Times(v.eps, id) <= 1)
    && v.packets == Sum(Packets, s.info, s.speed, v.eps)
    && v.ls == Sum(LowCount, s.info, s.speed, v.eps)
    && v.fs == Sum(FullCount, s.info, s.speed, v.eps)
    && v.hs == Sum(HighCount, s.info, s.speed, v.eps)
  }

  function Population(vs: seq<Interval>): nat {
    if vs == [] then 0 else |vs[0].eps| + Population(vs[1..])
  }

  /** Every interval's totals are sums over its list, which is sorted; so is the payload of
      interval 0, and a translator's count of active endpoints. */
  ghost predicate Good(s: State) {
    var good :=
      && |s.intervals| == 16
      && (forall n :: 0 <= n < 16 ==> IntervalOk(s, n))
      && s.esit0 == Sum(Esit, s.info, s.speed, s.intervals[0].eps)
      && (s.tt ==> s.active == Population(s.intervals));
    good
  }

  // ---------------------------------------------------------------------------- steps

  /** What a SuperSpeed endpoint takes of the bus, towards the host or away from it. */
  function ChargeIn(x: Info, sp: Speed): int {
    if sp.Super? && (x.typ.IsocIn? || x.typ.IntIn?) then Consumed(x) else 0
  }

  function ChargeOut(x: Info, sp: Speed): int {
    if sp.Super? && (x.typ.IsocOut? || x.typ.IntOut?) then Consumed(x) else 0
  }

  /** An interval's totals, more or less one endpoint. */
  function Tally(v: Interval, x: Info, sp: Speed, sign: int): Interval {
    v.(packets := v.packets + sign * x.packets,
       ls := v.ls + (if sp.Low? then sign else 0),
       fs := v.fs + (if sp.Full? then sign else 0),
       hs := v.hs + (if sp.High? then sign else 0))
  }

  /** xhci_add_ep_to_interval_table. */
  function Add(s: State, id: nat): State
    requires id in s.info && id in s.speed && |s.intervals| == 16
    requires Async(s.info[id]) || s.speed[id].Super? || InRange(s.info[id], s.speed[id])
  {
    var x, sp := s.info[id], s.speed[id];
    if Async(x) then s
    else if sp.Super? then s.(ssIn := s.ssIn + ChargeIn(x, sp), ssOut := s.ssOut + ChargeOut(x, sp))
    else
      var n := Slot(x, sp);
      var v := Tally(s.intervals[n], x, sp, 1);
      var esit0 := if n == 0 then s.esit0 + x.esit else s.esit0;
      if !Listable(sp) then s.(intervals := s.intervals[n := v], esit0 := esit0)
      else s.(intervals := s.intervals[n := v.(eps := Insert(s.info, v.eps, id))],
              esit0 := esit0,
              active := if s.tt then s.active + 1 else s.active)
  }

  /** ehub_xhci_drop_ep_from_interval_table. */
  function Drop(s: State, id: nat): State
    requires id in s.info && id in s.speed && |s.intervals| == 16
    requires Async(s.info[id]) || s.speed[id].Super? || InRange(s.info[id], s.speed[id])
  {
    var x, sp := s.info[id], s.speed[id];
    if Async(x) then s
    else if sp.Super? then s.(ssIn := s.ssIn - ChargeIn(x, sp), ssOut := s.ssOut - ChargeOut(x, sp))
    else if !OnList(s, id) then s
    else
      var n := Slot(x, sp);
      var v := Tally(s.intervals[n], x, sp, -1);
      var esit0 := if n == 0 then s.esit0 - x.esit else s.esit0;
      if !Listable(sp) then s.(intervals := s.intervals[n := v], esit0 := esit0)
      else s.(intervals := s.intervals[n := v.(eps := Remove(v.eps, id))],
              esit0 := esit0,
              active := if s.tt then s.active - 1 else s.active)
  }

  // ----------------------------------------------------- what adding and dropping do

  lemma {:induction false} Pow2Adds(a: nat, b: nat)
    ensures Pow2(0) == 1 && Pow2(1) == 2 && Pow2(a + b) == Pow2(a) * Pow2(b)
  {
    if a != 0 {
      Pow2Adds(a - 1, b);
      assert 2 * (Pow2(a - 1) * Pow2(b)) == (2 * Pow2(a - 1)) * Pow2(b);
    }
  }

  lemma CeilDivIs(a: nat, b: nat)
    requires 0 < b
    ensures b * (CeilDiv(a, b) - 1) < a <= b * CeilDiv(a, b)
  {
    var q, r := (a + b - 1) / b, (a + b - 1) % b;
    assert a + b - 1 == b * q + r;
  }

  lemma CeilDivOnly(a: nat, b: nat, q: nat)
    requires 0 < b && b * (q - 1) < a <= b * q
    ensures CeilDiv(a, b) == q
  {
    CeilDivIs(a, b);
    TimesGrows(b, CeilDiv(a, b), q - 1);
    TimesGrows(b, q, CeilDiv(a, b) - 1);
  }

  lemma TimesGrows(b: nat, c: int, d: int)
    ensures c <= d ==> b * c <= b * d
  {
  }

  /** The blocks a SuperSpeed endpoint takes: with `blocks` blocks of 16 bytes to a packet, 8
      more per packet and 32 more for the burst, spread over 2^interval microframes and rounded
      up; without spreading there is one burst overhead for all packets. */
  lemma ConsumedIs(x: Info, blocks: nat)
    requires 16 * (blocks - 1) < x.mps <= 16 * blocks
    ensures x.interval == 0 ==> Consumed(x) == 32 + x.mult * x.packets * (8 + blocks)
    ensures x.interval != 0 ==>
              Pow2(x.interval) * (Consumed(x) - 1) < x.mult * x.packets * (40 + blocks) <=
              Pow2(x.interval) * Consumed(x)
  {
    CeilDivOnly(x.mps, 16, blocks);
    if x.interval != 0 {
      assert 8 + blocks + 32 == 40 + blocks;
      CeilDivIs(x.mult * x.packets * (40 + blocks), Pow2(x.interval));
    }
  }

  /** id stands in front of the first endpoint that is not larger, and nothing else moved. */
  ghost predicate Inserted(info: map<nat, Info>, eps: seq<nat>, id: nat, k: nat, eps': seq<nat>) {
    && k <= |eps| && eps' == eps[..k] + [id] + eps[k..]
    && (forall j :: 0 <= j < k ==> Mps(info, id) < Mps(info, eps[j]))
    && (k < |eps| ==> Mps(info, eps[k]) <= Mps(info, id))
  }

  lemma {:induction false} InsertPlace(info: map<nat, Info>, eps: seq<nat>, id: nat) returns (k: nat)
    ensures Inserted(info, eps, id, k, Insert(info, eps, id))
  {
    if eps == [] || Mps(info, id) >= Mps(info, eps[0]) {
      k := 0;
    } else {
      var i := InsertPlace(info, eps[1..], id);
      k := i + 1;
      assert eps[..k] == [eps[0]] + eps[1..][..i] && eps[k..] == eps[1..][i..];
      assert forall j :: 0 < j < k ==> eps[j] == eps[1..][j - 1];
    }
  }

  /** The totals of an interval with one endpoint more (d == 1) or less (d == -1). */
  ghost predicate Counted(v: Interval, x: Info, sp: Speed, d: int, w: Interval) {
    && w.packets == v.packets + d * x.packets
    && w.ls == v.ls + (if sp == Low then d else 0)
    && w.fs == v.fs + (if sp == Full then d else 0)
    && w.hs == v.hs + (if sp == High then d else 0)
  }

  /** The effect of adding (d == 1) or dropping (d == -1) an endpoint of a SuperSpeed device. */
  ghost predicate Charged(s: State, x: Info, d: int, q: State) {
    q == s.(ssIn := s.ssIn + (if x.typ == IsocIn || x.typ == IntIn then d * Consumed(x) else 0),
            ssOut := s.ssOut + (if x.typ == IsocOut || x.typ == IntOut then d * Consumed(x) else 0))
  }

  /** The effect of adding or dropping an endpoint of any other device, apart from the list. */
  ghost predicate Accounted(s: State, x: Info, sp: Speed, d: int, listed: bool, n: nat, q: State)
    requires n < |s.intervals|
  {
    && |q.intervals| == |s.intervals|
    && Counted(s.intervals[n], x, sp, d, q.intervals[n])
    && (forall m :: 0 <= m < |s.intervals| && m != n ==> q.intervals[m] == s.intervals[m])
    && q.esit0 == s.esit0 + (if n == 0 then d * x.esit else 0)
    && q.active == s.active + (if s.tt && listed then d else 0)
    && q.info == s.info && q.speed == s.speed && q.tt == s.tt
    && q.ssIn == s.ssIn && q.ssOut == s.ssOut
  }

  /** xhci_add_ep_to_interval_table: nothing for an endpoint that is not periodic; the bus for
      a SuperSpeed one; otherwise the totals of its interval, in frames unless the device is
      high speed, and for the three speeds that are listed its place on the list. */
  ghost predicate AddEffect(s: State, id: nat, q: State)
    requires Usable(s, id) && |s.intervals| == 16
  {
    var x, sp := s.info[id], s.speed[id];
    if x.typ == OtherType then q == s
    else if sp == Super then Charged(s, x, 1, q)
    else
      var n := if sp == High then x.interval else x.interval - 3;
      var listed := sp == Low || sp == Full || sp == High;
      && 0 <= n < 16
      && Accounted(s, x, sp, 1, listed, n, q)
      && (if listed
          then exists k :: Inserted(s.info, s.intervals[n].eps, id, k, q.intervals[n].eps)
          else q.intervals[n].eps == s.intervals[n].eps)
  }

  /** id has left the list, if it was there, and nothing else has moved. */
  ghost predicate TakenOut(a: seq<nat>, id: nat, b: seq<nat>) {
    if id in a then exists k :: 0 <= k < |a| && a[k] == id && b == a[..k] + a[k + 1..] else b == a
  }

  lemma RemoveTakesOut(eps: seq<nat>, id: nat)
    ensures TakenOut(eps, id, Remove(eps, id))
  {
    if id in eps {
      var k := RemoveAt(eps, id);
    } else {
      RemoveAbsent(eps, id);
    }
  }

  /** ehub_xhci_drop_ep_from_interval_table: the opposite, if the endpoint is listed. */
  ghost predicate DropEffect(s: State, id: nat, q: State)
    requires Usable(s, id) && |s.intervals| == 16
  {
    var x, sp := s.info[id], s.speed[id];
    if x.typ == OtherType then q == s
    else if sp == Super then Charged(s, x, -1, q)
    else if forall m :: 0 <= m < 16 ==> id !in s.intervals[m].eps then q == s
    else
      var n := if sp == High then x.interval else x.interval - 3;
      var listed := sp == Low || sp == Full || sp == High;
      && 0 <= n < 16
      && Accounted(s, x, sp, -1, listed, n, q)
      && (if listed then TakenOut(s.intervals[n].eps, id, q.intervals[n].eps)
          else q.intervals[n].eps == s.intervals[n].eps)
  }

  lemma AddDoes(s: State, id: nat)
    requires Usable(s, id) && |s.intervals| == 16
    ensures AddEffect(s, id, Add(s, id))
  {
    var x, sp := s.info[id], s.speed[id];
    if !Async(x) && Listable(sp) {
      var k := InsertPlace(s.info, s.intervals[Slot(x, sp)].eps, id);
    }
  }

  lemma DropDoes(s: State, id: nat)
    requires Usable(s, id) && |s.intervals| == 16
    ensures DropEffect(s, id, Drop(s, id))
  {
    var x, sp := s.info[id], s.speed[id];
    if !Async(x) && Listable(sp) {
      RemoveTakesOut(s.intervals[Slot(x, sp)].eps, id);
    }
  }

  lemma {:induction false} PopulationUpdate(vs: seq<Interval>, n: nat, v: Interval)
    requires n < |vs|
    ensures Population(vs[n := v]) == Population(vs) - |vs[n].eps| + |v.eps|
  {
    if n != 0 {
      PopulationUpdate(vs[1..], n - 1, v);
      assert vs[n := v][1..] == vs[1..][n - 1 := v];
    }
  }

  lemma {:induction false} MembersCount(info: map<nat, Info>, eps: seq<nat>, id: nat)
    ensures |Insert(info, eps, id)| == |eps| + 1
  {
    if eps != [] {
      MembersCount(info, eps[1..], id);
    }
  }

  lemma AddInterval(s: State, id: nat)
    requires |s.intervals| == 16 && id in s.info && id in s.speed
    requires !Async(s.info[id]) && Listable(s.speed[id]) && InRange(s.info[id], s.speed[id])
    requires IntervalOk(s, Slot(s.info[id], s.speed[id])) && !OnList(s, id)
    ensures IntervalOk(Add(s, id), Slot(s.info[id], s.speed[id]))
  {
    var n := Slot(s.info[id], s.speed[id]);
    var eps := s.intervals[n].eps;
    var q := Add(s, id);
    InsertSorted(s.info, eps, id);
    InsertSum(Packets, s.info, s.speed, eps, id);
    InsertSum(LowCount, s.info, s.speed, eps, id);
    InsertSum(FullCount, s.info, s.speed, eps, id);
    InsertSum(HighCount, s.info, s.speed, eps, id);
    TimesIn(eps, id);
    forall v ensures Times(q.intervals[n].eps, v) <= 1 {
      InsertTimes(s.info, eps, id, v);
    }
    forall v | v in q.intervals[n].eps ensures Belongs(q, n, v) {
      InsertTimes(s.info, eps, id, v);
      TimesIn(q.intervals[n].eps, v);
      TimesIn(eps, v);
      assert v != id ==> Belongs(s, n, v);
    }
  }

  lemma DropInterval(s: State, id: nat, n: nat)
    requires |s.intervals| == 16 && n < 16 && IntervalOk(s, n)
    requires id in s.intervals[n].eps && Belongs(s, n, id)
    ensures IntervalOk(Drop(s, id), n)
  {
    var eps := s.intervals[n].eps;
    assert OnList(s, id);
    var q := Drop(s, id);
    RemoveSorted(s.info, eps, id);
    RemoveSum(Packets, s.info, s.speed, eps, id);
    RemoveSum(LowCount, s.info, s.speed, eps, id);
    RemoveSum(FullCount, s.info, s.speed, eps, id);
    RemoveSum(HighCount, s.info, s.speed, eps, id);
    forall v ensures Times(q.intervals[n].eps, v) <= 1 {
      RemoveTimes(eps, id, v);
    }
    forall v | v in q.intervals[n].eps ensures Belongs(q, n, v) {
      RemoveTimes(eps, id, v);
      TimesIn(q.intervals[n].eps, v);
      TimesIn(eps, v);
      assert Belongs(s, n, v);
    }
  }

  /** An interval looks only at its own totals and at its endpoints' records. */
  lemma IntervalFrame(s: State, q: State, n: nat)
    requires n < |s.intervals| == |q.intervals| && IntervalOk(s, n)
    requires q.intervals[n] == s.intervals[n] && q.speed == s.speed
    requires forall id :: id in s.intervals[n].eps ==>
               id in s.info && id in q.info && q.info[id] == s.info[id]
    ensures IntervalOk(q, n)
  {
    var eps := s.intervals[n].eps;
    SumFrame(Packets, s.info, q.info, s.speed, eps);
    SumFrame(LowCount, s.info, q.info, s.speed, eps);
    SumFrame(FullCount, s.info, q.info, s.speed, eps);
    SumFrame(HighCount, s.info, q.info, s.speed, eps);
    SortedFrame(s.info, q.info, eps);
    forall id | id in eps ensures Belongs(q, n, id) {
      assert Belongs(s, n, id);
    }
  }

  lemma {:induction false} SortedFrame(info: map<nat, Info>, info': map<nat, Info>, eps: seq<nat>)
    requires forall id :: id in eps ==> id in info && id in info' && info[id] == info'[id]
    ensures Sorted(info, eps) == Sorted(info', eps)
  {
    if |eps| >= 2 {
      SortedFrame(info, info', eps[1..]);
    }
  }

  /** An endpoint's record must lead to a slot of the table. */
  predicate Usable(s: State, id: nat) {
    && id in s.info
    && id in s.speed
    && (Async(s.info[id]) || s.speed[id].Super? || InRange(s.info[id], s.speed[id]))
  }

  lemma BelongsHere(s: State, n: nat, id: nat)
    requires Good(s) && n < 16 && id in s.intervals[n].eps
    ensures Belongs(s, n, id)
  {
    assert IntervalOk(s, n);
  }

  lemma AddKeeps(s: State, id: nat)
    requires Good(s) && Usable(s, id) && !OnList(s, id)
    requires Listable(s.speed[id]) || s.speed[id].Super?
    ensures Good(Add(s, id))
    ensures forall v :: OnList(Add(s, id), v) <==>
              OnList(s, v) || (v == id && !Async(s.info[id]) && Listable(s.speed[id]))
  {
    var x, sp := s.info[id], s.speed[id];
    var q := Add(s, id);
    if !Async(x) && !sp.Super? {
      var n := Slot(x, sp);
      var eps := s.intervals[n].eps;
      assert IntervalOk(s, n);
      AddInterval(s, id);
      forall m | 0 <= m < 16 ensures IntervalOk(q, m) {
        if m != n {
          assert IntervalOk(s, m);
          forall v | v in s.intervals[m].eps ensures v in s.info {
            BelongsHere(s, m, v);
          }
          IntervalFrame(s, q, m);
        }
      }
      InsertSum(Esit, s.info, s.speed, eps, id);
      MembersCount(s.info, eps, id);
      PopulationUpdate(s.intervals, n, q.intervals[n]);
      forall v ensures v in q.intervals[n].eps <==> v in eps || v == id {
        InsertTimes(s.info, eps, id, v);
        TimesIn(q.intervals[n].eps, v);
        TimesIn(eps, v);
      }
      Relisted(s, q, n);
    } else {
      SameLists(s, q);
    }
  }

  /** Which endpoints are listed when one interval's list changes. */
  lemma Relisted(s: State, q: State, n: nat)
    requires n < |s.intervals| == |q.intervals| && q.intervals == s.intervals[n := q.intervals[n]]
    ensures forall v :: OnList(q, v) ==> OnList(s, v) || v in q.intervals[n].eps
    ensures forall v :: OnList(s, v) ==> OnList(q, v) || v in s.intervals[n].eps
    ensures forall v :: v in q.intervals[n].eps ==> OnList(q, v)
  {
    forall v | OnList(s, v) ensures OnList(q, v) || v in s.intervals[n].eps {
      var m :| 0 <= m < |s.intervals| && v in s.intervals[m].eps;
      assert m != n ==> v in q.intervals[m].eps;
    }
  }

  lemma SameLists(s: State, q: State)
    requires Good(s) && q == s.(ssIn := q.ssIn, ssOut := q.ssOut)
    ensures Good(q)
    ensures forall v :: OnList(q, v) <==> OnList(s, v)
  {
    forall n | 0 <= n < 16 ensures IntervalOk(q, n) {
      assert IntervalOk(s, n);
      forall v | v in s.intervals[n].eps ensures v in s.info {
        BelongsHere(s, n, v);
      }
      IntervalFrame(s, q, n);
    }
  }

  lemma DropKeeps(s: State, id: nat)
    requires Good(s) && Usable(s, id)
    ensures Good(Drop(s, id))
    ensures forall v :: OnList(Drop(s, id), v) <==> OnList(s, v) && v != id
  {
    var x, sp := s.info[id], s.speed[id];
    var q := Drop(s, id);
    forall m | 0 <= m < 16 && id in s.intervals[m].eps ensures Belongs(s, m, id) {
      BelongsHere(s, m, id);
    }
    if OnList(s, id) {
      var n := Slot(x, sp);
      var eps := s.intervals[n].eps;
      assert id in eps;
      assert IntervalOk(s, n);
      DropInterval(s, id, n);
      forall m | 0 <= m < 16 ensures IntervalOk(q, m) {
        if m != n {
          assert IntervalOk(s, m);
          forall v | v in s.intervals[m].eps ensures v in s.info {
            BelongsHere(s, m, v);
          }
          IntervalFrame(s, q, m);
        }
      }
      RemoveSum(Esit, s.info, s.speed, eps, id);
      RemoveTimes(eps, id, id);
      PopulationUpdate(s.intervals, n, q.intervals[n]);
      forall v ensures v in q.intervals[n].eps <==> v in eps && v != id {
        RemoveTimes(eps, id, v);
        TimesIn(q.intervals[n].eps, v);
        TimesIn(eps, v);
        assert Times(eps, v) <= 1;
      }
      Relisted(s, q, n);
    } else {
      SameLists(s, q);
    }
  }

  /** Changing the record of an endpoint that is not listed. */
  lemma InfoKeeps(s: State, info: map<nat, Info>)
    requires Good(s)
    requires forall v :: OnList(s, v) ==> v in s.info && v in info && info[v] == s.info[v]
    ensures Good(s.(info := info))
    ensures forall v :: OnList(s.(info := info), v) <==> OnList(s, v)
  {
    var q := s.(info := info);
    forall n | 0 <= n < 16 ensures IntervalOk(q, n) {
      assert IntervalOk(s, n);
      forall v | v in s.intervals[n].eps ensures v in s.info && v in info && info[v] == s.info[v] {
        assert OnList(s, v);
      }
      IntervalFrame(s, q, n);
    }
    forall v | v in s.intervals[0].eps ensures v in s.info && v in info && info[v] == s.info[v] {
      assert OnList(s, v);
    }
    SumFrame(Esit, s.info, info, s.speed, s.intervals[0].eps);
  }

  /** The totals of a table follow from the records and from who is listed. */
  lemma TotalsFollow(s: State, q: State, n: nat)
    requires Good(s) && Good(q) && q.info == s.info && q.speed == s.speed && n < 16
    requires forall v :: OnList(q, v) <==> OnList(s, v)
    ensures multiset(q.intervals[n].eps) == multiset(s.intervals[n].eps)
    ensures q.intervals[n] == s.intervals[n].(eps := q.intervals[n].eps)
    ensures q.esit0 == s.esit0
  {
    SameMembers(s, q, n);
    SameMembers(s, q, 0);
    var a, b := s.intervals[n].eps, q.intervals[n].eps;
    assert IntervalOk(s, n) && IntervalOk(q, n);
    SumOrder(Packets, s.info, s.speed, a, b);
    SumOrder(LowCount, s.info, s.speed, a, b);
    SumOrder(FullCount, s.info, s.speed, a, b);
    SumOrder(HighCount, s.info, s.speed, a, b);
    SumOrder(Esit, s.info, s.speed, s.intervals[0].eps, q.intervals[0].eps);
    forall v ensures multiset(a)[v] == multiset(b)[v] {
      TimesIsMultiset(a, v);
      TimesIsMultiset(b, v);
    }
  }

  lemma SameMembers(s: State, q: State, n: nat)
    requires Good(s) && Good(q) && q.info == s.info && q.speed == s.speed && n < 16
    requires forall v :: OnList(q, v) <==> OnList(s, v)
    ensures forall v :: Times(q.intervals[n].eps, v) == Times(s.intervals[n].eps, v)
  {
    forall v ensures Times(q.intervals[n].eps, v) == Times(s.intervals[n].eps, v) {
      MemberIff(s, n, v);
      MemberIff(q, n, v);
      TimesIn(q.intervals[n].eps, v);
      TimesIn(s.intervals[n].eps, v);
      assert IntervalOk(s, n) && IntervalOk(q, n);
    }
  }

  lemma MemberIff(s: State, n: nat, v: nat)
    requires Good(s) && n < 16
    ensures v in s.intervals[n].eps <==> OnList(s, v) && Belongs(s, n, v)
  {
    if v in s.intervals[n].eps {
      BelongsHere(s, n, v);
    } else if OnList(s, v) {
      var m :| 0 <= m < 16 && v in s.intervals[m].eps;
      BelongsHere(s, m, v);
    }
  }
}
