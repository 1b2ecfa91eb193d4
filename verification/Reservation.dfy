/** xhci_reserve_bandwidth: put a proposed configuration into the table, and take it out again
    if it does not fit. */
module Reservation {
  import opened Bandwidth
  import opened Lists

  /** What a Configure Endpoint request wants of one endpoint context. */
  datatype Change = Change(added: bool, dropped: bool, next: Info)

  /** The device's endpoints are numbered base, ..., base + 30. */
  datatype Request = Request(base: nat, changes: seq<Change>)

  predicate Named(r: Request, v: nat, k: nat) {
    r.base <= v < r.base + k && v < r.base + |r.changes|
  }

  predicate IsDropped(r: Request, v: nat, k: nat) {
    Named(r, v, k) && r.changes[v - r.base].dropped
  }

  predicate IsAdded(r: Request, v: nat, k: nat) {
    Named(r, v, k) && r.changes[v - r.base].added
  }

  /** ehub_xhci_update_bw_info, for endpoint context i. */
  function NewInfo(i: nat, c: Change, was: Info): Info {
    if i == 0 then was
    else if c.dropped && !c.added then CLEARED
    else if c.added && !Async(c.next) then c.next
    else was
  }

  /** The record of endpoint context i after ehub_xhci_update_bw_info. */
  ghost predicate RecordAt(s: State, r: Request, info: map<nat, Info>, i: nat)
    requires i < |r.changes|
  {
    var v, c := r.base + i, r.changes[i];
    && v in s.info && v in info
    && info[v] == if i != 0 && c.added && c.next.typ != OtherType then c.next
                  else if i != 0 && c.dropped && !c.added then Info(0, 0, 0, 0, 0, OtherType)
                  else s.info[v]
  }

  function NewInfoOf(r: Request, v: nat, k: nat, was: Info): Info {
    if Named(r, v, k) then NewInfo(v - r.base, r.changes[v - r.base], was) else was
  }

  function Updated(s: State, r: Request, k: nat): map<nat, Info> {
    map v | v in s.info :: NewInfoOf(r, v, k, s.info[v])
  }

  /** What the first k endpoints that are dropped, or added, take of a SuperSpeed bus. */
  function Charges(s: State, r: Request, info: map<nat, Info>, added: bool, inward: bool, k: nat): int {
    if k == 0 then 0
    else
      var v := r.base + k - 1;
      Charges(s, r, info, added, inward, k - 1) +
      (if v in info && v in s.speed && (if added then IsAdded(r, v, k) else IsDropped(r, v, k))
       then (if inward then ChargeIn(info[v], s.speed[v]) else ChargeOut(info[v], s.speed[v]))
       else 0)
  }

  /** What the driver relies on: endpoints of one device of an ordinary speed, whose records
      lead to slots of the table; an endpoint with a periodic record is listed, and one that
      is added without being dropped is not. */
  ghost predicate Proper(s: State, r: Request) {
    && Good(s)
    && |r.changes| == 31
    && forall v :: r.base <= v < r.base + 31 ==> ProperAt(s, r, v)
  }

  ghost predicate ProperAt(s: State, r: Request, v: nat)
    requires r.base <= v < r.base + |r.changes|
  {
    var c := r.changes[v - r.base];
    && v in s.info
    && v in s.speed
    && (Listable(s.speed[v]) || s.speed[v].Super?)
    && Usable(s, v)
    && (!Async(c.next) ==> s.speed[v].Super? || InRange(c.next, s.speed[v]))
    && (c.dropped && Listable(s.speed[v]) ==> (OnList(s, v) <==> !Async(s.info[v])))
    && (c.added && !c.dropped ==> !OnList(s, v))
  }

  ghost predicate Same(s: State, q: State) {
    q.speed == s.speed && q.tt == s.tt && |q.intervals| == |s.intervals|
  }

  // ------------------------------------------------------------------- the four loops

  ghost predicate DroppedTo(s: State, r: Request, k: nat, q: State) {
    var ok :=
      && Good(q) && Same(s, q) && q.info == s.info
      && (forall v: nat :: OnList(q, v) <==> OnList(s, v) && !IsDropped(r, v, k))
      && q.ssIn == s.ssIn - Charges(s, r, s.info, false, true, k)
      && q.ssOut == s.ssOut - Charges(s, r, s.info, false, false, k);
    ok
  }

  lemma DroppedStarts(s: State, r: Request)
    requires Proper(s, r)
    ensures DroppedTo(s, r, 0, s)
  {
  }

  lemma DroppedNext(s: State, r: Request, k: nat, q: State)
    requires Proper(s, r) && k < 31 && DroppedTo(s, r, k, q)
    ensures Usable(q, r.base + k) && |q.intervals| == 16 && q.info == s.info
    ensures DroppedTo(s, r, k + 1, if r.changes[k].dropped then Drop(q, r.base + k) else q)
  {
    var v := r.base + k;
    assert ProperAt(s, r, v);
    if r.changes[k].dropped {
      DropKeeps(q, v);
    }
  }

  /** No endpoint whose record changes is listed once the dropped ones are out. */
  lemma UpdatedKeeps(s: State, r: Request, q: State)
    requires Proper(s, r) && DroppedTo(s, r, 31, q)
    ensures AddedTo(s, r, 0, q.(info := Updated(s, r, 31)))
  {
    var info := Updated(s, r, 31);
    forall v | OnList(q, v) ensures v in q.info && v in info && info[v] == q.info[v] {
      var n :| 0 <= n < |q.intervals| && v in q.intervals[n].eps;
      BelongsHere(q, n, v);
      if Named(r, v, 31) {
        assert ProperAt(s, r, v);
      }
    }
    InfoKeeps(q, info);
  }

  ghost predicate Stays(s: State, r: Request, v: nat) {
    OnList(s, v) && !IsDropped(r, v, 31)
  }

  ghost predicate Enters(s: State, r: Request, v: nat) {
    && IsAdded(r, v, 31)
    && v in s.info && v in s.speed
    && !Async(NewInfoOf(r, v, 31, s.info[v]))
    && Listable(s.speed[v])
  }

  ghost predicate Returns(s: State, r: Request, v: nat) {
    && IsDropped(r, v, 31)
    && v in s.info && v in s.speed
    && !Async(s.info[v])
    && Listable(s.speed[v])
  }

  ghost predicate AddedTo(s: State, r: Request, k: nat, q: State) {
    var info := Updated(s, r, 31);
    var ok :=
      && Good(q) && Same(s, q) && q.info == info
      && (forall v: nat :: OnList(q, v) <==> Stays(s, r, v) || (v < r.base + k && Enters(s, r, v)))
      && q.ssIn == s.ssIn - Charges(s, r, s.info, false, true, 31) +
                   Charges(s, r, info, true, true, k)
      && q.ssOut == s.ssOut - Charges(s, r, s.info, false, false, 31) +
                    Charges(s, r, info, true, false, k);
    ok
  }

  lemma UpdatedUsable(s: State, r: Request, v: nat)
    requires Proper(s, r) && Named(r, v, 31)
    ensures v in s.info && v in s.speed && v in Updated(s, r, 31)
    ensures Usable(s.(info := Updated(s, r, 31)), v)
    ensures Listable(s.speed[v]) || s.speed[v].Super?
  {
    assert ProperAt(s, r, v);
  }

  lemma AddedNext(s: State, r: Request, k: nat, q: State)
    requires Proper(s, r) && k < 31 && AddedTo(s, r, k, q)
    ensures Usable(q, r.base + k) && |q.intervals| == 16
    ensures AddedTo(s, r, k + 1, if r.changes[k].added then Add(q, r.base + k) else q)
  {
    var v := r.base + k;
    assert Named(r, v, 31);
    assert ProperAt(s, r, v);
    UpdatedUsable(s, r, v);
    if r.changes[k].added {
      AddKeeps(q, v);
    }
  }

  /** The records, the lists and the charges after the first k endpoints have been put back. */
  ghost predicate InfoTo(s: State, r: Request, k: nat, info: map<nat, Info>) {
    info == map v | v in s.info :: if Named(r, v, k) then s.info[v] else Updated(s, r, 31)[v]
  }

  ghost predicate ListedTo(s: State, r: Request, k: nat, q: State) {
    forall v: nat :: OnList(q, v) <==>
      || Stays(s, r, v)
      || (v < r.base + k && Returns(s, r, v))
      || (r.base + k <= v && Enters(s, r, v))
  }

  ghost predicate ChargedTo(s: State, r: Request, k: nat, q: State) {
    var info := Updated(s, r, 31);
    && q.ssIn == s.ssIn - Charges(s, r, s.info, false, true, 31) + Charges(s, r, info, true, true, 31)
                 - Charges(s, r, info, true, true, k) + Charges(s, r, s.info, false, true, k)
    && q.ssOut == s.ssOut - Charges(s, r, s.info, false, false, 31) + Charges(s, r, info, true, false, 31)
                  - Charges(s, r, info, true, false, k) + Charges(s, r, s.info, false, false, k)
  }

  ghost predicate RevertedTo(s: State, r: Request, k: nat, q: State) {
    var ok :=
      && Good(q) && Same(s, q)
      && InfoTo(s, r, k, q.info) && ListedTo(s, r, k, q) && ChargedTo(s, r, k, q);
    ok
  }

  lemma RevertedStarts(s: State, r: Request, q: State)
    requires Proper(s, r) && AddedTo(s, r, 31, q)
    ensures RevertedTo(s, r, 0, q)
  {
  }

  /** One turn of the last loop. */
  function Revert(q: State, v: nat, c: Change, was: Info): State
    requires Usable(q, v) && |q.intervals| == 16
    requires Usable(q.(info := q.info[v := was]), v)
  {
    if !c.added && !c.dropped then q
    else
      var q1 := if c.added then Drop(q, v) else q;
      var q2 := q1.(info := q1.info[v := was]);
      if c.dropped then Add(q2, v) else q2
  }

  lemma RevertKeeps(q: State, v: nat, c: Change, was: Info)
    requires Good(q) && Usable(q, v) && Usable(q.(info := q.info[v := was]), v)
    requires Listable(q.speed[v]) || q.speed[v].Super?
    requires c.added || c.dropped
    requires c.added || !OnList(q, v)
    ensures |q.intervals| == 16
    ensures var p := Revert(q, v, c, was);
            && Good(p) && Same(q, p) && p.info == q.info[v := was]
            && (forall w :: OnList(p, w) <==>
                  if w == v then c.dropped && !Async(was) && Listable(q.speed[v]) else OnList(q, w))
            && p.ssIn == q.ssIn - (if c.added then ChargeIn(q.info[v], q.speed[v]) else 0)
                                + (if c.dropped then ChargeIn(was, q.speed[v]) else 0)
            && p.ssOut == q.ssOut - (if c.added then ChargeOut(q.info[v], q.speed[v]) else 0)
                                  + (if c.dropped then ChargeOut(was, q.speed[v]) else 0)
  {
    var q1 := if c.added then Drop(q, v) else q;
    if c.added {
      DropKeeps(q, v);
    }
    var q2 := q1.(info := q1.info[v := was]);
    forall w | OnList(q1, w) ensures w in q1.info && q2.info[w] == q1.info[w] {
      var n :| 0 <= n < |q1.intervals| && w in q1.intervals[n].eps;
      BelongsHere(q1, n, w);
    }
    InfoKeeps(q1, q2.info);
    if c.dropped {
      AddKeeps(q2, v);
    }
  }

  /** An endpoint neither added nor dropped keeps its record. */
  lemma Untouched(s: State, r: Request, k: nat)
    requires Proper(s, r) && k < 31 && !r.changes[k].added && !r.changes[k].dropped
    ensures r.base + k in s.info
    ensures Updated(s, r, 31)[r.base + k] == s.info[r.base + k]
  {
    assert ProperAt(s, r, r.base + k);
  }

  lemma RevertedUsable(s: State, r: Request, k: nat, q: State)
    requires Proper(s, r) && k < 31 && RevertedTo(s, r, k, q)
    ensures r.base + k in s.info
    ensures Usable(q, r.base + k) && |q.intervals| == 16
    ensures Usable(q.(info := q.info[r.base + k := s.info[r.base + k]]), r.base + k)
  {
    var v := r.base + k;
    assert Named(r, v, 31);
    assert ProperAt(s, r, v);
    UpdatedUsable(s, r, v);
  }

  /** One more record is back. */
  lemma InfoTurn(s: State, r: Request, k: nat, info: map<nat, Info>, info': map<nat, Info>)
    requires r.base + k in s.info && s.info.Keys == Updated(s, r, 31).Keys && |r.changes| == 31
    requires InfoTo(s, r, k, info) && k < 31
    requires info' == info[r.base + k := s.info[r.base + k]]
    ensures InfoTo(s, r, k + 1, info')
  {
  }

  lemma ListTurn(s: State, r: Request, k: nat, q: State, p: State)
    requires Proper(s, r) && k < 31 && ListedTo(s, r, k, q) && Same(s, q)
    requires r.base + k in s.info && r.base + k in q.speed
    requires r.changes[k].added || r.changes[k].dropped
    requires var v, c := r.base + k, r.changes[k];
             forall w :: OnList(p, w) <==>
               if w == v then c.dropped && !Async(s.info[v]) && Listable(q.speed[v]) else OnList(q, w)
    ensures ListedTo(s, r, k + 1, p)
  {
    assert ProperAt(s, r, r.base + k);
  }

  lemma ChargeTurn(s: State, r: Request, k: nat, q: State, p: State)
    requires Proper(s, r) && k < 31 && ChargedTo(s, r, k, q) && Same(s, q)
    requires InfoTo(s, r, k, q.info)
    requires r.base + k in s.info && r.base + k in q.info && r.base + k in q.speed
    requires var v, c := r.base + k, r.changes[k];
             && p.ssIn == q.ssIn - (if c.added then ChargeIn(q.info[v], q.speed[v]) else 0)
                                 + (if c.dropped then ChargeIn(s.info[v], q.speed[v]) else 0)
             && p.ssOut == q.ssOut - (if c.added then ChargeOut(q.info[v], q.speed[v]) else 0)
                                   + (if c.dropped then ChargeOut(s.info[v], q.speed[v]) else 0)
    ensures ChargedTo(s, r, k + 1, p)
  {
    assert ProperAt(s, r, r.base + k);
  }

  lemma RevertedSkip(s: State, r: Request, k: nat, q: State)
    requires Proper(s, r) && k < 31 && RevertedTo(s, r, k, q)
    requires !r.changes[k].added && !r.changes[k].dropped
    ensures RevertedTo(s, r, k + 1, q)
  {
    Untouched(s, r, k);
  }

  lemma NotListedYet(s: State, r: Request, k: nat, q: State)
    requires Proper(s, r) && k < 31 && RevertedTo(s, r, k, q)
    requires r.changes[k].dropped && !r.changes[k].added
    ensures !OnList(q, r.base + k)
  {
    assert ProperAt(s, r, r.base + k);
    assert Named(r, r.base + k, 31);
  }

  lemma RevertedNext(s: State, r: Request, k: nat, q: State)
    requires Proper(s, r) && k < 31 && RevertedTo(s, r, k, q)
    ensures r.base + k in s.info
    ensures Usable(q, r.base + k) && |q.intervals| == 16
    ensures Usable(q.(info := q.info[r.base + k := s.info[r.base + k]]), r.base + k)
    ensures RevertedTo(s, r, k + 1, Revert(q, r.base + k, r.changes[k], s.info[r.base + k]))
  {
    var v, c := r.base + k, r.changes[k];
    RevertedUsable(s, r, k, q);
    if c.added || c.dropped {
      assert ProperAt(s, r, v);
      if !c.added {
        NotListedYet(s, r, k, q);
      }
      var p := Revert(q, v, c, s.info[v]);
      RevertKeeps(q, v, c, s.info[v]);
      InfoTurn(s, r, k, q.info, p.info);
      ListTurn(s, r, k, q, p);
      ChargeTurn(s, r, k, q, p);
    } else {
      RevertedSkip(s, r, k, q);
    }
  }

  /** Everything is as before; only endpoints with equal packets may have changed places. */
  ghost predicate Restored(s: State, q: State) {
    && q.info == s.info
    && q.speed == s.speed
    && |q.intervals| == |s.intervals|
    && (forall n :: 0 <= n < |s.intervals| ==>
          && q.intervals[n] == s.intervals[n].(eps := q.intervals[n].eps)
          && multiset(q.intervals[n].eps) == multiset(s.intervals[n].eps)
          && Sorted(s.info, q.intervals[n].eps))
    && q.esit0 == s.esit0
    && q.ssIn == s.ssIn
    && q.ssOut == s.ssOut
    && (s.tt ==> q.active == s.active)
  }

  lemma {:induction false} SamePopulation(a: seq<Interval>, b: seq<Interval>)
    requires |a| == |b|
    requires forall n :: 0 <= n < |a| ==> multiset(a[n].eps) == multiset(b[n].eps)
    ensures Population(a) == Population(b)
  {
    if a != [] {
      assert |a[0].eps| == |multiset(a[0].eps)| == |multiset(b[0].eps)| == |b[0].eps|;
      SamePopulation(a[1..], b[1..]);
    }
  }

  lemma RevertedListed(s: State, r: Request, q: State, v: nat)
    requires Proper(s, r) && RevertedTo(s, r, 31, q)
    ensures OnList(q, v) <==> OnList(s, v)
  {
    if Named(r, v, 31) {
      assert ProperAt(s, r, v);
      assert s.speed[v].Super? ==> !OnList(s, v) by {
        if OnList(s, v) {
          var n :| 0 <= n < |s.intervals| && v in s.intervals[n].eps;
          BelongsHere(s, n, v);
        }
      }
    }
  }

  lemma RevertedEnds(s: State, r: Request, q: State)
    requires Proper(s, r) && RevertedTo(s, r, 31, q)
    ensures Restored(s, q)
  {
    forall v ensures OnList(q, v) <==> OnList(s, v) {
      RevertedListed(s, r, q, v);
    }
    assert q.info == s.info;
    forall n | 0 <= n < 16
      ensures q.intervals[n] == s.intervals[n].(eps := q.intervals[n].eps)
      ensures multiset(q.intervals[n].eps) == multiset(s.intervals[n].eps)
      ensures Sorted(s.info, q.intervals[n].eps)
      ensures q.esit0 == s.esit0
    {
      TotalsFollow(s, q, n);
      assert IntervalOk(q, n);
    }
    assert 0 <= 0 < 16;
    TotalsFollow(s, q, 0);
    SamePopulation(q.intervals, s.intervals);
  }

  lemma ListedComesBack(s: State, v: nat)
    requires Good(s) && Usable(s, v) && !OnList(s, v)
    requires !Async(s.info[v]) && Listable(s.speed[v])
    ensures |s.intervals| == 16 && Usable(Add(s, v), v) && |Add(s, v).intervals| == 16
    ensures Drop(Add(s, v), v) == s
  {
    var n := Slot(s.info[v], s.speed[v]);
    var p := Add(s, v);
    var eps := s.intervals[n].eps;
    InsertTimes(s.info, eps, v, v);
    TimesIn(p.intervals[n].eps, v);
    assert OnList(p, v);
    RemoveInserted(s.info, eps, v);
    assert Drop(p, v).intervals[n] == s.intervals[n];
    assert Drop(p, v).intervals == s.intervals;
  }

  lemma UnlistedStays(s: State, v: nat)
    requires Good(s) && Usable(s, v) && !OnList(s, v) && 0 < s.info[v].packets
    requires !Async(s.info[v]) && !Listable(s.speed[v]) && !s.speed[v].Super?
    ensures |s.intervals| == 16 && Usable(Add(s, v), v) && |Add(s, v).intervals| == 16
    ensures Drop(Add(s, v), v) == Add(s, v) != s
  {
    var n := Slot(s.info[v], s.speed[v]);
    var p := Add(s, v);
    assert p.intervals[n].packets != s.intervals[n].packets;
  }

  /** Adding an endpoint and dropping it again leaves the table as it was, unless the device
      has a speed the driver does not list: then the totals are charged and never taken
      back. */
  lemma DropUndoesAddIff(s: State, v: nat)
    requires Good(s) && Usable(s, v) && !OnList(s, v) && 0 < s.info[v].packets
    ensures |s.intervals| == 16 && Usable(Add(s, v), v) && |Add(s, v).intervals| == 16
    ensures Drop(Add(s, v), v) == s <==>
            Async(s.info[v]) || Listable(s.speed[v]) || s.speed[v].Super?
  {
    if Async(s.info[v]) || s.speed[v].Super? {
    } else if Listable(s.speed[v]) {
      ListedComesBack(s, v);
    } else {
      UnlistedStays(s, v);
    }
  }

  lemma {:induction false} RemoveInserted(info: map<nat, Info>, eps: seq<nat>, id: nat)
    requires id !in eps
    ensures Remove(Insert(info, eps, id), id) == eps
  {
    if eps != [] && Mps(info, id) < Mps(info, eps[0]) {
      RemoveInserted(info, eps[1..], id);
      assert Insert(info, eps, id)[1..] == Insert(info, eps[1..], id);
    }
  }

  /** Between transactions the listed endpoints of a device are those with a periodic record,
      and endpoint 0 has none. */
  ghost predicate Tidy(s: State, base: nat) {
    && base in s.info && Async(s.info[base])
    && forall v :: base <= v < base + 31 ==> TidyAt(s, v)
  }

  ghost predicate TidyAt(s: State, v: nat) {
    && v in s.info
    && v in s.speed
    && (Listable(s.speed[v]) ==> (OnList(s, v) <==> !Async(s.info[v])))
  }

  /** A successful reservation leaves the device ready for the next one. */
  lemma StaysTidy(s: State, r: Request, q: State)
    requires Proper(s, r) && Tidy(s, r.base) && AddedTo(s, r, 31, q)
    ensures Tidy(q, r.base)
  {
    forall v | r.base <= v < r.base + 31 ensures TidyAt(q, v) {
      assert TidyAt(s, v) && ProperAt(s, r, v);
      assert Named(r, v, 31);
    }
  }

  /** Endpoint v is on the list of interval n and on no other. */
  ghost predicate ListedAt(q: State, v: nat, n: int) {
    forall m :: 0 <= m < |q.intervals| ==> (v in q.intervals[m].eps <==> m == n)
  }

  ghost predicate Unlisted(q: State, v: nat) {
    forall m :: 0 <= m < |q.intervals| ==> v !in q.intervals[m].eps
  }

  /** The list a periodic endpoint of a listed speed belongs on: its interval is counted in
      frames unless the device is high speed. */
  function ListOf(x: Info, sp: Speed): int {
    if sp == High then x.interval else x.interval - 3
  }

  /** What a granted request has made of endpoint context i, from the request and the state
      before it. */
  ghost predicate GrantedAt(s: State, r: Request, q: State, i: nat)
    requires i < |r.changes|
  {
    var v, c := r.base + i, r.changes[i];
    && v in s.info && v in s.speed && v in q.info
    && var listed := s.speed[v] == Low || s.speed[v] == Full || s.speed[v] == High;
       && (i != 0 && c.added && c.next.typ != OtherType ==>
             q.info[v] == c.next && (listed ==> ListedAt(q, v, ListOf(c.next, s.speed[v]))))
       && (i != 0 && c.added && c.next.typ == OtherType ==> q.info[v] == s.info[v])
       && (i != 0 && c.dropped && !c.added ==>
             q.info[v] == Info(0, 0, 0, 0, 0, OtherType) && (listed ==> Unlisted(q, v)))
       && (!c.added && !c.dropped ==>
             && q.info[v] == s.info[v]
             && (Unlisted(q, v) <==> Unlisted(s, v))
             && (!Unlisted(s, v) ==> ListedAt(q, v, ListOf(s.info[v], s.speed[v]))))
       && (i == 0 ==> q.info[v] == s.info[v])
  }

  /** A listed endpoint is on the list its record says, and on no other. */
  lemma WhereListed(q: State, v: nat)
    requires Good(q)
    ensures OnList(q, v) <==> !Unlisted(q, v)
    ensures OnList(q, v) ==>
              v in q.info && v in q.speed && ListedAt(q, v, ListOf(q.info[v], q.speed[v]))
  {
    forall m | 0 <= m < 16 && v in q.intervals[m].eps
      ensures v in q.info && v in q.speed && m == ListOf(q.info[v], q.speed[v])
    {
      BelongsHere(q, m, v);
    }
  }

  lemma Granted(s: State, r: Request, q: State, i: nat)
    requires Proper(s, r) && AddedTo(s, r, 31, q) && i < 31
    ensures GrantedAt(s, r, q, i)
  {
    var v := r.base + i;
    assert ProperAt(s, r, v) && Named(r, v, 31);
    WhereListed(s, v);
    WhereListed(q, v);
  }

  /** Nobody else's endpoint is touched. */
  lemma OthersAsBefore(s: State, r: Request, q: State, v: nat)
    requires Proper(s, r) && AddedTo(s, r, 31, q) && !(r.base <= v < r.base + 31)
    ensures v in q.info <==> v in s.info
    ensures v in s.info ==> q.info[v] == s.info[v]
    ensures Unlisted(q, v) <==> Unlisted(s, v)
  {
    WhereListed(s, v);
    WhereListed(q, v);
  }

  /** The records of the first k endpoints. */
  ghost predicate Saved(r: Request, info: map<nat, Info>, saved: seq<Info>, k: nat) {
    |saved| == k && forall j :: 0 <= j < k ==> SavedAt(r, info, saved, j)
  }

  ghost predicate SavedAt(r: Request, info: map<nat, Info>, saved: seq<Info>, j: nat)
    requires j < |saved|
  {
    r.base + j in info && saved[j] == info[r.base + j]
  }

  lemma SavedMore(r: Request, info: map<nat, Info>, saved: seq<Info>, k: nat)
    requires Saved(r, info, saved, k) && r.base + k in info
    ensures Saved(r, info, saved + [info[r.base + k]], k + 1)
  {
    var more := saved + [info[r.base + k]];
    forall j | 0 <= j < k + 1 ensures SavedAt(r, info, more, j) {
      assert j < k ==> SavedAt(r, info, saved, j);
    }
  }

  // ------------------------------------------------------------------------ the object

  class Domain {
    const speed: map<nat, Speed>
    const tt: bool
    var info: map<nat, Info>
    var intervals: seq<Interval>
    var esit0: int
    var ssIn: int
    var ssOut: int
    var active: int

    constructor (speed: map<nat, Speed>, tt: bool, info: map<nat, Info>)
      requires forall v :: v in info ==> Async(info[v])
      ensures Good(Now()) && this.speed == speed && this.info == info
    {
      this.speed, this.tt, this.info := speed, tt, info;
      intervals := seq(16, _ => Interval(0, 0, 0, 0, []));
      esit0, ssIn, ssOut, active := 0, 0, 0, 0;
      new;
      EmptyPopulation(16);
    }

    ghost function Now(): State
      reads this
    {
      State(info, speed, intervals, esit0, ssIn, ssOut, tt, active)
    }

    /** The loop that finds an endpoint's place on a list. */
    static method InsertEp(info: map<nat, Info>, eps: seq<nat>, id: nat) returns (r: seq<nat>)
      ensures r == Insert(info, eps, id)
    {
      var i := 0;
      while i < |eps|
        invariant 0 <= i <= |eps|
        invariant Insert(info, eps, id) == eps[..i] + Insert(info, eps[i..], id)
      {
        if Mps(info, id) >= Mps(info, eps[i]) {
          return eps[..i] + [id] + eps[i..];
        }
        InsertLater(info, eps, id, i);
        i := i + 1;
      }
      assert eps[..i] == eps;
      r := eps + [id];
    }

    method AddEp(id: nat)
      requires Usable(Now(), id) && |intervals| == 16
      modifies this`intervals, this`esit0, this`ssIn, this`ssOut, this`active
      ensures Now() == Add(old(Now()), id)
    {
      var x, sp := info[id], speed[id];
      if Async(x) {
        return;
      }
      if sp.Super? {
        if x.typ.IsocIn? || x.typ.IntIn? {
          ssIn := ssIn + Consumed(x);
        } else {
          ssOut := ssOut + Consumed(x);
        }
        return;
      }
      var n := Slot(x, sp);
      if n == 0 {
        esit0 := esit0 + x.esit;
      }
      var v := intervals[n];
      v := Tally(v, x, sp, 1);
      intervals := intervals[n := v];
      if !Listable(sp) {
        return;
      }
      if tt {
        active := active + 1;
      }
      var eps := InsertEp(info, v.eps, id);
      intervals := intervals[n := v.(eps := eps)];
    }

    method DropEp(id: nat)
      requires Usable(Now(), id) && |intervals| == 16
      modifies this`intervals, this`esit0, this`ssIn, this`ssOut, this`active
      ensures Now() == Drop(old(Now()), id)
    {
      var x, sp := info[id], speed[id];
      if Async(x) {
        return;
      }
      if sp.Super? {
        if x.typ.IsocIn? || x.typ.IntIn? {
          ssIn := ssIn - Consumed(x);
        } else {
          ssOut := ssOut - Consumed(x);
        }
        return;
      }
      if !(exists m :: 0 <= m < |intervals| && id in intervals[m].eps) {
        return;
      }
      assert OnList(Now(), id);
      var n := Slot(x, sp);
      if n == 0 {
        esit0 := esit0 - x.esit;
      }
      var v := Tally(intervals[n], x, sp, -1);
      intervals := intervals[n := v];
      if !Listable(sp) {
        return;
      }
      if tt {
        active := active - 1;
      }
      intervals := intervals[n := v.(eps := Remove(v.eps, id))];
    }

    /** ehub_xhci_update_bw_info; endpoint context 0 is left alone. */
    method UpdateBwInfo(r: Request, ghost s: State)
      requires Proper(s, r) && s.info == info
      modifies this`info
      ensures info == Updated(s, r, 31)
      ensures forall i :: 0 <= i < 31 ==> RecordAt(s, r, info, i)
    {
      var i := 1;
      while i < 31
        invariant 1 <= i <= 31 && info == Updated(s, r, i)
      {
        var v := r.base + i;
        var c := r.changes[i];
        assert ProperAt(s, r, v);
        if !c.added && c.dropped {
          info := info[v := CLEARED];
        } else if c.added && !Async(c.next) {
          info := info[v := c.next];
        }
        i := i + 1;
      }
      forall k | 0 <= k < 31 ensures RecordAt(s, r, info, k) {
        assert ProperAt(s, r, r.base + k);
      }
    }

    /** The first loop: remember the records and take out what is dropped. */
    method DropAll(r: Request) returns (saved: seq<Info>)
      requires Proper(Now(), r)
      modifies this
      ensures DroppedTo(old(Now()), r, 31, Now())
      ensures info == old(info) && Saved(r, info, saved, 31)
    {
      ghost var s := Now();
      saved := [];
      var i := 0;
      DroppedStarts(s, r);
      while i < 31
        invariant 0 <= i <= 31 && DroppedTo(s, r, i, Now())
        invariant info == s.info && Saved(r, info, saved, i)
      {
        DroppedNext(s, r, i, Now());
        SavedMore(r, info, saved, i);
        saved := saved + [info[r.base + i]];
        if r.changes[i].dropped {
          DropEp(r.base + i);
        }
        i := i + 1;
      }
    }

    /** The third loop: put in what is added. */
    method AddAll(r: Request, ghost s: State)
      requires Proper(s, r) && AddedTo(s, r, 0, Now())
      modifies this
      ensures AddedTo(s, r, 31, Now())
    {
      var i := 0;
      while i < 31
        invariant 0 <= i <= 31 && AddedTo(s, r, i, Now())
      {
        AddedNext(s, r, i, Now());
        if r.changes[i].added {
          AddEp(r.base + i);
        }
        i := i + 1;
      }
    }

    method RevertEp(v: nat, c: Change, was: Info)
      requires Usable(Now(), v) && |intervals| == 16
      requires Usable(Now().(info := info[v := was]), v)
      modifies this
      ensures Now() == Revert(old(Now()), v, c, was)
    {
      if c.added || c.dropped {
        if c.added {
          DropEp(v);
        }
        info := info[v := was];
        if c.dropped {
          AddEp(v);
        }
      }
    }

    /** The last loop: take the new endpoints out and put the old ones back. */
    method RevertAll(r: Request, saved: seq<Info>, ghost s: State)
      requires Proper(s, r) && RevertedTo(s, r, 0, Now())
      requires Saved(r, s.info, saved, 31)
      modifies this
      ensures RevertedTo(s, r, 31, Now())
    {
      var i := 0;
      while i < 31
        invariant 0 <= i <= 31 && RevertedTo(s, r, i, Now())
      {
        assert SavedAt(r, s.info, saved, i);
        RevertTurn(r, i, saved[i], s);
        i := i + 1;
      }
    }

    method RevertTurn(r: Request, i: nat, was: Info, ghost s: State)
      requires Proper(s, r) && i < 31 && RevertedTo(s, r, i, Now())
      requires r.base + i in s.info && was == s.info[r.base + i]
      modifies this
      ensures RevertedTo(s, r, i + 1, Now())
    {
      RevertedNext(s, r, i, Now());
      RevertEp(r.base + i, r.changes[i], was);
    }

    /** xhci_reserve_bandwidth.  `fits` is the verdict on the table with the new endpoints in
        it.  A refusal leaves every total, every record and every list as it was. */
    method ReserveBandwidth(r: Request, fits: bool) returns (ok: bool)
      requires Proper(Now(), r)
      modifies this
      ensures ok == fits && Good(Now())
      ensures !ok ==> Restored(old(Now()), Now())
      ensures ok ==> AddedTo(old(Now()), r, 31, Now())
      ensures ok ==> forall i :: 0 <= i < 31 ==> GrantedAt(old(Now()), r, Now(), i)
    {
      ghost var s := Now();
      var saved := DropAll(r);
      UpdatedKeeps(s, r, Now());
      UpdateBwInfo(r, s);
      AddAll(r, s);
      ok := fits;
      if !fits {
        RevertedStarts(s, r, Now());
        RevertAll(r, saved, s);
        RevertedEnds(s, r, Now());
      } else {
        forall i | 0 <= i < 31 ensures GrantedAt(s, r, Now(), i) {
          Granted(s, r, Now(), i);
        }
      }
    }
  }

  /** Looking at one more endpoint of the list. */
  lemma InsertLater(info: map<nat, Info>, eps: seq<nat>, id: nat, i: nat)
    requires i < |eps| && Mps(info, id) < Mps(info, eps[i])
    ensures eps[..i] + Insert(info, eps[i..], id) == eps[..i + 1] + Insert(info, eps[i + 1..], id)
  {
    var rest := Insert(info, eps[i + 1..], id);
    assert eps[i..][1..] == eps[i + 1..];
    assert Insert(info, eps[i..], id) == [eps[i]] + rest;
    OneFurther(eps, i, rest);
  }

  lemma OneFurther(eps: seq<nat>, i: nat, rest: seq<nat>)
    requires i < |eps|
    ensures eps[..i] + ([eps[i]] + rest) == eps[..i + 1] + rest
  {
  }

  lemma {:induction false} EmptyPopulation(n: nat)
    ensures Population(seq(n, _ => Interval(0, 0, 0, 0, []))) == 0
  {
    if n != 0 {
      EmptyPopulation(n - 1);
      assert seq(n, _ => Interval(0, 0, 0, 0, []))[1..] ==
             seq(n - 1, _ => Interval(0, 0, 0, 0, []));
    }
  }
}
