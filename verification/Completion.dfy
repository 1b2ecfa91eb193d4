/** Which URBs an endpoint still owes its callers.  A URB is a row of TDs; each TD is on the
    ring's TD list, on the endpoint's list of cancelled TDs, or on both, until it is done. */
module Completion {
  import opened Lists

  datatype Td = Td(urb: nat, index: nat)

  /** urb_priv: TDs done so far, TDs in all, and whether the URB has been unlinked. */
  datatype Urb = Urb(tdCnt: nat, length: nat, unlinked: bool)

  /** `unlinked` TDs at the head of the cancelled list have been taken off the ring list by
      the Stop Endpoint handler and wait to be given back.  `submitted` and `given` record
      the URBs accepted and the URBs given back. */
  datatype State = State(
    tdList: seq<Td>,
    cancelled: seq<Td>,
    urbs: map<nat, Urb>,
    unlinked: nat,
    dying: bool,
    submitted: set<nat>,
    given: seq<nat>
  )

  // ------------------------------------------------------------------------- the lists

  /** The TDs of one URB on a list, in list order. */
  function Of(list: seq<Td>, u: nat): seq<nat> {
    if list == [] then []
    else (if list[0].urb == u then [list[0].index] else []) + Of(list[1..], u)
  }

  function Range(a: nat, b: nat): (r: seq<nat>)
    ensures |r| == if a < b then b - a else 0
    decreases b - a
  {
    if a < b then [a] + Range(a + 1, b) else []
  }

  /** The TDs of a list that are not on another. */
  function Without(list: seq<Td>, out: seq<Td>): seq<Td> {
    if list == [] then []
    else (if list[0] in out then [] else [list[0]]) + Without(list[1..], out)
  }

  function TdsOf(u: nat, a: nat, b: nat): seq<Td>
    decreases b - a
  {
    if a < b then [Td(u, a)] + TdsOf(u, a + 1, b) else []
  }

  lemma {:induction false} OfConcat(l: seq<Td>, m: seq<Td>, u: nat)
    ensures Of(l + m, u) == Of(l, u) + Of(m, u)
  {
    if l == [] {
      assert l + m == m;
    } else {
      assert (l + m)[1..] == l[1..] + m;
      OfConcat(l[1..], m, u);
      var x := if l[0].urb == u then [l[0].index] else [];
      assert x + (Of(l[1..], u) + Of(m, u)) == (x + Of(l[1..], u)) + Of(m, u);
    }
  }

  lemma {:induction false} OfTdsOf(u: nat, a: nat, b: nat, v: nat)
    ensures Of(TdsOf(u, a, b), v) == if v == u then Range(a, b) else []
    decreases b - a
  {
    if a < b {
      OfTdsOf(u, a + 1, b, v);
      assert TdsOf(u, a, b)[1..] == TdsOf(u, a + 1, b);
    }
  }

  lemma {:induction false} OfIn(list: seq<Td>, td: Td)
    ensures td in list <==> td.index in Of(list, td.urb)
  {
    if list != [] {
      OfIn(list[1..], td);
    }
  }

  lemma {:induction false} OfRemove(list: seq<Td>, td: Td, v: nat)
    ensures v != td.urb ==> Of(Remove(list, td), v) == Of(list, v)
    ensures Of(list, td.urb) == [] ==> Of(Remove(list, td), td.urb) == []
    ensures Of(list, td.urb) != [] && Of(list, td.urb)[0] == td.index ==>
              Of(Remove(list, td), td.urb) == Of(list, td.urb)[1..]
  {
    if list != [] {
      OfRemove(list[1..], td, v);
      if list[0] != td {
        assert Remove(list, td)[1..] == Remove(list[1..], td);
      }
    }
  }

  lemma {:induction false} WithoutIn(list: seq<Td>, out: seq<Td>, x: Td)
    ensures x in Without(list, out) <==> x in list && x !in out
  {
    if list != [] {
      WithoutIn(list[1..], out, x);
    }
  }

  lemma {:induction false} WithoutNone(list: seq<Td>)
    ensures Without(list, []) == list
  {
    if list != [] {
      WithoutNone(list[1..]);
    }
  }

  lemma RemoveHead(x: Td, rest: seq<Td>, td: Td)
    ensures Remove([x] + rest, td) == if x == td then rest else [x] + Remove(rest, td)
  {
    assert ([x] + rest)[1..] == rest;
  }

  lemma WithoutHead(x: Td, rest: seq<Td>, out: seq<Td>)
    ensures Without([x] + rest, out) ==
            if x in out then Without(rest, out) else [x] + Without(rest, out)
  {
    assert ([x] + rest)[1..] == rest;
  }

  /** Taking one more TD out of a list without repetitions. */
  lemma {:induction false} WithoutOne(list: seq<Td>, out: seq<Td>, td: Td)
    requires forall i, k :: 0 <= i < k < |list| ==> list[i] != list[k]
    ensures Without(list, out + [td]) == Remove(Without(list, out), td)
  {
    if list != [] {
      var x, rest := list[0], list[1..];
      assert list == [x] + rest && x !in rest;
      WithoutOne(rest, out, td);
      WithoutHead(x, rest, out);
      WithoutHead(x, rest, out + [td]);
      RemoveHead(x, Without(rest, out), td);
      WithoutIn(rest, out, x);
      if x == td {
        RemoveAbsent(Without(rest, out), td);
      }
    }
  }

  /** Taking out a list that holds all of a URB's TDs, or none of them. */
  lemma {:induction false} OfWithout(list: seq<Td>, out: seq<Td>, u: nat)
    ensures Of(out, u) == [] ==> Of(Without(list, out), u) == Of(list, u)
    ensures (forall i :: i in Of(list, u) ==> i in Of(out, u)) ==> Of(Without(list, out), u) == []
  {
    if list != [] {
      OfWithout(list[1..], out, u);
      OfIn(out, list[0]);
      OfConcat(if list[0] in out then [] else [list[0]], Without(list[1..], out), u);
      if forall i :: i in Of(list, u) ==> i in Of(out, u) {
        assert list[0].urb == u ==> list[0].index in Of(list, u);
        assert forall i :: i in Of(list[1..], u) ==> i in Of(list, u);
      }
    }
  }

  // --------------------------------------------------------------------- the invariant

  /** All of a live URB's remaining TDs, or none of them, are on a list. */
  predicate AllOrNone(list: seq<Td>, u: nat, b: Urb) {
    Of(list, u) == [] || Of(list, u) == Range(b.tdCnt, b.length)
  }

  /** A live URB has TDs left, all of them on one list at least, in order from number
      tdCnt; any other URB has none anywhere, and was given back once if ever accepted. */
  ghost predicate UrbOk(s: State, u: nat) {
    if u in s.urbs then
      var b := s.urbs[u];
      && b.tdCnt < b.length
      && AllOrNone(s.tdList, u, b)
      && AllOrNone(s.cancelled, u, b)
      && (Of(s.tdList, u) != [] || Of(s.cancelled, u) != [])
      && (Of(s.cancelled, u) != [] <==> b.unlinked)
      && u in s.submitted
      && multiset(s.given)[u] == 0
    else
      && Of(s.tdList, u) == [] == Of(s.cancelled, u)
      && multiset(s.given)[u] == if u in s.submitted then 1 else 0
  }

  ghost predicate Unlinked(s: State) {
    && s.unlinked <= |s.cancelled|
    && forall j :: 0 <= j < s.unlinked ==> s.cancelled[j] !in s.tdList
  }

  ghost predicate Good(s: State) {
    var good := (forall u :: UrbOk(s, u)) && Unlinked(s);
    good
  }

  // --------------------------------------------------------------------------- steps

  /** td_cnt++, and give the URB back when that was its last TD. */
  function Count(s: State, u: nat): State
    requires u in s.urbs
  {
    var b := s.urbs[u];
    if b.tdCnt + 1 == b.length then s.(urbs := s.urbs - {u}, given := s.given + [u])
    else s.(urbs := s.urbs[u := b.(tdCnt := b.tdCnt + 1)])
  }

  /** A TD leaves both lists and counts as done. */
  function Leave(s: State, td: Td): State
    requires td.urb in s.urbs
  {
    Count(s.(tdList := Remove(s.tdList, td), cancelled := Remove(s.cancelled, td)), td.urb)
  }

  /** prepare_transfer for every TD of a new URB. */
  function Submit(s: State, u: nat, n: nat): State {
    s.(tdList := s.tdList + TdsOf(u, 0, n),
       urbs := s.urbs[u := Urb(0, n, false)],
       submitted := s.submitted + {u})
  }

  /** ehub_xhci_urb_dequeue: the TDs that are left go on the cancelled list. */
  function Cancel(s: State, u: nat): State
    requires u in s.urbs
  {
    var b := s.urbs[u];
    s.(cancelled := s.cancelled + TdsOf(u, b.tdCnt, b.length), urbs := s.urbs[u := b.(unlinked := true)])
  }

  /** The first loop of xhci_handle_cmd_stop_ep. */
  function Unlink(s: State): State {
    s.(tdList := Without(s.tdList, s.cancelled), unlinked := |s.cancelled|)
  }

  /** One turn of its second loop. */
  function Giveback(s: State): State
    requires s.cancelled != [] && s.cancelled[0].urb in s.urbs && 0 < s.unlinked
  {
    Count(s.(cancelled := s.cancelled[1..], unlinked := s.unlinked - 1), s.cancelled[0].urb)
  }

  /** A list whose first TD belongs to u has all of u's TDs, the next due first. */
  lemma FirstIsDue(s: State, list: seq<Td>)
    requires Good(s) && (list == s.tdList || list == s.cancelled) && list != []
    ensures list[0].urb in s.urbs
    ensures list[0].index == s.urbs[list[0].urb].tdCnt
    ensures list[1..] == Remove(list, list[0])
  {
    assert UrbOk(s, list[0].urb);
    assert Of(list, list[0].urb)[0] == list[0].index;
  }

  lemma RangeFirst(a: nat, b: nat)
    requires a < b
    ensures Range(a, b)[0] == a && Range(a, b)[1..] == Range(a + 1, b)
  {
  }

  /** The list loses the next TD due of its URB, if it has any. */
  lemma LeaveList(list: seq<Td>, td: Td, b: Urb)
    requires AllOrNone(list, td.urb, b) && td.index == b.tdCnt < b.length
    ensures Of(Remove(list, td), td.urb) ==
            if Of(list, td.urb) == [] then [] else Range(b.tdCnt + 1, b.length)
  {
    RangeFirst(b.tdCnt, b.length);
    OfRemove(list, td, td.urb);
  }

  lemma GivenMore(given: seq<nat>, u: nat, v: nat)
    ensures multiset(given + [u])[v] == multiset(given)[v] + if v == u then 1 else 0
  {
  }

  lemma LeaveSame(s: State, td: Td)
    requires UrbOk(s, td.urb) && td.urb in s.urbs && td.index == s.urbs[td.urb].tdCnt
    ensures UrbOk(Leave(s, td), td.urb)
  {
    LeaveList(s.tdList, td, s.urbs[td.urb]);
    LeaveList(s.cancelled, td, s.urbs[td.urb]);
    GivenMore(s.given, td.urb, td.urb);
  }

  /** UrbOk only looks at the TDs, the record and the history of its own URB. */
  lemma UrbOkLocal(s: State, q: State, u: nat)
    requires UrbOk(s, u)
    requires Of(q.tdList, u) == Of(s.tdList, u) && Of(q.cancelled, u) == Of(s.cancelled, u)
    requires u in q.urbs <==> u in s.urbs
    requires u in s.urbs ==> q.urbs[u] == s.urbs[u]
    requires u in q.submitted <==> u in s.submitted
    requires multiset(q.given)[u] == multiset(s.given)[u]
    ensures UrbOk(q, u)
  {
  }

  lemma LeaveUrb(s: State, td: Td, u: nat)
    requires UrbOk(s, td.urb) && UrbOk(s, u)
    requires td.urb in s.urbs && td.index == s.urbs[td.urb].tdCnt
    ensures UrbOk(Leave(s, td), u)
  {
    if u == td.urb {
      LeaveSame(s, td);
    } else {
      OfRemove(s.tdList, td, u);
      OfRemove(s.cancelled, td, u);
      CountOther(s.(tdList := Remove(s.tdList, td), cancelled := Remove(s.cancelled, td)), td.urb, u);
      UrbOkLocal(s, Leave(s, td), u);
    }
  }

  /** Counting a TD of one URB says nothing about another. */
  lemma CountOther(s: State, u: nat, v: nat)
    requires u in s.urbs && v != u
    ensures var q := Count(s, u);
            && q.tdList == s.tdList && q.cancelled == s.cancelled && q.submitted == s.submitted
            && (v in q.urbs <==> v in s.urbs)
            && (v in s.urbs ==> q.urbs[v] == s.urbs[v])
            && multiset(q.given)[v] == multiset(s.given)[v]
  {
    GivenMore(s.given, u, v);
  }

  /** A URB's next TD leaving keeps the invariant. */
  lemma LeaveKeeps(s: State, td: Td)
    requires Good(s) && td.urb in s.urbs && td.index == s.urbs[td.urb].tdCnt
    requires s.unlinked == 0
    ensures Good(Leave(s, td))
  {
    assert UrbOk(s, td.urb);
    forall u ensures UrbOk(Leave(s, td), u) {
      assert UrbOk(s, u);
      LeaveUrb(s, td, u);
    }
  }

  lemma SubmitKeeps(s: State, u: nat, n: nat)
    requires Good(s) && u !in s.submitted && 0 < n
    ensures Good(Submit(s, u, n))
  {
    var q := Submit(s, u, n);
    forall v ensures UrbOk(q, v) {
      assert UrbOk(s, v) && UrbOk(s, u);
      OfConcat(s.tdList, TdsOf(u, 0, n), v);
      OfTdsOf(u, 0, n, v);
    }
    forall j | 0 <= j < q.unlinked ensures q.cancelled[j] !in q.tdList {
      var td := s.cancelled[j];
      assert UrbOk(s, td.urb);
      OfIn(s.cancelled, td);
      OfTdsOf(u, 0, n, td.urb);
      OfIn(TdsOf(u, 0, n), td);
      assert UrbOk(s, u);
    }
  }

  lemma CancelKeeps(s: State, u: nat)
    requires Good(s) && u in s.urbs && !s.urbs[u].unlinked
    ensures Good(Cancel(s, u))
  {
    forall v ensures UrbOk(Cancel(s, u), v) {
      assert UrbOk(s, v) && UrbOk(s, u);
      CancelUrb(s, u, v);
    }
  }

  lemma CancelUrb(s: State, u: nat, v: nat)
    requires u in s.urbs && !s.urbs[u].unlinked && UrbOk(s, u) && UrbOk(s, v)
    ensures UrbOk(Cancel(s, u), v)
  {
    var b := s.urbs[u];
    OfConcat(s.cancelled, TdsOf(u, b.tdCnt, b.length), v);
    OfTdsOf(u, b.tdCnt, b.length, v);
    if v != u {
      UrbOkLocal(s, Cancel(s, u), v);
    }
  }

  lemma UnlinkKeeps(s: State)
    requires Good(s)
    ensures Good(Unlink(s))
  {
    forall u ensures UrbOk(Unlink(s), u) {
      assert UrbOk(s, u);
      OfWithout(s.tdList, s.cancelled, u);
    }
    forall j | 0 <= j < |s.cancelled| ensures s.cancelled[j] !in Unlink(s).tdList {
      WithoutIn(s.tdList, s.cancelled, s.cancelled[j]);
    }
  }

  lemma GivebackKeeps(s: State)
    requires Good(s) && 0 < s.unlinked
    ensures s.cancelled[0].urb in s.urbs
    ensures Good(Giveback(s))
  {
    var td := s.cancelled[0];
    FirstIsDue(s, s.cancelled);
    RemoveAbsent(s.tdList, td);
    var q := Giveback(s);
    assert q == Leave(s, td).(unlinked := s.unlinked - 1);
    forall u ensures UrbOk(q, u) {
      assert UrbOk(s, u) && UrbOk(s, td.urb);
      LeaveUrb(s, td, u);
      assert UrbOk(Leave(s, td), u);
    }
  }

  /** ehub_xhci_urb_dequeue on a device that is gone: the URB leaves whole. */
  function Drop(s: State, u: nat): State
    requires u in s.urbs
  {
    var rest := TdsOf(u, s.urbs[u].tdCnt, s.urbs[u].length);
    s.(tdList := Without(s.tdList, rest),
       cancelled := Without(s.cancelled, rest),
       urbs := s.urbs - {u},
       given := s.given + [u])
  }

  lemma {:induction false} WithoutOthers(list: seq<Td>, u: nat, a: nat, b: nat)
    requires Of(list, u) == []
    ensures Without(list, TdsOf(u, a, b)) == list
  {
    if list != [] {
      WithoutOthers(list[1..], u, a, b);
      OfTdsOf(u, a, b, list[0].urb);
      OfIn(TdsOf(u, a, b), list[0]);
    }
  }

  /** A URB may leave whole even while the Stop Endpoint handler is giving back others. */
  lemma DropKeeps(s: State, u: nat)
    requires Good(s) && u in s.urbs && (s.unlinked == 0 || !s.urbs[u].unlinked)
    ensures Good(Drop(s, u))
    ensures !s.urbs[u].unlinked ==> Drop(s, u).cancelled == s.cancelled
  {
    assert UrbOk(s, u);
    if !s.urbs[u].unlinked {
      WithoutOthers(s.cancelled, u, s.urbs[u].tdCnt, s.urbs[u].length);
      forall td ensures td in Drop(s, u).tdList ==> td in s.tdList {
        WithoutIn(s.tdList, TdsOf(u, s.urbs[u].tdCnt, s.urbs[u].length), td);
      }
    }
    var rest := TdsOf(u, s.urbs[u].tdCnt, s.urbs[u].length);
    forall v ensures UrbOk(Drop(s, u), v) {
      assert UrbOk(s, v) && UrbOk(s, u);
      OfTdsOf(u, s.urbs[u].tdCnt, s.urbs[u].length, v);
      OfWithout(s.tdList, rest, v);
      OfWithout(s.cancelled, rest, v);
      GivenMore(s.given, u, v);
      if v != u {
        UrbOkLocal(s, Drop(s, u), v);
      }
    }
  }

  lemma OneMoreTd(list: seq<Td>, u: nat, i: nat, length: nat)
    requires i < length
    ensures list + TdsOf(u, i, length) == (list + [Td(u, i)]) + TdsOf(u, i + 1, length)
  {
  }

  /** Where a TD of a list shows up among its URB's. */
  lemma OfAt(list: seq<Td>, i: nat)
    requires i < |list|
    ensures var u := list[i].urb;
            var a := |Of(list[..i], u)|;
            && a < |Of(list, u)|
            && Of(list, u)[a] == list[i].index
            && |Of(list[..i + 1], u)| == a + 1
  {
    var u := list[i].urb;
    assert list == list[..i] + list[i..];
    OfConcat(list[..i], list[i..], u);
    assert list[..i + 1] == list[..i] + [list[i]];
    OfConcat(list[..i], [list[i]], u);
  }

  lemma {:induction false} RangeAt(a: nat, b: nat, i: nat)
    requires a + i < b
    ensures Range(a, b)[i] == a + i
    decreases i
  {
    if i != 0 {
      RangeAt(a + 1, b, i - 1);
    }
  }

  /** No TD is on the ring's list twice. */
  lemma NoRepeats(s: State)
    requires Good(s)
    ensures forall i, k :: 0 <= i < k < |s.tdList| ==> s.tdList[i] != s.tdList[k]
  {
    var list := s.tdList;
    forall i, k | 0 <= i < k < |list| ensures list[i] != list[k] {
      if list[i] == list[k] {
        var u := list[i].urb;
        OfAt(list, i);
        OfAt(list, k);
        assert list[..k] == list[..i + 1] + list[i + 1..k];
        OfConcat(list[..i + 1], list[i + 1..k], u);
        assert UrbOk(s, u);
        RangeAt(s.urbs[u].tdCnt, s.urbs[u].length, |Of(list[..i], u)|);
        RangeAt(s.urbs[u].tdCnt, s.urbs[u].length, |Of(list[..k], u)|);
        assert false;
      }
    }
  }

  // ---------------------------------------------------------------------- whole runs

  datatype Event =
    | Submission(u: nat, n: nat)   // a URB of n TDs is queued
    | Finished                     // finish_td for the first TD of the ring
    | Cancelled(u: nat)            // the URB is unlinked
    | Dropped(u: nat)              // the URB is unlinked from a device that is gone
    | Stopped                      // Stop Endpoint completed: cancelled TDs leave the ring
    | GivenBack                    // and their URBs are completed, one TD at a time
    | Died                         // the host is declared dying, the handler gives up
    | Killed                       // xhci_kill_endpoint_urbs takes one more TD

  predicate Enabled(s: State, ev: Event) {
    match ev
    case Submission(u, n) => u !in s.submitted && 0 < n && !s.dying
    case Finished => s.tdList != [] && s.unlinked == 0 && !s.dying
    case Cancelled(u) => u in s.urbs && !s.urbs[u].unlinked && !s.dying
    case Dropped(u) => u in s.urbs && (s.unlinked == 0 || !s.urbs[u].unlinked)
    case Stopped => s.unlinked == 0 && !s.dying
    case GivenBack => 0 < s.unlinked && !s.dying
    case Died => true
    case Killed => s.dying && s.unlinked == 0 && (s.tdList != [] || s.cancelled != [])
  }

  /** The TD xhci_kill_endpoint_urbs takes next. */
  function Victim(s: State): Td
    requires s.tdList != [] || s.cancelled != []
  {
    if s.tdList != [] then s.tdList[0] else s.cancelled[0]
  }

  ghost function Step(s: State, ev: Event): (q: State)
    requires Good(s) && Enabled(s, ev)
    ensures Good(q)
  {
    match ev
    case Submission(u, n) => SubmitKeeps(s, u, n); Submit(s, u, n)
    case Finished => FirstIsDue(s, s.tdList); LeaveKeeps(s, s.tdList[0]); Leave(s, s.tdList[0])
    case Cancelled(u) => CancelKeeps(s, u); Cancel(s, u)
    case Dropped(u) => DropKeeps(s, u); Drop(s, u)
    case Stopped => UnlinkKeeps(s); Unlink(s)
    case GivenBack => GivebackKeeps(s); Giveback(s)
    case Died => DieKeeps(s); s.(dying := true, unlinked := 0)
    case Killed =>
      FirstIsDue(s, if s.tdList != [] then s.tdList else s.cancelled);
      LeaveKeeps(s, Victim(s));
      Leave(s, Victim(s))
  }

  lemma DieKeeps(s: State)
    requires Good(s)
    ensures Good(s.(dying := true, unlinked := 0))
  {
    forall u ensures UrbOk(s.(dying := true, unlinked := 0), u) {
      assert UrbOk(s, u);
    }
  }

  // --------------------------------------------------------------- what each step does

  /** x comes somewhere in front of y. */
  ghost predicate Before(list: seq<Td>, x: Td, y: Td) {
    exists i, j :: 0 <= i < j < |list| && list[i] == x && list[j] == y
  }

  /** b is a without the TDs of `out`, in the same order. */
  ghost predicate Kept(a: seq<Td>, out: seq<Td>, b: seq<Td>) {
    && (forall x :: x in b <==> x in a && x !in out)
    && (forall x, y :: Before(b, x, y) <==> Before(a, x, y) && x !in out && y !in out)
  }

  /** td has left the list, if it was there, and nothing else has moved. */
  ghost predicate Gone(a: seq<Td>, td: Td, b: seq<Td>) {
    && td !in b
    && (td !in a ==> b == a)
    && (td in a ==> exists k :: 0 <= k < |a| && a[k] == td && b == a[..k] + a[k + 1..])
  }

  /** td_cnt of u is one higher; if that makes it the length, u is given back instead. */
  ghost predicate OneDone(s: State, u: nat, q: State) {
    && u in s.urbs
    && if s.urbs[u].tdCnt + 1 == s.urbs[u].length
       then q.urbs == s.urbs - {u} && q.given == s.given + [u]
       else q.urbs == s.urbs[u := s.urbs[u].(tdCnt := s.urbs[u].tdCnt + 1)] && q.given == s.given
  }

  /** The TDs a live URB has left. */
  ghost function Remaining(b: Urb, u: nat): seq<Td> {
    Row(u, b.tdCnt, if b.tdCnt < b.length then b.length - b.tdCnt else 0)
  }

  /** n TDs of u in a row, from number a on. */
  ghost function Row(u: nat, a: nat, n: nat): (r: seq<Td>)
    ensures |r| == n && forall i :: 0 <= i < n ==> r[i] == Td(u, a + i)
  {
    seq(n, i requires 0 <= i < n => Td(u, a + i))
  }

  /** The effect of every event, from the state before it. */
  ghost predicate Effect(s: State, ev: Event, q: State)
    requires Enabled(s, ev)
  {
    match ev
    case Submission(u, n) =>
      && q.tdList == s.tdList + Row(u, 0, n) && q.cancelled == s.cancelled
      && q.urbs == s.urbs[u := Urb(0, n, false)] && q.submitted == s.submitted + {u}
      && q.given == s.given && q.dying == s.dying && q.unlinked == s.unlinked
    case Finished =>
      && q.tdList == s.tdList[1..] && s.tdList[0] !in q.tdList
      && Gone(s.cancelled, s.tdList[0], q.cancelled)
      && OneDone(s, s.tdList[0].urb, q)
      && q.submitted == s.submitted && q.dying == s.dying && q.unlinked == s.unlinked
    case Cancelled(u) =>
      && q.tdList == s.tdList && q.cancelled == s.cancelled + Remaining(s.urbs[u], u)
      && q.urbs == s.urbs[u := s.urbs[u].(unlinked := true)] && q.given == s.given
      && q.submitted == s.submitted && q.dying == s.dying && q.unlinked == s.unlinked
    case Dropped(u) =>
      && Kept(s.tdList, Remaining(s.urbs[u], u), q.tdList)
      && Kept(s.cancelled, Remaining(s.urbs[u], u), q.cancelled)
      && (forall x :: x in q.tdList || x in q.cancelled ==> x.urb != u)
      && q.urbs == s.urbs - {u} && q.given == s.given + [u]
      && q.submitted == s.submitted && q.dying == s.dying && q.unlinked == s.unlinked
    case Stopped =>
      && Kept(s.tdList, s.cancelled, q.tdList) && q.cancelled == s.cancelled
      && q.urbs == s.urbs && q.given == s.given
      && q.submitted == s.submitted && q.dying == s.dying && q.unlinked == |s.cancelled|
    case GivenBack =>
      && q.tdList == s.tdList && s.cancelled != [] && q.cancelled == s.cancelled[1..]
      && OneDone(s, s.cancelled[0].urb, q)
      && q.submitted == s.submitted && q.dying == s.dying && q.unlinked == s.unlinked - 1
    case Died => q == s.(dying := true, unlinked := 0)
    case Killed =>
      && (if s.tdList != []
          then q.tdList == s.tdList[1..] && Gone(s.cancelled, s.tdList[0], q.cancelled)
          else q.tdList == [] && q.cancelled == s.cancelled[1..])
      && OneDone(s, Victim(s).urb, q)
      && q.submitted == s.submitted && q.dying == s.dying && q.unlinked == s.unlinked
  }

  lemma {:induction false} TdsOfAre(u: nat, a: nat, b: nat)
    requires a <= b
    ensures TdsOf(u, a, b) == Row(u, a, b - a)
    decreases b - a
  {
    if a < b {
      TdsOfAre(u, a + 1, b);
      assert Row(u, a, b - a) == [Td(u, a)] + Row(u, a + 1, b - a - 1);
    }
  }

  lemma RemainingAre(s: State, u: nat)
    requires u in s.urbs && s.urbs[u].tdCnt <= s.urbs[u].length
    ensures Remaining(s.urbs[u], u) == TdsOf(u, s.urbs[u].tdCnt, s.urbs[u].length)
  {
    TdsOfAre(u, s.urbs[u].tdCnt, s.urbs[u].length);
  }

  lemma BeforeHead(h: Td, t: seq<Td>, x: Td, y: Td)
    ensures Before([h] + t, x, y) <==> (h == x && y in t) || Before(t, x, y)
  {
    var l := [h] + t;
    if Before(l, x, y) {
      var i, j :| 0 <= i < j < |l| && l[i] == x && l[j] == y;
      assert t[j - 1] == y;
      if i != 0 {
        assert t[i - 1] == x;
      }
    }
    if h == x && y in t {
      var j :| 0 <= j < |t| && t[j] == y;
      assert l[0] == x && l[j + 1] == y;
    }
    if Before(t, x, y) {
      var i, j :| 0 <= i < j < |t| && t[i] == x && t[j] == y;
      assert l[i + 1] == x && l[j + 1] == y;
    }
  }

  lemma {:induction false} WithoutBefore(list: seq<Td>, out: seq<Td>, x: Td, y: Td)
    ensures Before(Without(list, out), x, y) <==> Before(list, x, y) && x !in out && y !in out
  {
    if list != [] {
      var h, t := list[0], list[1..];
      assert list == [h] + t;
      WithoutBefore(t, out, x, y);
      BeforeHead(h, t, x, y);
      WithoutHead(h, t, out);
      BeforeHead(h, Without(t, out), x, y);
      WithoutIn(t, out, y);
      assert Before(t, x, y) ==> y in t;
    }
  }

  lemma WithoutIsKept(list: seq<Td>, out: seq<Td>)
    ensures Kept(list, out, Without(list, out))
  {
    forall x ensures x in Without(list, out) <==> x in list && x !in out {
      WithoutIn(list, out, x);
    }
    forall x, y
      ensures Before(Without(list, out), x, y) <==> Before(list, x, y) && x !in out && y !in out
    {
      WithoutBefore(list, out, x, y);
    }
  }

  /** The next TD due of a URB is on a list once at most. */
  lemma DueOnce(list: seq<Td>, td: Td, b: Urb)
    requires AllOrNone(list, td.urb, b) && td.index == b.tdCnt < b.length
    ensures td !in Remove(list, td)
  {
    LeaveList(list, td, b);
    RangeIn(b.tdCnt + 1, b.length, td.index);
    OfIn(Remove(list, td), td);
  }

  lemma RemoveIsGone(list: seq<Td>, td: Td)
    requires td !in Remove(list, td)
    ensures Gone(list, td, Remove(list, td))
  {
    if td in list {
      var k := RemoveAt(list, td);
    } else {
      RemoveAbsent(list, td);
    }
  }

  lemma LeaveDoes(s: State, td: Td)
    requires Good(s) && td.urb in s.urbs && td.index == s.urbs[td.urb].tdCnt && s.unlinked == 0
    ensures var q := Leave(s, td);
            && q.tdList == Remove(s.tdList, td) && td !in q.tdList
            && Gone(s.cancelled, td, q.cancelled)
            && OneDone(s, td.urb, q)
            && q.submitted == s.submitted && q.dying == s.dying && q.unlinked == s.unlinked
  {
    assert UrbOk(s, td.urb);
    DueOnce(s.tdList, td, s.urbs[td.urb]);
    DueOnce(s.cancelled, td, s.urbs[td.urb]);
    RemoveIsGone(s.cancelled, td);
  }

  lemma DropDoes(s: State, u: nat)
    requires Good(s) && Enabled(s, Dropped(u))
    ensures Effect(s, Dropped(u), Drop(s, u))
  {
    assert UrbOk(s, u);
    RemainingAre(s, u);
    var rest := TdsOf(u, s.urbs[u].tdCnt, s.urbs[u].length);
    WithoutIsKept(s.tdList, rest);
    WithoutIsKept(s.cancelled, rest);
    DropKeeps(s, u);
    var q := Drop(s, u);
    forall x | x in q.tdList || x in q.cancelled ensures x.urb != u {
      assert UrbOk(q, u);
      OfIn(q.tdList, x);
      OfIn(q.cancelled, x);
    }
  }

  lemma KillDoes(s: State)
    requires Good(s) && Enabled(s, Killed)
    ensures Effect(s, Killed, Step(s, Killed))
  {
    FirstIsDue(s, if s.tdList != [] then s.tdList else s.cancelled);
    LeaveDoes(s, Victim(s));
    LeaveKeeps(s, Victim(s));
  }

  lemma CancelDoes(s: State, u: nat)
    requires Good(s) && Enabled(s, Cancelled(u))
    ensures Effect(s, Cancelled(u), Cancel(s, u))
  {
    assert UrbOk(s, u);
    RemainingAre(s, u);
  }

  /** Every step does what the event says, on both lists, in the records and in what is given
      back. */
  lemma StepDoes(s: State, ev: Event)
    requires Good(s) && Enabled(s, ev)
    ensures Effect(s, ev, Step(s, ev))
  {
    match ev
    case Submission(u, n) => TdsOfAre(u, 0, n);
    case Finished =>
      FirstIsDue(s, s.tdList);
      LeaveDoes(s, s.tdList[0]);
    case Cancelled(u) => CancelDoes(s, u);
    case Dropped(u) => DropDoes(s, u);
    case Stopped => WithoutIsKept(s.tdList, s.cancelled);
    case GivenBack => GivebackKeeps(s);
    case Died =>
    case Killed => KillDoes(s);
  }

  ghost predicate Runnable(s: State, evs: seq<Event>)
    requires Good(s)
    decreases |evs|
  {
    evs == [] || (Enabled(s, evs[0]) && Runnable(Step(s, evs[0]), evs[1..]))
  }

  ghost function Run(s: State, evs: seq<Event>): (q: State)
    requires Good(s) && Runnable(s, evs)
    ensures Good(q)
    decreases |evs|
  {
    if evs == [] then s else Run(Step(s, evs[0]), evs[1..])
  }

  const IDLE := State([], [], map[], 0, false, {}, [])

  lemma IdleGood()
    ensures Good(IDLE)
  {
    assert forall u :: UrbOk(IDLE, u);
  }

  /** The TDs of a live URB that are still on a list are those from number tdCnt on: what is
      done is a prefix. */
  lemma OnListIffNotDone(s: State, u: nat, i: nat)
    requires Good(s) && u in s.urbs
    ensures Td(u, i) in s.tdList || Td(u, i) in s.cancelled <==>
            s.urbs[u].tdCnt <= i < s.urbs[u].length
  {
    assert UrbOk(s, u);
    OfIn(s.tdList, Td(u, i));
    OfIn(s.cancelled, Td(u, i));
    RangeIn(s.urbs[u].tdCnt, s.urbs[u].length, i);
  }

  lemma {:induction false} RangeIn(a: nat, b: nat, i: nat)
    ensures i in Range(a, b) <==> a <= i < b
    decreases b - a
  {
    if a < b {
      RangeIn(a + 1, b, i);
    }
  }

  /** tdCnt plus the TDs still listed is the URB's length. */
  lemma CountsAddUp(s: State, u: nat)
    requires Good(s) && u in s.urbs
    ensures var listed := set i | 0 <= i < s.urbs[u].length &&
                                  (Td(u, i) in s.tdList || Td(u, i) in s.cancelled);
            s.urbs[u].tdCnt + |listed| == s.urbs[u].length
  {
    assert UrbOk(s, u);
    var b := s.urbs[u];
    var listed := set i | 0 <= i < b.length && (Td(u, i) in s.tdList || Td(u, i) in s.cancelled);
    forall i: nat ensures i in listed <==> b.tdCnt <= i < b.length {
      OnListIffNotDone(s, u, i);
    }
    assert listed == Interval(b.tdCnt, b.length);
  }

  ghost function Interval(a: nat, b: nat): (r: set<int>)
    ensures forall i :: i in r <==> a <= i < b
    ensures |r| == if a <= b then b - a else 0
    decreases b - a
  {
    if a < b then {a as int} + Interval(a + 1, b) else {}
  }

  /** In every run, a URB accepted is given back exactly once if none of its TDs is on either
      list, and not at all as long as one is; a URB never accepted is never given back. */
  lemma ExactlyOnce(evs: seq<Event>, u: nat)
    requires Good(IDLE) && Runnable(IDLE, evs)
    ensures var s := Run(IDLE, evs);
            && multiset(s.given)[u] ==
               (if u in s.submitted && Of(s.tdList, u) == [] == Of(s.cancelled, u) then 1 else 0)
            && (u in s.urbs <==> Of(s.tdList, u) != [] || Of(s.cancelled, u) != [])
  {
    var s := Run(IDLE, evs);
    assert UrbOk(s, u);
  }

  // ------------------------------------------------------ when a URB is given back

  /** The event counts a TD of u as done. */
  ghost predicate Takes(s: State, ev: Event, u: nat)
    requires Enabled(s, ev)
  {
    match ev
    case Finished => s.tdList[0].urb == u
    case GivenBack => s.cancelled != [] && s.cancelled[0].urb == u
    case Killed => Victim(s).urb == u
    case _ => false
  }

  /** How many TDs of u a run counts as done. */
  ghost function DoneIn(s: State, evs: seq<Event>, u: nat): nat
    requires Good(s) && Runnable(s, evs)
    decreases |evs|
  {
    if evs == [] then 0
    else (if Takes(s, evs[0], u) then 1 else 0) + DoneIn(Step(s, evs[0]), evs[1..], u)
  }

  /** One event, as seen from a live URB that is not dropped. */
  lemma EffectOnLive(s: State, ev: Event, q: State, u: nat)
    requires Enabled(s, ev) && Effect(s, ev, q) && u in s.urbs && u in s.submitted
    requires ev != Dropped(u)
    ensures var b := s.urbs[u];
            if Takes(s, ev, u) && b.tdCnt + 1 == b.length then u !in q.urbs && u in q.submitted
            else u in q.urbs && q.urbs[u].length == b.length &&
                 q.urbs[u].tdCnt == b.tdCnt + if Takes(s, ev, u) then 1 else 0
  {
  }

  lemma StepOnDone(s: State, ev: Event, u: nat)
    requires Good(s) && Enabled(s, ev) && u !in s.urbs && u in s.submitted
    ensures !Takes(s, ev, u) && u !in Step(s, ev).urbs && u in Step(s, ev).submitted
  {
    StepDoes(s, ev);
  }

  lemma {:induction false} DoneStaysDone(s: State, evs: seq<Event>, u: nat)
    requires Good(s) && Runnable(s, evs) && u !in s.urbs && u in s.submitted
    ensures DoneIn(s, evs, u) == 0
    ensures u !in Run(s, evs).urbs && multiset(Run(s, evs).given)[u] == 1
    decreases |evs|
  {
    assert UrbOk(s, u);
    if evs != [] {
      StepOnDone(s, evs[0], u);
      DoneStaysDone(Step(s, evs[0]), evs[1..], u);
    }
  }

  /** Over every run that does not drop it, a live URB is given back, once, exactly when as
      many of its TDs have been finished, given back or killed as it had left; until then its
      count is that number higher. */
  lemma {:induction false} GivenWhenAllDone(s: State, evs: seq<Event>, u: nat)
    requires Good(s) && Runnable(s, evs) && u in s.urbs && Dropped(u) !in evs
    ensures var b, q, n := s.urbs[u], Run(s, evs), DoneIn(s, evs, u);
            && b.tdCnt + n <= b.length
            && (if b.tdCnt + n == b.length then u !in q.urbs && multiset(q.given)[u] == 1
                else u in q.urbs && q.urbs[u].tdCnt == b.tdCnt + n && multiset(q.given)[u] == 0)
    decreases |evs|
  {
    assert UrbOk(s, u);
    if evs != [] {
      assert evs[0] != Dropped(u) && Dropped(u) !in evs[1..];
      StepDoes(s, evs[0]);
      EffectOnLive(s, evs[0], Step(s, evs[0]), u);
      if u in Step(s, evs[0]).urbs {
        GivenWhenAllDone(Step(s, evs[0]), evs[1..], u);
      } else {
        DoneStaysDone(Step(s, evs[0]), evs[1..], u);
      }
    }
  }

  /** An endpoint whose lists are empty owes nothing. */
  lemma NothingOwed(s: State, u: nat)
    requires Good(s) && s.tdList == [] == s.cancelled
    ensures u !in s.urbs && multiset(s.given)[u] == if u in s.submitted then 1 else 0
  {
    assert UrbOk(s, u);
  }

  // ------------------------------------------------------------------------ the object

  class Endpoint {
    var tdList: seq<Td>
    var cancelled: seq<Td>
    var urbs: map<nat, Urb>
    var dying: bool

    /** How far the Stop Endpoint handler has got, and what has happened so far. */
    ghost var unlinked: nat
    ghost var submitted: set<nat>
    var given: seq<nat>

    constructor ()
      ensures Now() == IDLE
    {
      tdList, cancelled, urbs, dying := [], [], map[], false;
      unlinked, submitted, given := 0, {}, [];
    }

    ghost function Now(): State
      reads this
    {
      State(tdList, cancelled, urbs, unlinked, dying, submitted, given)
    }

    /** td_cnt++; true if the URB is complete. */
    method CountTd(u: nat) returns (done: bool)
      requires u in urbs
      modifies this`urbs, this`given
      ensures Now() == Count(old(Now()), u)
      ensures done <==> u !in urbs
    {
      var b := urbs[u];
      done := b.tdCnt + 1 == b.length;
      if done {
        given := given + [u];
        urbs := urbs - {u};
      } else {
        urbs := urbs[u := b.(tdCnt := b.tdCnt + 1)];
      }
    }

    /** The list part of finish_td, for the TD at the head of the ring's list. */
    method FinishTd() returns (done: bool)
      requires Good(Now()) && Enabled(Now(), Finished)
      modifies this`tdList, this`cancelled, this`urbs, this`given
      ensures Now() == Step(old(Now()), Finished) && Effect(old(Now()), Finished, Now())
      ensures old(tdList[0].urb in urbs)
      ensures done <==> old(urbs[tdList[0].urb].tdCnt + 1 == urbs[tdList[0].urb].length)
      ensures given == if done then old(given) + [old(tdList)[0].urb] else old(given)
    {
      StepDoes(Now(), Finished);
      var td := tdList[0];
      FirstIsDue(Now(), tdList);
      tdList := tdList[1..];
      if td in cancelled {
        cancelled := Remove(cancelled, td);
      } else {
        RemoveAbsent(cancelled, td);
      }
      done := CountTd(td.urb);
    }

    /** The loop of ehub_xhci_urb_dequeue that puts the remaining TDs on the cancelled list. */
    method UrbDequeue(u: nat)
      requires Good(Now()) && Enabled(Now(), Cancelled(u))
      modifies this`cancelled, this`urbs
      ensures Now() == Step(old(Now()), Cancelled(u)) && Effect(old(Now()), Cancelled(u), Now())
    {
      StepDoes(Now(), Cancelled(u));
      ghost var was := cancelled;
      var i, length := urbs[u].tdCnt, urbs[u].length;
      assert UrbOk(Now(), u);
      while i < length
        invariant urbs == old(urbs) && urbs[u].tdCnt <= i <= length
        invariant cancelled + TdsOf(u, i, length) == was + TdsOf(u, urbs[u].tdCnt, length)
      {
        OneMoreTd(cancelled, u, i, length);
        cancelled := cancelled + [Td(u, i)];
        i := i + 1;
      }
      urbs := urbs[u := urbs[u].(unlinked := true)];
    }

    /** The first loop of xhci_handle_cmd_stop_ep: take every cancelled TD off the ring. */
    method UnlinkCancelled()
      requires Good(Now()) && Enabled(Now(), Stopped)
      modifies this`tdList, this`unlinked
      ensures Now() == Step(old(Now()), Stopped) && Effect(old(Now()), Stopped, Now())
    {
      StepDoes(Now(), Stopped);
      ghost var was := tdList;
      var j := 0;
      WithoutNone(was);
      NoRepeats(Now());
      while j < |cancelled|
        invariant 0 <= j <= |cancelled|
        invariant tdList == Without(was, cancelled[..j])
      {
        assert cancelled[..j + 1] == cancelled[..j] + [cancelled[j]];
        WithoutOne(was, cancelled[..j], cancelled[j]);
        tdList := Remove(tdList, cancelled[j]);
        j := j + 1;
      }
      assert cancelled[..j] == cancelled;
      unlinked := |cancelled|;
    }

    /** One turn of its second loop. */
    method GivebackCancelled() returns (done: bool)
      requires Good(Now()) && Enabled(Now(), GivenBack)
      modifies this`cancelled, this`urbs, this`given, this`unlinked
      ensures Now() == Step(old(Now()), GivenBack) && Effect(old(Now()), GivenBack, Now())
      ensures old(cancelled != [] && cancelled[0].urb in urbs)
      ensures done <==> old(urbs[cancelled[0].urb].tdCnt + 1 == urbs[cancelled[0].urb].length)
      ensures given == if done then old(given) + [old(cancelled)[0].urb] else old(given)
    {
      StepDoes(Now(), GivenBack);
      var td := cancelled[0];
      FirstIsDue(Now(), cancelled);
      cancelled := cancelled[1..];
      unlinked := unlinked - 1;
      done := CountTd(td.urb);
    }

    /** xhci_kill_endpoint_urbs: every TD leaves, and every URB accepted has then been given
        back exactly once. */
    method KillUrbs()
      requires Good(Now()) && dying && unlinked == 0
      modifies this`tdList, this`cancelled, this`urbs, this`given
      ensures Good(Now()) && tdList == [] == cancelled && urbs == map[]
      ensures forall u :: multiset(given)[u] == if u in submitted then 1 else 0
    {
      while tdList != []
        invariant Good(Now())
        decreases |tdList|
      {
        ghost var s := Now();
        var td := tdList[0];
        FirstIsDue(s, tdList);
        LeaveKeeps(s, td);
        tdList := tdList[1..];
        if td in cancelled {
          cancelled := Remove(cancelled, td);
        } else {
          RemoveAbsent(cancelled, td);
        }
        var _ := CountTd(td.urb);
      }
      while cancelled != []
        invariant Good(Now()) && tdList == []
        decreases |cancelled|
      {
        ghost var s := Now();
        var td := cancelled[0];
        FirstIsDue(s, cancelled);
        LeaveKeeps(s, td);
        cancelled := cancelled[1..];
        var _ := CountTd(td.urb);
      }
      forall u
        ensures u !in urbs && multiset(given)[u] == if u in submitted then 1 else 0
      {
        NothingOwed(Now(), u);
      }
    }
  }
}
