/** Kernel lists as sequences. */
module Lists {

  /** list_del: take the first occurrence out. */
  function Remove<T(==)>(list: seq<T>, x: T): seq<T> {
    if list == [] then []
    else if list[0] == x then list[1..]
    else [list[0]] + Remove(list[1..], x)
  }

  function Times<T(==)>(list: seq<T>, x: T): nat {
    if list == [] then 0 else (if list[0] == x then 1 else 0) + Times(list[1..], x)
  }

  lemma {:induction false} TimesIn<T>(list: seq<T>, x: T)
    ensures x in list <==> 0 < Times(list, x)
  {
    if list != [] {
      TimesIn(list[1..], x);
    }
  }

  lemma {:induction false} TimesIsMultiset<T>(list: seq<T>, x: T)
    ensures multiset(list)[x] == Times(list, x)
  {
    if list != [] {
      TimesIsMultiset(list[1..], x);
      assert list == [list[0]] + list[1..];
    }
  }

  lemma {:induction false} TimesConcat<T>(a: seq<T>, b: seq<T>, x: T)
    ensures Times(a + b, x) == Times(a, x) + Times(b, x)
  {
    if a == [] {
      assert a + b == b;
    } else {
      assert (a + b)[1..] == a[1..] + b;
      TimesConcat(a[1..], b, x);
    }
  }

  lemma {:induction false} RemoveTimes<T>(list: seq<T>, x: T, v: T)
    requires x in list
    ensures Times(Remove(list, x), v) == Times(list, v) - if v == x then 1 else 0
    ensures |Remove(list, x)| == |list| - 1
  {
    if list[0] != x {
      RemoveTimes(list[1..], x, v);
      assert Remove(list, x)[1..] == Remove(list[1..], x);
    }
  }

  /** Exactly one element goes, and the others keep their order. */
  lemma {:induction false} RemoveAt<T>(list: seq<T>, x: T) returns (k: nat)
    requires x in list
    ensures k < |list| && list[k] == x && Remove(list, x) == list[..k] + list[k + 1..]
  {
    if list[0] == x {
      k := 0;
    } else {
      var i := RemoveAt(list[1..], x);
      k := i + 1;
      assert list[..k] == [list[0]] + list[1..][..i] && list[k + 1..] == list[1..][i + 1..];
    }
  }

  lemma {:induction false} RemoveAbsent<T>(list: seq<T>, x: T)
    requires x !in list
    ensures Remove(list, x) == list
  {
    if list != [] {
      RemoveAbsent(list[1..], x);
    }
  }
}
