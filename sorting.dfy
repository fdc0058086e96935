/** Sorting by a key, as the reducer does with `sort_by_key` (apply-beat, stable) and
    `sort_unstable_by_key` (order_beat). Both are modelled by one insertion sort, which is stable. */
module Sorting {

  /** Keys never decrease from left to right. */
  ghost predicate SortedBy<T>(s: seq<T>, key: T -> real)
  {
    forall i, j :: 0 <= i < j < |s| ==> key(s[i]) <= key(s[j])
  }

  /** Puts `x` right after the last element whose key is at most key(x). */
  function Insert<T>(s: seq<T>, x: T, key: T -> real): seq<T>
  {
    if s == [] || key(s[|s| - 1]) <= key(x) then s + [x]
    else Insert(s[..|s| - 1], x, key) + [s[|s| - 1]]
  }

  /** Insertion sort: inserts the elements one after another, in their original order. */
  function SortByKey<T>(s: seq<T>, key: T -> real): seq<T>
  {
    if s == [] then [] else Insert(SortByKey(s[..|s| - 1], key), s[|s| - 1], key)
  }

  /** The elements whose key is exactly `v`, in their original order. */
  function KeyFilter<T>(s: seq<T>, key: T -> real, v: real): seq<T>
  {
    if s == [] then []
    else KeyFilter(s[..|s| - 1], key, v) + (if key(s[|s| - 1]) == v then [s[|s| - 1]] else [])
  }

  lemma {:induction false} InsertSorted<T>(s: seq<T>, x: T, key: T -> real)
    requires SortedBy(s, key)
    ensures SortedBy(Insert(s, x, key), key)
    ensures multiset(Insert(s, x, key)) == multiset(s) + multiset{x}
    ensures |Insert(s, x, key)| == |s| + 1
  {
    if s == [] || key(s[|s| - 1]) <= key(x) {
    } else {
      var init, last := s[..|s| - 1], s[|s| - 1];
      InsertSorted(init, x, key);
      InsertBounded(init, x, key, key(last));
      AppendSorted(Insert(init, x, key), last, key);
      assert s == init + [last];
    }
  }

  lemma AppendSorted<T>(s: seq<T>, y: T, key: T -> real)
    requires SortedBy(s, key) && forall i :: 0 <= i < |s| ==> key(s[i]) <= key(y)
    ensures SortedBy(s + [y], key)
  {
  }

  /** Inserting below a bound keeps every key below it. */
  lemma {:induction false} InsertBounded<T>(s: seq<T>, x: T, key: T -> real, b: real)
    requires forall i :: 0 <= i < |s| ==> key(s[i]) <= b
    requires key(x) <= b
    ensures forall i :: 0 <= i < |Insert(s, x, key)| ==> key(Insert(s, x, key)[i]) <= b
  {
    if s == [] || key(s[|s| - 1]) <= key(x) {
    } else {
      InsertBounded(s[..|s| - 1], x, key, b);
    }
  }

  /** The sort orders by key and only permutes. */
  lemma {:induction false} SortByKeySortsAndPermutes<T>(s: seq<T>, key: T -> real)
    ensures SortedBy(SortByKey(s, key), key)
    ensures multiset(SortByKey(s, key)) == multiset(s)
    ensures |SortByKey(s, key)| == |s|
  {
    if s != [] {
      SortByKeySortsAndPermutes(s[..|s| - 1], key);
      InsertSorted(SortByKey(s[..|s| - 1], key), s[|s| - 1], key);
      assert s == s[..|s| - 1] + [s[|s| - 1]];
    }
  }

  lemma {:induction false} InsertKeeps<T>(s: seq<T>, x: T, key: T -> real, v: real)
    ensures KeyFilter(Insert(s, x, key), key, v) == KeyFilter(s, key, v) + (if key(x) == v then [x] else [])
  {
    if s == [] || key(s[|s| - 1]) <= key(x) {
      var r := s + [x];
      assert r[..|r| - 1] == s;
    } else {
      var init, last := s[..|s| - 1], s[|s| - 1];
      InsertKeeps(init, x, key, v);
      var r := Insert(init, x, key) + [last];
      assert r[..|r| - 1] == Insert(init, x, key);
    }
  }

  /** Stability: the elements with any one key value keep their original relative order. */
  lemma {:induction false} SortByKeyStable<T>(s: seq<T>, key: T -> real, v: real)
    ensures KeyFilter(SortByKey(s, key), key, v) == KeyFilter(s, key, v)
  {
    if s != [] {
      SortByKeyStable(s[..|s| - 1], key, v);
      InsertKeeps(SortByKey(s[..|s| - 1], key), s[|s| - 1], key, v);
    }
  }

  lemma {:induction false} KeyFilterAppend<T>(a: seq<T>, b: seq<T>, key: T -> real, v: real)
    ensures KeyFilter(a + b, key, v) == KeyFilter(a, key, v) + KeyFilter(b, key, v)
  {
    if b != [] {
      var ab := a + b;
      assert ab[..|ab| - 1] == a + b[..|b| - 1];
      KeyFilterAppend(a, b[..|b| - 1], key, v);
    } else {
      assert a + b == a;
    }
  }

  /** Sorting what is already sorted changes nothing. */
  lemma {:induction false} SortByKeyOfSorted<T>(s: seq<T>, key: T -> real)
    requires SortedBy(s, key)
    ensures SortByKey(s, key) == s
  {
    if s != [] {
      var init := s[..|s| - 1];
      assert SortedBy(init, key);
      SortByKeyOfSorted(init, key);
      if |s| >= 2 {
        assert key(init[|init| - 1]) <= key(s[|s| - 1]) by { assert init[|init| - 1] == s[|s| - 2]; }
      }
      assert s == init + [s[|s| - 1]];
    }
  }

  lemma SortByKeyPrefix<T>(s: seq<T>, i: int, key: T -> real)
    requires 0 <= i < |s|
    ensures SortByKey(s[..i + 1], key) == Insert(SortByKey(s[..i], key), s[i], key)
  {
    assert s[..i + 1][..i] == s[..i];
  }

  /** Inserting lands `x` just after the last key at most key(x): every later key is larger. */
  lemma {:induction false} InsertAt<T>(p: seq<T>, x: T, key: T -> real, j: int)
    requires 0 <= j <= |p|
    requires forall k :: j <= k < |p| ==> key(p[k]) > key(x)
    requires j == 0 || key(p[j - 1]) <= key(x)
    ensures Insert(p, x, key) == p[..j] + [x] + p[j..]
    decreases |p|
  {
    if j == |p| {
      assert p[..j] == p && p[j..] == [];
    } else {
      var init, last := p[..|p| - 1], p[|p| - 1];
      InsertAt(init, x, key, j);
      assert init[..j] == p[..j] && init[j..] + [last] == p[j..];
    }
  }

  /** Moves a[i] left past the larger keys of a[..i], shifting them one place right. */
  method InsertIntoPrefix<T>(a: array<T>, i: int, key: T -> real)
    requires 0 <= i < a.Length
    modifies a
    ensures a[..i + 1] == Insert(old(a[..i]), old(a[i]), key)
    ensures a[i + 1..] == old(a[i + 1..])
  {
    ghost var prefix, tail := a[..i], a[i + 1..];
    var x := a[i];
    var j := i;
    while j > 0 && key(a[j - 1]) > key(x)
      invariant 0 <= j <= i
      invariant forall k :: 0 <= k < j ==> a[k] == prefix[k]
      invariant forall k :: j < k <= i ==> a[k] == prefix[k - 1]
      invariant forall k :: i < k < a.Length ==> a[k] == tail[k - i - 1]
      invariant forall k :: j <= k < i ==> key(prefix[k]) > key(x)
    {
      a[j] := a[j - 1];
      j := j - 1;
    }
    a[j] := x;
    InsertAt(prefix, x, key, j);
    assert a[..i + 1] == prefix[..j] + [x] + prefix[j..];
    assert a[i + 1..] == tail;
  }

  /** In-place insertion sort of an array. */
  method SortInPlace<T>(a: array<T>, key: T -> real)
    modifies a
    ensures a[..] == SortByKey(old(a[..]), key)
  {
    var i := 0;
    while i < a.Length
      invariant 0 <= i <= a.Length
      invariant a[..i] == SortByKey(old(a[..])[..i], key)
      invariant a[i..] == old(a[..])[i..]
    {
      InsertIntoPrefix(a, i, key);
      SortByKeyPrefix(old(a[..]), i, key);
      i := i + 1;
    }
    assert a[..] == a[..a.Length];
    assert old(a[..])[..a.Length] == old(a[..]);
  }
}
