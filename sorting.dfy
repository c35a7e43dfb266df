/** `Array.prototype.sort` with a numeric comparator `(a, b) => key(a) - key(b)`.
    The language requires this sort to be stable, so it is modelled as a
    stable insertion sort on an integer key; what the client relies on is
    its result: ordered by key, a permutation of the input, and equal keys
    in their input order. */
module Sorting {
  predicate SortedBy<T>(s: seq<T>, key: T -> int) {
    forall i, j :: 0 <= i < j < |s| ==> key(s[i]) <= key(s[j])
  }

  /** The elements of `s` whose key is `k`, in their order in `s`. */
  function WithKey<T>(s: seq<T>, key: T -> int, k: int): (r: seq<T>)
    ensures |r| <= |s|
  {
    if s == [] then []
    else (if key(s[0]) == k then [s[0]] else []) + WithKey(s[1..], key, k)
  }

  /** `WithKey` draws only elements of `s`, each at most as often as it occurs
      there, and only those whose key is `k`. */
  lemma {:induction false} WithKeyDrawn<T>(s: seq<T>, key: T -> int, k: int)
    ensures multiset(WithKey(s, key, k)) <= multiset(s)
    ensures forall x :: x in WithKey(s, key, k) ==> key(x) == k
  {
    if s != [] {
      WithKeyDrawn(s[1..], key, k);
      assert s == [s[0]] + s[1..];
    }
  }

  /** Places `x` in front of the first element whose key is not smaller. */
  function Insert<T(==)>(x: T, s: seq<T>, key: T -> int): (r: seq<T>)
    ensures multiset(r) == multiset(s) + multiset{x}
  {
    if s == [] || key(x) <= key(s[0]) then [x] + s
    else
      assert s == [s[0]] + s[1..];
      [s[0]] + Insert(x, s[1..], key)
  }

  function SortBy<T(==)>(xs: seq<T>, key: T -> int): (r: seq<T>)
    ensures multiset(r) == multiset(xs)
  {
    if xs == [] then []
    else
      assert xs == [xs[0]] + xs[1..];
      Insert(xs[0], SortBy(xs[1..], key), key)
  }

  lemma {:induction false} InsertSorted<T>(x: T, s: seq<T>, key: T -> int)
    requires SortedBy(s, key)
    ensures SortedBy(Insert(x, s, key), key)
  {
    if s != [] && key(x) > key(s[0]) {
      var rest := Insert(x, s[1..], key);
      InsertSorted(x, s[1..], key);
      forall j | 0 <= j < |rest| ensures key(s[0]) <= key(rest[j]) {
        assert rest[j] in multiset(rest);
        if rest[j] != x {
          assert rest[j] in multiset(s[1..]);
          var i :| 0 <= i < |s[1..]| && s[1..][i] == rest[j];
          assert s[i + 1] == rest[j];
        }
      }
    }
  }

  /** The sorted copy is ordered by key. */
  lemma {:induction false} SortBySorted<T>(xs: seq<T>, key: T -> int)
    ensures SortedBy(SortBy(xs, key), key)
  {
    if xs != [] {
      SortBySorted(xs[1..], key);
      InsertSorted(xs[0], SortBy(xs[1..], key), key);
    }
  }

  lemma {:induction false} InsertWithKey<T>(x: T, s: seq<T>, key: T -> int, k: int)
    ensures WithKey(Insert(x, s, key), key, k)
         == (if key(x) == k then [x] else []) + WithKey(s, key, k)
  {
    if s == [] || key(x) <= key(s[0]) {
      assert ([x] + s)[1..] == s;
    } else {
      InsertWithKey(x, s[1..], key, k);
      assert ([s[0]] + Insert(x, s[1..], key))[1..] == Insert(x, s[1..], key);
    }
  }

  /** Stability: elements with equal keys keep their input order. */
  lemma {:induction false} SortByStable<T>(xs: seq<T>, key: T -> int, k: int)
    ensures WithKey(SortBy(xs, key), key, k) == WithKey(xs, key, k)
  {
    if xs != [] {
      SortByStable(xs[1..], key, k);
      InsertWithKey(xs[0], SortBy(xs[1..], key), key, k);
    }
  }

  /** The first element of a sorted sequence is the first, in input order,
      of the elements with the smallest key. */
  lemma {:induction false} WithKeyHead<T>(s: seq<T>, key: T -> int)
    requires s != []
    ensures WithKey(s, key, key(s[0])) != [] && WithKey(s, key, key(s[0]))[0] == s[0]
  {
  }
  /** `Insert` places `x` after the leading elements whose key is smaller
      than its own, whether or not `s` is sorted. */
  lemma {:induction false} InsertAt<T>(x: T, s: seq<T>, key: T -> int, m: nat)
    requires m <= |s|
    requires forall t :: 0 <= t < m ==> key(s[t]) < key(x)
    requires m == |s| || key(x) <= key(s[m])
    ensures Insert(x, s, key) == s[..m] + [x] + s[m..]
  {
    if m == 0 {
      assert s[..0] + [x] + s[0..] == [x] + s;
    } else {
      var rest := s[1..];
      forall t | 0 <= t < m - 1 ensures key(rest[t]) < key(x) {
        assert rest[t] == s[t + 1];
      }
      InsertAt(x, rest, key, m - 1);
      InsertPast(x, s, key, m);
    }
  }

  /** One step of `InsertAt`: passing the head. */
  lemma InsertPast<T>(x: T, s: seq<T>, key: T -> int, m: nat)
    requires 0 < m <= |s| && key(s[0]) < key(x)
    requires Insert(x, s[1..], key) == s[1..][..m - 1] + [x] + s[1..][m - 1..]
    ensures Insert(x, s, key) == s[..m] + [x] + s[m..]
  {
    SplitAfterHead(x, s, m);
  }

  lemma SplitAfterHead<T>(x: T, s: seq<T>, m: nat)
    requires 0 < m <= |s|
    ensures s[..m] + [x] + s[m..] == [s[0]] + (s[1..][..m - 1] + [x] + s[1..][m - 1..])
  {
    assert s[..m] == [s[0]] + s[1..][..m - 1];
    assert s[1..][m - 1..] == s[m..];
  }

  /** The sort as an engine performs it: in place on the array. Working
      from the back, each element is moved into the tail behind it, which
      is already sorted; this is `SortBy`. */
  method InsertionSort<T(==)>(a: array<T>, key: T -> int)
    modifies a
    ensures a[..] == SortBy(old(a[..]), key)
  {
    ghost var input := a[..];
    var i := a.Length;
    while i > 0
      invariant 0 <= i <= a.Length
      invariant a[..i] == input[..i]
      invariant a[i..] == SortBy(input[i..], key)
    {
      i := i - 1;
      assert a[i] == input[i] by {
        assert a[..i + 1][i] == input[..i + 1][i];
      }
      assert a[..i] == input[..i];
      assert a[i + 1..] == SortBy(input[i + 1..], key);
      MoveIntoTail(a, i, key);
      SortByFrom(input, i, key);
    }
  }

  /** `SortBy` on a suffix inserts its first element into the sorted rest. */
  lemma SortByFrom<T>(s: seq<T>, i: nat, key: T -> int)
    requires i < |s|
    ensures SortBy(s[i..], key) == Insert(s[i], SortBy(s[i + 1..], key), key)
  {
    assert s[i..][1..] == s[i + 1..];
  }

  /** One step of the sort: `a[i]` is moved past the leading elements of
      `a[i + 1..]` whose key is smaller, which slide back by one. */
  method MoveIntoTail<T>(a: array<T>, i: nat, key: T -> int)
    requires i < a.Length
    modifies a
    ensures a[..i] == old(a[..i])
    ensures a[i..] == Insert(old(a[i]), old(a[i + 1..]), key)
  {
    ghost var tail := a[i + 1..];
    var x := a[i];
    var j := i;
    while j + 1 < a.Length && key(a[j + 1]) < key(x)
      invariant i <= j < a.Length
      invariant forall t :: 0 <= t < i ==> a[t] == old(a[t])
      invariant forall t :: i <= t < j ==> a[t] == tail[t - i]
      invariant forall t :: j < t < a.Length ==> a[t] == tail[t - i - 1]
      invariant forall t :: 0 <= t < j - i ==> key(tail[t]) < key(x)
    {
      a[j] := a[j + 1];
      j := j + 1;
    }
    a[j] := x;
    assert a[..i] == old(a[..i]);
    assert a[i..] == tail[..j - i] + [x] + tail[j - i..];
    InsertAt(x, tail, key, j - i);
  }
}
