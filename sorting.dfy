/** Stable sorting by an integer key: the behaviour of the array sort the contest
    code calls with a comparator of the form `key(a) - key(b)` (the language's
    array sort is stable). */
module Sorting {

  /** Places `x` before the first element whose key is not smaller than its own. */
  function Insert<T>(x: T, s: seq<T>, key: T -> int): seq<T>
  {
    if s == [] || key(x) <= key(s[0]) then [x] + s
    else [s[0]] + Insert(x, s[1..], key)
  }

  /** Insertion sort; earlier elements end up before later ones with an equal key. */
  function SortBy<T>(s: seq<T>, key: T -> int): seq<T>
  {
    if s == [] then [] else Insert(s[0], SortBy(s[1..], key), key)
  }

  predicate SortedBy<T>(s: seq<T>, key: T -> int) {
    forall i, j :: 0 <= i < j < |s| ==> key(s[i]) <= key(s[j])
  }

  /** The elements of `s` whose key is `k`, in their order in `s`. */
  function WithKey<T>(s: seq<T>, key: T -> int, k: int): seq<T>
  {
    if s == [] then []
    else (if key(s[0]) == k then [s[0]] else []) + WithKey(s[1..], key, k)
  }

  lemma {:induction false} InsertMembers<T>(x: T, s: seq<T>, key: T -> int)
    ensures forall y :: y in Insert(x, s, key) ==> y == x || y in s
    decreases |s|
  {
    if s != [] && key(x) > key(s[0]) {
      InsertMembers(x, s[1..], key);
    }
  }

  lemma {:induction false} InsertPermutes<T>(x: T, s: seq<T>, key: T -> int)
    ensures multiset(Insert(x, s, key)) == multiset{x} + multiset(s)
    decreases |s|
  {
    if s != [] && key(x) > key(s[0]) {
      InsertPermutes(x, s[1..], key);
      assert s == [s[0]] + s[1..];
    }
  }

  lemma {:induction false} InsertSorted<T>(x: T, s: seq<T>, key: T -> int)
    requires SortedBy(s, key)
    ensures SortedBy(Insert(x, s, key), key)
    decreases |s|
  {
    if s != [] && key(x) > key(s[0]) {
      var t := Insert(x, s[1..], key);
      InsertSorted(x, s[1..], key);
      InsertMembers(x, s[1..], key);
      var u := [s[0]] + t;
      assert Insert(x, s, key) == u;
      forall i, j | 0 <= i < j < |u| ensures key(u[i]) <= key(u[j]) {
        if i == 0 {
          assert u[j] == t[j - 1];
          assert u[j] in t;
        } else {
          assert u[i] == t[i - 1] && u[j] == t[j - 1];
        }
      }
    }
  }

  lemma {:induction false} InsertKeepsKeyOrder<T>(x: T, s: seq<T>, key: T -> int, k: int)
    ensures WithKey(Insert(x, s, key), key, k)
         == (if key(x) == k then [x] else []) + WithKey(s, key, k)
    decreases |s|
  {
    if s == [] || key(x) <= key(s[0]) {
      var u := [x] + s;
      assert u[0] == x && u[1..] == s;
    } else {
      var t := Insert(x, s[1..], key);
      var u := [s[0]] + t;
      assert u[0] == s[0] && u[1..] == t;
      InsertKeepsKeyOrder(x, s[1..], key, k);
    }
  }

  /** The sort orders by key and only reorders: the output is sorted and a permutation. */
  lemma {:induction false} SortBySortsAndPermutes<T>(s: seq<T>, key: T -> int)
    ensures SortedBy(SortBy(s, key), key)
    ensures multiset(SortBy(s, key)) == multiset(s)
    ensures |SortBy(s, key)| == |s|
  {
    if s != [] {
      SortBySortsAndPermutes(s[1..], key);
      InsertSorted(s[0], SortBy(s[1..], key), key);
      InsertPermutes(s[0], SortBy(s[1..], key), key);
      assert s == [s[0]] + s[1..];
    }
    assert |multiset(SortBy(s, key))| == |multiset(s)|;
  }

  /** The sort is stable: elements with equal keys keep their relative order. */
  lemma {:induction false} SortByIsStable<T>(s: seq<T>, key: T -> int, k: int)
    ensures WithKey(SortBy(s, key), key, k) == WithKey(s, key, k)
  {
    if s != [] {
      SortByIsStable(s[1..], key, k);
      InsertKeepsKeyOrder(s[0], SortBy(s[1..], key), key, k);
    }
  }

  /** Sorting keeps exactly the elements it was given. */
  lemma SortByMembers<T>(s: seq<T>, key: T -> int)
    ensures forall x :: x in SortBy(s, key) <==> x in s
  {
    SortBySortsAndPermutes(s, key);
    forall x ensures x in SortBy(s, key) <==> x in s {
      assert x in SortBy(s, key) <==> x in multiset(SortBy(s, key));
      assert x in s <==> x in multiset(s);
    }
  }

  /** No two elements of `s` share a value of `f`. */
  ghost predicate DistinctBy<T, U>(s: seq<T>, f: T -> U) {
    forall i, j :: 0 <= i < j < |s| ==> f(s[i]) != f(s[j])
  }

  lemma DistinctTail<T, U>(s: seq<T>, f: T -> U)
    requires s != [] && DistinctBy(s, f)
    ensures DistinctBy(s[1..], f)
    ensures forall y :: y in s[1..] ==> f(y) != f(s[0])
  {
    forall i, j | 0 <= i < j < |s[1..]| ensures f(s[1..][i]) != f(s[1..][j]) {
      assert s[1..][i] == s[i + 1] && s[1..][j] == s[j + 1];
    }
    forall y | y in s[1..] ensures f(y) != f(s[0]) {
      var m :| 0 <= m < |s[1..]| && s[1..][m] == y;
      assert s[m + 1] == y;
    }
  }

  lemma {:induction false} InsertDistinct<T, U>(x: T, s: seq<T>, key: T -> int, f: T -> U)
    requires DistinctBy(s, f) && forall y :: y in s ==> f(y) != f(x)
    ensures DistinctBy(Insert(x, s, key), f)
    decreases |s|
  {
    if s == [] || key(x) <= key(s[0]) {
      var u := [x] + s;
      forall i, j | 0 <= i < j < |u| ensures f(u[i]) != f(u[j]) {
        assert u[j] == s[j - 1] && s[j - 1] in s;
        if i > 0 {
          assert u[i] == s[i - 1];
        }
      }
    } else {
      DistinctTail(s, f);
      InsertDistinct(x, s[1..], key, f);
      InsertMembers(x, s[1..], key);
      var t := Insert(x, s[1..], key);
      var u := [s[0]] + t;
      assert Insert(x, s, key) == u;
      assert s[0] in s;
      forall i, j | 0 <= i < j < |u| ensures f(u[i]) != f(u[j]) {
        assert u[j] == t[j - 1] && t[j - 1] in t;
        if i > 0 {
          assert u[i] == t[i - 1];
        }
      }
    }
  }

  lemma SortedFrom<T>(s: seq<T>, key: T -> int, y: T)
    requires y in SortBy(s, key)
    ensures y in s
  {
    SortByMembers(s, key);
  }

  lemma SortByAvoids<T, U>(s: seq<T>, key: T -> int, f: T -> U, v: U)
    requires forall y :: y in s ==> f(y) != v
    ensures forall y :: y in SortBy(s, key) ==> f(y) != v
  {
    forall y | y in SortBy(s, key) ensures f(y) != v {
      SortedFrom(s, key, y);
    }
  }

  /** Sorting keeps the elements distinct in `f`. */
  lemma {:induction false} SortByDistinct<T, U>(s: seq<T>, key: T -> int, f: T -> U)
    requires DistinctBy(s, f)
    ensures DistinctBy(SortBy(s, key), f)
  {
    if s != [] {
      DistinctTail(s, f);
      SortByDistinct(s[1..], key, f);
      SortByAvoids(s[1..], key, f, f(s[0]));
      InsertDistinct(s[0], SortBy(s[1..], key), key, f);
    }
  }
}
