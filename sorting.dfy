// Stable descending sort by an integer key: the behaviour shared by
// Python's `list.sort(key=..., reverse=True)` and Rust's `sort_by` with a
// reversed comparator (both are stable).

module Sorting {
  import opened Common

  /** Inserts `x` after every leading element whose key is at least key(x). */
  function Insert<T>(x: T, s: seq<T>, key: T -> int): (r: seq<T>)
    ensures |r| == |s| + 1
    decreases |s|
  {
    if s == [] then [x]
    else if key(s[0]) >= key(x) then [s[0]] + Insert(x, s[1..], key)
    else [x] + s
  }

  /** The stable descending sort, as insertion of each element in input order. */
  function SortDesc<T>(s: seq<T>, key: T -> int): (r: seq<T>)
    ensures |r| == |s|
    decreases |s|
  {
    if s == [] then [] else Insert(s[|s| - 1], SortDesc(s[..|s| - 1], key), key)
  }

  predicate SortedDesc<T>(s: seq<T>, key: T -> int) {
    forall i, j :: 0 <= i < j < |s| ==> key(s[i]) >= key(s[j])
  }

  lemma {:induction false} InsertPermutation<T>(x: T, s: seq<T>, key: T -> int)
    ensures multiset(Insert(x, s, key)) == multiset(s) + multiset{x}
    decreases |s|
  {
    if s != [] && key(s[0]) >= key(x) {
      InsertPermutation(x, s[1..], key);
      assert s == [s[0]] + s[1..];
    }
  }

  /** An upper bound on the keys of `s` and of `x` bounds the result. */
  lemma {:induction false} InsertBounded<T>(x: T, s: seq<T>, key: T -> int, bound: int)
    requires key(x) <= bound
    requires forall i :: 0 <= i < |s| ==> key(s[i]) <= bound
    ensures forall i :: 0 <= i < |Insert(x, s, key)| ==> key(Insert(x, s, key)[i]) <= bound
    decreases |s|
  {
    if s != [] && key(s[0]) >= key(x) {
      InsertBounded(x, s[1..], key, bound);
      assert Insert(x, s, key) == [s[0]] + Insert(x, s[1..], key);
    }
  }

  lemma {:induction false} InsertSorted<T>(x: T, s: seq<T>, key: T -> int)
    requires SortedDesc(s, key)
    ensures SortedDesc(Insert(x, s, key), key)
    decreases |s|
  {
    if s != [] && key(s[0]) >= key(x) {
      var t := Insert(x, s[1..], key);
      InsertSorted(x, s[1..], key);
      InsertBounded(x, s[1..], key, key(s[0]));
      assert Insert(x, s, key) == [s[0]] + t;
    }
  }

  /** The sort returns its input ordered by descending key. */
  lemma {:induction false} SortDescSorted<T>(s: seq<T>, key: T -> int)
    ensures SortedDesc(SortDesc(s, key), key)
    decreases |s|
  {
    if s != [] {
      SortDescSorted(s[..|s| - 1], key);
      InsertSorted(s[|s| - 1], SortDesc(s[..|s| - 1], key), key);
    }
  }

  /** The sort neither loses nor invents elements. */
  lemma {:induction false} SortDescPermutation<T>(s: seq<T>, key: T -> int)
    ensures multiset(SortDesc(s, key)) == multiset(s)
    decreases |s|
  {
    if s != [] {
      SortDescPermutation(s[..|s| - 1], key);
      InsertPermutation(s[|s| - 1], SortDesc(s[..|s| - 1], key), key);
      assert s == s[..|s| - 1] + [s[|s| - 1]];
    }
  }

  /** A prefix of a descending sequence is descending, is part of it, and
      keeps nothing below what it leaves out. */
  lemma SortedPrefix<T>(s: seq<T>, n: nat, key: T -> int)
    requires SortedDesc(s, key) && n <= |s|
    ensures SortedDesc(s[..n], key)
    ensures multiset(s[..n]) <= multiset(s)
    ensures forall i, j :: 0 <= i < n <= j < |s| ==> key(s[i]) >= key(s[j])
  {
    assert s == s[..n] + s[n..];
    assert multiset(s) == multiset(s[..n]) + multiset(s[n..]);
  }

  function HasKey<T>(key: T -> int, k: int): T -> bool {
    x => key(x) == k
  }

  lemma {:induction false} InsertFilter<T>(x: T, s: seq<T>, key: T -> int, k: int)
    requires SortedDesc(s, key)
    ensures Filter(Insert(x, s, key), HasKey(key, k))
         == Filter(s, HasKey(key, k)) + (if HasKey(key, k)(x) then [x] else [])
    decreases |s|
  {
    var p := HasKey(key, k);
    if s == [] {
    } else if key(s[0]) >= key(x) {
      InsertFilter(x, s[1..], key, k);
      assert Insert(x, s, key) == [s[0]] + Insert(x, s[1..], key);
      FilterAppend([s[0]], Insert(x, s[1..], key), p);
      FilterAppend([s[0]], s[1..], p);
      assert [s[0]] + s[1..] == s;
    } else {
      // every element of s has a key below key(x)
      assert forall i :: 0 <= i < |s| ==> key(s[i]) <= key(s[0]) < key(x);
      if key(x) == k {
        NoneInFilter(s, p);
      }
      FilterAppend([x], s, p);
    }
  }

  lemma {:induction false} NoneInFilter<T>(s: seq<T>, p: T -> bool)
    requires forall i :: 0 <= i < |s| ==> !p(s[i])
    ensures Filter(s, p) == []
  {
    if s != [] {
      NoneInFilter(s[1..], p);
    }
  }

  /** Stability: the elements sharing any one key keep their input order. */
  lemma {:induction false} SortDescStable<T>(s: seq<T>, key: T -> int, k: int)
    ensures Filter(SortDesc(s, key), HasKey(key, k)) == Filter(s, HasKey(key, k))
    decreases |s|
  {
    if s != [] {
      var init, x := s[..|s| - 1], s[|s| - 1];
      assert SortDesc(s, key) == Insert(x, SortDesc(init, key), key);
      SortDescStable(init, key, k);
      SortDescSorted(init, key);
      InsertFilter(x, SortDesc(init, key), key, k);
      FilterDropLast(s, HasKey(key, k));
    }
  }
}
