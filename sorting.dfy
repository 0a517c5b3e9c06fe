/**
  Orderings the store and the aggregations rely on: a stable sort by an integer key
  (the store's ORDER BY clauses) and the ascending key order of a sorted map
  (Java's `TreeMap`).
 */
module Sorting {

  predicate SortedBy<T>(s: seq<T>, key: T -> int) {
    forall i, j | 0 <= i < j < |s| :: key(s[i]) <= key(s[j])
  }

  predicate StrictlySortedBy<T>(s: seq<T>, key: T -> int) {
    forall i, j | 0 <= i < j < |s| :: key(s[i]) < key(s[j])
  }

  /** No two elements share a key. */
  predicate DistinctKeys<T>(s: seq<T>, key: T -> int) {
    forall i, j | 0 <= i < j < |s| :: key(s[i]) != key(s[j])
  }

  /** Inserts `x` in front of the first element whose key is not smaller. */
  function InsertByKey<T>(x: T, s: seq<T>, key: T -> int): (r: seq<T>)
    requires SortedBy(s, key)
    ensures SortedBy(r, key)
    ensures multiset(r) == multiset(s) + multiset{x}
  {
    if s == [] || key(x) <= key(s[0]) then
      ConsSorted(x, s, key);
      [x] + s
    else
      var tail := InsertByKey(x, s[1..], key);
      assert s == [s[0]] + s[1..];
      TailAboveHead(x, s, tail, key);
      ConsSorted(s[0], tail, key);
      [s[0]] + tail
  }

  /** What is inserted behind the head holds only keys at or above the head's. */
  lemma TailAboveHead<T>(x: T, s: seq<T>, tail: seq<T>, key: T -> int)
    requires SortedBy(s, key) && s != [] && key(s[0]) < key(x)
    requires multiset(tail) == multiset(s[1..]) + multiset{x}
    ensures forall j | 0 <= j < |tail| :: key(s[0]) <= key(tail[j])
  {
    forall j | 0 <= j < |tail| ensures key(s[0]) <= key(tail[j]) {
      var y := tail[j];
      assert y in multiset(tail);
      if y != x {
        assert y in multiset(s[1..]);
        var k :| 0 <= k < |s[1..]| && s[1..][k] == y;
        assert s[k + 1] == y;
      }
    }
  }

  /** An element whose key is at or below every key, put in front of a sorted sequence. */
  lemma ConsSorted<T>(x: T, s: seq<T>, key: T -> int)
    requires SortedBy(s, key)
    requires forall j | 0 <= j < |s| :: key(x) <= key(s[j])
    ensures SortedBy([x] + s, key)
  {
    var r := [x] + s;
    forall i, j | 0 <= i < j < |r| ensures key(r[i]) <= key(r[j]) {
      assert r[j] == s[j - 1];
      if i > 0 {
        assert r[i] == s[i - 1];
      }
    }
  }

  /** Insertion sort by ascending key; elements with equal keys keep their order. */
  function SortByKey<T>(s: seq<T>, key: T -> int): (r: seq<T>)
    ensures SortedBy(r, key)
    ensures multiset(r) == multiset(s)
    ensures |r| == |s|
  {
    if s == [] then []
    else
      assert s == [s[0]] + s[1..];
      InsertByKey(s[0], SortByKey(s[1..], key), key)
  }

  /** When no two elements share a key, the sorted order is strict. */
  lemma {:induction false} SortByKeyStrict<T>(s: seq<T>, key: T -> int)
    requires DistinctKeys(s, key)
    ensures StrictlySortedBy(SortByKey(s, key), key)
  {
    if s != [] {
      var rest := SortByKey(s[1..], key);
      SortByKeyStrict(s[1..], key);
      forall y | y in rest ensures key(y) != key(s[0]) {
        assert y in multiset(s[1..]);
        var j :| 0 <= j < |s[1..]| && s[1..][j] == y;
        assert s[j + 1] == y;
      }
      InsertStrict(s[0], rest, key);
    }
  }

  lemma {:induction false} InsertStrict<T>(x: T, s: seq<T>, key: T -> int)
    requires StrictlySortedBy(s, key)
    requires forall y | y in s :: key(y) != key(x)
    ensures StrictlySortedBy(InsertByKey(x, s, key), key)
  {
    if s == [] {
    } else if key(x) <= key(s[0]) {
      forall j | 0 <= j < |s| ensures key(x) < key(s[j]) {
        assert s[j] in s;
        if j > 0 {
          assert key(s[0]) < key(s[j]);
        }
      }
      ConsStrict(x, s, key);
    } else {
      forall y | y in s[1..] ensures key(y) != key(x) {
        assert y in s;
      }
      InsertStrict(x, s[1..], key);
      InsertBelowHead(x, s, key);
      ConsStrict(s[0], InsertByKey(x, s[1..], key), key);
    }
  }

  /** Inserting into the tail leaves only keys above the head's. */
  lemma InsertBelowHead<T>(x: T, s: seq<T>, key: T -> int)
    requires StrictlySortedBy(s, key)
    requires s != [] && key(x) > key(s[0])
    ensures InsertByKey(x, s, key) == [s[0]] + InsertByKey(x, s[1..], key)
    ensures forall j | 0 <= j < |InsertByKey(x, s[1..], key)| :: key(s[0]) < key(InsertByKey(x, s[1..], key)[j])
  {
    var tail := InsertByKey(x, s[1..], key);
    forall j | 0 <= j < |tail| ensures key(s[0]) < key(tail[j]) {
      var y := tail[j];
      assert y in multiset(tail);
      if y != x {
        assert y in multiset(s[1..]);
        var k :| 0 <= k < |s[1..]| && s[1..][k] == y;
        assert s[k + 1] == y;
      }
    }
  }

  /** Putting an element whose key is below every key in front of a strictly sorted sequence keeps it strictly sorted. */
  lemma ConsStrict<T>(x: T, s: seq<T>, key: T -> int)
    requires StrictlySortedBy(s, key)
    requires forall j | 0 <= j < |s| :: key(x) < key(s[j])
    ensures StrictlySortedBy([x] + s, key)
  {
    var r := [x] + s;
    forall i, j | 0 <= i < j < |r| ensures key(r[i]) < key(r[j]) {
      assert r[j] == s[j - 1];
      if i > 0 {
        assert r[i] == s[i - 1];
      }
    }
  }

  // ---------------------------------------------------------------------------
  // Ascending key order of a finite set of integers

  predicate StrictlyIncreasing(s: seq<int>) {
    forall i, j | 0 <= i < j < |s| :: s[i] < s[j]
  }

  /** Some element of a non-empty set. */
  lemma PickElement(ks: set<int>) returns (x: int)
    requires ks != {}
    ensures x in ks
  {
    if forall y :: y !in ks {
      assert false;
    }
    x :| x in ks;
  }

  lemma {:induction false} MinExists(ks: set<int>)
    requires ks != {}
    ensures exists m :: m in ks && forall k | k in ks :: m <= k
    decreases |ks|
  {
    var x := PickElement(ks);
    if ks != {x} {
      MinExists(ks - {x});
      var m :| m in ks - {x} && forall k | k in ks - {x} :: m <= k;
      var least := if x < m then x else m;
      forall k | k in ks ensures least <= k {
        if k != x {
          assert k in ks - {x};
        }
      }
    } else {
      assert forall k | k in ks :: x <= k;
    }
  }

  function MinOf(ks: set<int>): (m: int)
    requires ks != {}
    ensures m in ks && forall k | k in ks :: m <= k
  {
    MinExists(ks);
    var m :| m in ks && forall k | k in ks :: m <= k;
    m
  }

  /** The keys of a sorted map in the order it iterates them: ascending, each once. */
  function SortedKeys(ks: set<int>): (r: seq<int>)
    ensures StrictlyIncreasing(r)
    ensures forall k :: k in r <==> k in ks
    ensures |r| == |ks|
    decreases |ks|
  {
    if ks == {} then []
    else
      var m := MinOf(ks);
      var rest := SortedKeys(ks - {m});
      [m] + rest
  }

  /** Only one strictly increasing sequence has a given set of elements. */
  lemma {:induction false} StrictlyIncreasingUnique(a: seq<int>, b: seq<int>)
    requires StrictlyIncreasing(a) && StrictlyIncreasing(b)
    requires forall k :: k in a <==> k in b
    ensures a == b
    decreases |a|
  {
    if a != [] {
      assert a[0] in a;
    }
    if b != [] {
      assert b[0] in b;
    }
    if a != [] && b != [] {
      assert a[0] == b[0] by {
        assert b[0] in a && a[0] in b;
        var i :| 0 <= i < |a| && a[i] == b[0];
        assert a[0] <= a[i];
        var j :| 0 <= j < |b| && b[j] == a[0];
        assert b[0] <= b[j];
      }
      forall k ensures k in a[1..] <==> k in b[1..] {
        if k in a[1..] {
          var j :| 1 <= j < |a| && a[j] == k;
          assert k in b && k != b[0];
        }
        if k in b[1..] {
          var j :| 1 <= j < |b| && b[j] == k;
          assert k in a && k != a[0];
        }
      }
      StrictlyIncreasingUnique(a[1..], b[1..]);
      assert a == [a[0]] + a[1..] && b == [b[0]] + b[1..];
    }
  }

  // ---------------------------------------------------------------------------
  // Duplicates and permutations

  predicate NoDuplicates<T(==)>(s: seq<T>) {
    forall i, j | 0 <= i < j < |s| :: s[i] != s[j]
  }

  /** A sequence without duplicates holds each value at most once. */
  lemma {:induction false} NoDuplicatesCount<T>(s: seq<T>, x: T)
    requires NoDuplicates(s)
    ensures multiset(s)[x] <= 1
  {
    if s != [] {
      var rest := s[1..];
      assert s == [s[0]] + rest;
      forall i, j | 0 <= i < j < |rest| ensures rest[i] != rest[j] {
        assert rest[i] == s[i + 1] && rest[j] == s[j + 1];
      }
      NoDuplicatesCount(rest, x);
      forall k | 0 <= k < |rest| ensures rest[k] != s[0] {
        assert rest[k] == s[k + 1];
      }
      assert s[0] !in rest;
    }
  }

  /** Two positions holding the same value make it occur at least twice. */
  lemma RepeatedCount<T>(s: seq<T>, i: int, j: int)
    requires 0 <= i < j < |s|
    ensures s[i] == s[j] ==> multiset(s)[s[i]] >= 2
  {
    assert s == s[..j] + s[j..];
    assert s[i] in s[..j];
    assert s[j] in s[j..];
  }

  /** A permutation of a sequence without duplicates has none either. */
  lemma PermutationNoDuplicates<T>(a: seq<T>, b: seq<T>)
    requires multiset(a) == multiset(b)
    requires NoDuplicates(a)
    ensures NoDuplicates(b)
  {
    forall i, j | 0 <= i < j < |b| ensures b[i] != b[j] {
      NoDuplicatesCount(a, b[i]);
      RepeatedCount(b, i, j);
    }
  }
}
