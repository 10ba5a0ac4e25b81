/**
 Python's `sorted(xs, key=...)`: a stable sort under the key order `KeyLess`.
 The result is ordered by key, holds the same elements as the input, and keeps
 the input order among elements whose keys are equal.
 */
module StableSort {
  import opened NaturalOrder

  /** No later element has a key strictly below an earlier one. */
  ghost predicate Sorted<T>(s: seq<T>, key: T -> seq<Part>) {
    forall i, j :: 0 <= i < j < |s| ==> !KeyLess(key(s[j]), key(s[i]))
  }

  /** The elements of `s` whose key is `k`, in the order of `s`. */
  function WithKey<T>(s: seq<T>, key: T -> seq<Part>, k: seq<Part>): seq<T> {
    if s == [] then []
    else (if key(s[0]) == k then [s[0]] else []) + WithKey(s[1..], key, k)
  }

  /** Stability: every group of equal keys appears in the same order as in the input. */
  ghost predicate Stable<T>(r: seq<T>, s: seq<T>, key: T -> seq<Part>) {
    forall k :: WithKey(r, key, k) == WithKey(s, key, k)
  }

  /** Put `x` in front of the first element whose key is not below its own. */
  function Insert<T>(x: T, s: seq<T>, key: T -> seq<Part>): seq<T> {
    if s == [] then [x]
    else if KeyLess(key(s[0]), key(x)) then [s[0]] + Insert(x, s[1..], key)
    else [x] + s
  }

  /**
   The stable sort. Each element is inserted in front of every later element with
   an equal key, so equal keys keep their input order.
   */
  function SortBy<T>(s: seq<T>, key: T -> seq<Part>): seq<T> {
    if s == [] then [] else Insert(s[0], SortBy(s[1..], key), key)
  }

  /** The result is ordered by key, a permutation of the input, and stable. */
  lemma {:induction false} SortByCorrect<T>(s: seq<T>, key: T -> seq<Part>)
    ensures Sorted(SortBy(s, key), key)
    ensures multiset(SortBy(s, key)) == multiset(s)
    ensures Stable(SortBy(s, key), s, key)
  {
    if s != [] {
      var t := SortBy(s[1..], key);
      SortByCorrect(s[1..], key);
      InsertSorted(s[0], t, key);
      InsertMultiset(s[0], t, key);
      assert s == [s[0]] + s[1..];
      forall k ensures WithKey(Insert(s[0], t, key), key, k) == WithKey(s, key, k) {
        InsertWithKey(s[0], t, key, k);
        assert WithKey(s, key, k) == (if key(s[0]) == k then [s[0]] else []) + WithKey(s[1..], key, k);
      }
    }
  }

  lemma {:induction false} InsertMultiset<T>(x: T, s: seq<T>, key: T -> seq<Part>)
    ensures multiset(Insert(x, s, key)) == multiset{x} + multiset(s)
  {
    if s != [] && KeyLess(key(s[0]), key(x)) {
      InsertMultiset(x, s[1..], key);
      assert s == [s[0]] + s[1..];
    }
  }

  /** Inserting into a sorted sequence keeps it sorted. */
  lemma {:induction false} InsertSorted<T>(x: T, s: seq<T>, key: T -> seq<Part>)
    requires Sorted(s, key)
    ensures Sorted(Insert(x, s, key), key)
  {
    var r := Insert(x, s, key);
    if s == [] {
    } else if KeyLess(key(s[0]), key(x)) {
      var t := Insert(x, s[1..], key);
      InsertSorted(x, s[1..], key);
      InsertMultiset(x, s[1..], key);
      assert r == [s[0]] + t;
      forall j | 0 < j < |r|
        ensures !KeyLess(key(r[j]), key(r[0]))
      {
        assert r[j] in multiset(t);
        assert r[j] == x || r[j] in s[1..];
        KeyLessIrreflexive(key(x));
        KeyLessTransitive(key(x), key(s[0]), key(x));
        if r[j] != x {
          var m :| 1 <= m < |s| && s[m] == r[j];
        }
      }
    } else {
      assert r == [x] + s;
      forall j | 0 < j < |r|
        ensures !KeyLess(key(r[j]), key(x))
      {
        KeyLessIrreflexive(key(s[0]));
        KeyLessTotal(key(x), key(s[0]));
        KeyAtMostTransitive(key(x), key(s[0]), key(s[j - 1]));
      }
    }
  }

  /** Inserting `x` adds it to its own key group, in front, and leaves the other groups alone. */
  lemma {:induction false} InsertWithKey<T>(x: T, s: seq<T>, key: T -> seq<Part>, k: seq<Part>)
    ensures WithKey(Insert(x, s, key), key, k)
            == (if key(x) == k then [x] else []) + WithKey(s, key, k)
  {
    if s == [] {
      assert WithKey([x], key, k) == (if key(x) == k then [x] else []) + WithKey([], key, k);
    } else if KeyLess(key(s[0]), key(x)) {
      var t := Insert(x, s[1..], key);
      var front := if key(s[0]) == k then [s[0]] else [];
      InsertWithKey(x, s[1..], key, k);
      assert ([s[0]] + t)[1..] == t;
      assert WithKey([s[0]] + t, key, k) == front + WithKey(t, key, k);
      assert WithKey(s, key, k) == front + WithKey(s[1..], key, k);
      if key(x) == k {
        KeyLessIrreflexive(k);
        assert front == [];
      } else {
        assert WithKey(t, key, k) == WithKey(s[1..], key, k);
      }
    } else {
      assert ([x] + s)[1..] == s;
    }
  }

  /** Sorting by key gives every element once per occurrence and nothing else. */
  lemma SortByMembers<T>(s: seq<T>, key: T -> seq<Part>, x: T)
    ensures x in SortBy(s, key) <==> x in s
  {
    var r := SortBy(s, key);
    SortByCorrect(s, key);
    assert x in r <==> x in multiset(r);
    assert x in s <==> x in multiset(s);
  }
}
