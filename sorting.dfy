/** `Array.prototype.sort` with a comparator `(a, b) => key(b) - key(a)`: a stable sort
    into descending order of a real-valued key. Used for the context pool
    (`weight`), the matches (`similarity`) and the fields (`averageSimilarity`). */
module Sorting {

  predicate SortedDesc<T>(s: seq<T>, key: T -> real)
  {
    forall i, j :: 0 <= i < j < |s| ==> key(s[i]) >= key(s[j])
  }

  /** Puts `x` before the first element whose key is not greater than its own. */
  function Insert<T(==)>(x: T, s: seq<T>, key: T -> real): (r: seq<T>)
    ensures multiset(r) == multiset(s) + multiset{x}
  {
    if s == [] || key(s[0]) <= key(x) then [x] + s
    else
      assert s == [s[0]] + s[1..];
      [s[0]] + Insert(x, s[1..], key)
  }

  lemma {:induction false} InsertSorted<T>(x: T, s: seq<T>, key: T -> real)
    requires SortedDesc(s, key)
    ensures SortedDesc(Insert(x, s, key), key)
  {
    if s != [] && key(s[0]) > key(x) {
      var rest := Insert(x, s[1..], key);
      InsertSorted(x, s[1..], key);
      forall y | y in rest ensures key(s[0]) >= key(y) {
        InsertFrom(x, s[1..], key, y);
        if y != x {
          HeadBounds(s, key, y);
        }
      }
      SortedCons(s[0], rest, key);
    }
  }

  /** An element of an insertion is the inserted one or one of the sequence's. */
  lemma {:induction false} InsertFrom<T>(x: T, s: seq<T>, key: T -> real, y: T)
    requires y in Insert(x, s, key)
    ensures y == x || y in s
  {
    assert y in multiset(Insert(x, s, key));
  }

  /** In a sorted sequence the head's key bounds every later key. */
  lemma {:induction false} HeadBounds<T>(s: seq<T>, key: T -> real, y: T)
    requires SortedDesc(s, key) && s != [] && y in s[1..]
    ensures key(s[0]) >= key(y)
  {
    var j :| 0 <= j < |s[1..]| && s[1..][j] == y;
    assert s[j + 1] == y;
  }

  lemma {:induction false} SortedCons<T>(h: T, rest: seq<T>, key: T -> real)
    requires SortedDesc(rest, key) && forall y :: y in rest ==> key(h) >= key(y)
    ensures SortedDesc([h] + rest, key)
  {
    var r := [h] + rest;
    forall i, j | 0 <= i < j < |r| ensures key(r[i]) >= key(r[j]) {
      assert r[j] == rest[j - 1] && r[j] in rest;
      if i > 0 {
        assert r[i] == rest[i - 1];
      }
    }
  }

  /** The sorted copy: insertion of each element, front first, into the sorted rest. */
  function SortDesc<T(==)>(s: seq<T>, key: T -> real): (r: seq<T>)
    ensures multiset(r) == multiset(s)
    ensures SortedDesc(r, key)
  {
    if s == [] then []
    else
      var rest := SortDesc(s[1..], key);
      InsertSorted(s[0], rest, key);
      InsertPermutes(s, rest, key);
      Insert(s[0], rest, key)
  }

  /** Inserting the head into a permutation of the tail gives a permutation of the whole. */
  lemma {:induction false} InsertPermutes<T>(s: seq<T>, rest: seq<T>, key: T -> real)
    requires s != [] && multiset(rest) == multiset(s[1..])
    ensures multiset(Insert(s[0], rest, key)) == multiset(s)
  {
    assert s == [s[0]] + s[1..];
  }

  /** The elements of `s` whose key is `k`, in order. */
  function WithKey<T>(s: seq<T>, key: T -> real, k: real): seq<T>
  {
    if s == [] then [] else (if key(s[0]) == k then [s[0]] else []) + WithKey(s[1..], key, k)
  }

  lemma {:induction false} InsertStable<T>(x: T, s: seq<T>, key: T -> real, k: real)
    ensures WithKey(Insert(x, s, key), key, k) == WithKey([x] + s, key, k)
  {
    if s != [] && key(s[0]) > key(x) {
      var tail := s[1..];
      assert s == [s[0]] + tail;
      assert Insert(x, s, key) == [s[0]] + Insert(x, tail, key);
      InsertStable(x, tail, key, k);
      WithKeyCons(s[0], Insert(x, tail, key), key, k);
      WithKeyCons(x, tail, key, k);
      WithKeyCons(s[0], tail, key, k);
      WithKeyCons(x, s, key, k);
      assert key(x) != k || key(s[0]) != k;
    } else {
      assert Insert(x, s, key) == [x] + s;
    }
  }

  lemma {:induction false} WithKeyCons<T>(x: T, s: seq<T>, key: T -> real, k: real)
    ensures WithKey([x] + s, key, k) == (if key(x) == k then [x] else []) + WithKey(s, key, k)
  {
    assert ([x] + s)[1..] == s;
  }

  /** Stability: among elements with equal keys the sort keeps the input order. */
  lemma {:induction false} SortStable<T>(s: seq<T>, key: T -> real, k: real)
    ensures WithKey(SortDesc(s, key), key, k) == WithKey(s, key, k)
  {
    if s != [] {
      var rest := SortDesc(s[1..], key);
      SortStable(s[1..], key, k);
      InsertStable(s[0], rest, key, k);
      WithKeyCons(s[0], rest, key, k);
      WithKeyCons(s[0], s[1..], key, k);
      assert [s[0]] + s[1..] == s;
    }
  }
}
