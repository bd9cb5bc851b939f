/** A JavaScript object with string keys, as the ordered list of its own entries
    (`Object.entries` order). None of the modelled keys looks like an array index,
    so that order is insertion order. */
module Tables {
  import opened Wrappers

  type Table<V> = seq<(string, V)>

  function KeySet<V(==)>(t: Table<V>): set<string>
  {
    set p | p in t :: p.0
  }

  /** `obj[key]` when `key` is an own property, else undefined. */
  function Get<V(==)>(t: Table<V>, key: string): Option<V>
  {
    if t == [] then None
    else if t[0].0 == key then Some(t[0].1)
    else Get(t[1..], key)
  }

  /** A key is found exactly when it is an own property, and then with a value it has. */
  lemma {:induction false} GetFound<V>(t: Table<V>, key: string)
    ensures Get(t, key).Some? <==> key in KeySet(t)
    ensures Get(t, key).Some? ==> (key, Get(t, key).value) in t
  {
    if t != [] {
      GetFound(t[1..], key);
      assert KeySet(t) == {t[0].0} + KeySet(t[1..]) by {
        assert forall p :: p in t <==> p == t[0] || p in t[1..];
      }
    }
  }

  /** The keys of an object are pairwise distinct. */
  predicate UniqueKeys<V(==)>(t: Table<V>)
  {
    forall i, j :: 0 <= i < j < |t| ==> t[i].0 != t[j].0
  }

  lemma {:induction false} GetUnique<V>(t: Table<V>, i: nat)
    requires UniqueKeys(t) && i < |t|
    ensures Get(t, t[i].0) == Some(t[i].1)
  {
    if i > 0 {
      assert t[0].0 != t[i].0;
      assert t[1..][i - 1] == t[i];
      GetUnique(t[1..], i - 1);
    }
  }

  /** Entries before position `n` with other keys do not change the lookup. */
  lemma {:induction false} GetSkip<V>(t: Table<V>, n: nat, key: string)
    requires n <= |t| && forall j :: 0 <= j < n ==> t[j].0 != key
    ensures Get(t, key) == Get(t[n..], key)
  {
    if n > 0 {
      assert forall j :: 0 <= j < n - 1 ==> t[1..][j] == t[j + 1];
      GetSkip(t[1..], n - 1, key);
      assert t[1..][n - 1..] == t[n..];
    }
  }

  /** When the entries of `a` have the keys of `b` from position `offset` on, every
      key of `a` is a key of `b`. */
  lemma {:induction false} KeysWithin<V, W>(a: Table<V>, b: Table<W>, offset: nat)
    requires |a| + offset <= |b|
    requires forall i :: 0 <= i < |a| ==> a[i].0 == b[i + offset].0
    ensures KeySet(a) <= KeySet(b)
  {
    forall k | k in KeySet(a) ensures k in KeySet(b) {
      var p :| p in a && p.0 == k;
      var i :| 0 <= i < |a| && a[i] == p;
      assert b[i + offset] in b;
    }
  }

  /** A table whose first key is new, followed by the keys of a table with unique
      keys, has unique keys. */
  lemma {:induction false} UniqueAfterFirst<V, W>(a: Table<V>, b: Table<W>)
    requires UniqueKeys(a) && |b| == |a| + 1
    requires forall i :: 0 <= i < |a| ==> a[i].0 == b[i + 1].0
    requires forall i :: 0 < i < |b| ==> b[0].0 != b[i].0
    ensures UniqueKeys(b)
  {
    forall i, j | 0 <= i < j < |b| ensures b[i].0 != b[j].0 {
      if i > 0 {
        assert a[i - 1].0 != a[j - 1].0;
      }
    }
  }
}
