/** getEmbeddable of parser.js: the vector a configuration key stands for, following
    `defer` aliases and stopping on a key already visited. */
module Resolver {
  import opened Wrappers
  import opened Tables
  import opened Schema

  type Vector = seq<real>

  /** One key more in `seen` leaves one configuration key fewer to visit. */
  lemma {:induction false} VisitShrinks(keys: set<string>, seen: set<string>, key: string)
    requires key in keys && key !in seen
    ensures |keys - (seen + {key})| < |keys - seen|
  {
    assert keys - (seen + {key}) == (keys - seen) - {key};
  }

  /** The value getEmbeddable returns when `seen` is the set it was handed. */
  function Resolve(config: Table<Entry>, embeddings: Table<Vector>, key: string, seen: set<string>): Option<Vector>
    decreases |KeySet(config) - seen|
  {
    if key in seen then None
    else
      match Get(config, key)
      case None => None
      case Some(entry) =>
        if entry.defer.Some? then
          GetFound(config, key);
          VisitShrinks(KeySet(config), seen, key);
          Resolve(config, embeddings, entry.defer.value, seen + {key})
        else Get(embeddings, key)
  }

  /** The keys the walk adds to `seen`. */
  function Visited(config: Table<Entry>, key: string, seen: set<string>): set<string>
    decreases |KeySet(config) - seen|
  {
    if key in seen then {}
    else
      match Get(config, key)
      case None => {key}
      case Some(entry) =>
        if entry.defer.Some? then
          GetFound(config, key);
          VisitShrinks(KeySet(config), seen, key);
          {key} + Visited(config, entry.defer.value, seen + {key})
        else {key}
  }

  /** getEmbeddable, recursive as in the source; the caller's `seen` set comes back
      with the visited keys added. */
  method GetEmbeddable(config: Table<Entry>, embeddings: Table<Vector>, key: string, seen: set<string>)
    returns (r: Option<Vector>, seenAfter: set<string>)
    ensures r == Resolve(config, embeddings, key, seen)
    ensures seenAfter == seen + Visited(config, key, seen)
    decreases |KeySet(config) - seen|
  {
    if key in seen {
      return None, seen;
    }
    var seen' := seen + {key};
    var entry := Get(config, key);
    if entry.None? {
      return None, seen';
    }
    if entry.value.defer.Some? {
      GetFound(config, key);
      VisitShrinks(KeySet(config), seen, key);
      r, seenAfter := GetEmbeddable(config, embeddings, entry.value.defer.value, seen');
      return;
    }
    r := Get(embeddings, key);
    seenAfter := seen';
  }

  /** A result always is the vector of a key that embeds directly, reached from `key`. */
  lemma {:induction false} ResolveSound(config: Table<Entry>, embeddings: Table<Vector>, key: string, seen: set<string>)
    ensures var r := Resolve(config, embeddings, key, seen);
      r.Some? ==> exists k :: (k in Visited(config, key, seen) && Get(config, k).Some? &&
                               Get(config, k).value.defer.None? && Get(embeddings, k) == r)
    decreases |KeySet(config) - seen|
  {
    if key !in seen {
      var entry := Get(config, key);
      if entry.Some? && entry.value.defer.Some? {
        GetFound(config, key);
        VisitShrinks(KeySet(config), seen, key);
        ResolveSound(config, embeddings, entry.value.defer.value, seen + {key});
      }
    }
  }

  /** The walk only visits keys it has not seen, starting with `key`, and at most
      one of them (the last) is not a configuration key. */
  lemma {:induction false} VisitedBounds(config: Table<Entry>, key: string, seen: set<string>)
    ensures Visited(config, key, seen) !! seen
    ensures key !in seen ==> key in Visited(config, key, seen)
    ensures |Visited(config, key, seen) - KeySet(config)| <= 1
    decreases |KeySet(config) - seen|
  {
    var vs := Visited(config, key, seen);
    if key !in seen {
      var entry := Get(config, key);
      if entry.Some? && entry.value.defer.Some? {
        GetFound(config, key);
        VisitShrinks(KeySet(config), seen, key);
        var t := entry.value.defer.value;
        VisitedBounds(config, t, seen + {key});
        assert vs - KeySet(config) == Visited(config, t, seen + {key}) - KeySet(config);
      } else {
        assert vs - KeySet(config) <= {key};
      }
    }
  }

  /** No vector is ever read for a key already in `seen`. */
  lemma {:induction false} SeenKeyNeverRead(config: Table<Entry>, embeddings: Table<Vector>, key: string, seen: set<string>,
                                             read: string, v: Vector)
    requires read in seen
    ensures Resolve(config, [(read, v)] + embeddings, key, seen) == Resolve(config, embeddings, key, seen)
    decreases |KeySet(config) - seen|
  {
    if key !in seen {
      var entry := Get(config, key);
      if entry.Some? && entry.value.defer.Some? {
        GetFound(config, key);
        VisitShrinks(KeySet(config), seen, key);
        SeenKeyNeverRead(config, embeddings, entry.value.defer.value, seen + {key}, read, v);
      } else if entry.Some? {
        assert ([(read, v)] + embeddings)[1..] == embeddings;
      }
    }
  }

  /** A deferring key never reads its own vector: whatever the embeddings hold
      under that key, the result is the same. */
  lemma {:induction false} DeferIgnoresOwnVector(config: Table<Entry>, embeddings: Table<Vector>, key: string, v: Vector)
    requires Get(config, key).Some? && Get(config, key).value.defer.Some?
    ensures Resolve(config, [(key, v)] + embeddings, key, {}) == Resolve(config, embeddings, key, {})
  {
    GetFound(config, key);
    VisitShrinks(KeySet(config), {}, key);
    SeenKeyNeverRead(config, embeddings, Get(config, key).value.defer.value, {key}, key, v);
  }

  /** A key that embeds directly gets its own vector. */
  lemma {:induction false} ResolveDirect(config: Table<Entry>, embeddings: Table<Vector>, key: string, seen: set<string>)
    requires key !in seen
    requires Get(config, key).Some? && Get(config, key).value.defer.None?
    ensures Resolve(config, embeddings, key, seen) == Get(embeddings, key)
  {
  }

  /** A key that is not configured gives null, whatever the embeddings hold. */
  lemma {:induction false} ResolveUnknown(config: Table<Entry>, embeddings: Table<Vector>, key: string)
    requires key !in KeySet(config)
    ensures Resolve(config, embeddings, key, {}) == None
  {
    GetFound(config, key);
  }

  /** Two keys deferring to each other give null (the `seen` check), even when
      both have vectors. */
  lemma {:induction false} CycleGivesNull(a: Vector, b: Vector)
    ensures Resolve([("a", Defers("b")), ("b", Defers("a"))], [("a", a), ("b", b)], "a", {}) == None
  {
    var config := [("a", Defers("b")), ("b", Defers("a"))];
    assert Get(config, "a") == Some(Defers("b"));
    assert Get(config, "b") == Some(Defers("a"));
    VisitShrinks(KeySet(config), {}, "a");
    VisitShrinks(KeySet(config), {"a"}, "b");
  }

  /** When every alias names an entry that embeds directly, lookup takes at most
      one alias step. */
  lemma {:induction false} ResolveDefersOnce(config: Table<Entry>, embeddings: Table<Vector>, key: string)
    requires DefersResolve(config)
    requires Get(config, key).Some?
    ensures var e := Get(config, key).value;
      Resolve(config, embeddings, key, {}) ==
        if e.defer.Some? then Get(embeddings, e.defer.value) else Get(embeddings, key)
  {
    var e := Get(config, key).value;
    GetFound(config, key);
    if e.defer.Some? {
      var i :| 0 <= i < |config| && config[i] == (key, e);
      var t := e.defer.value;
      assert Get(config, t).Some? && Get(config, t).value.defer.None?;
      assert t != key;
      GetFound(config, key);
      VisitShrinks(KeySet(config), {}, key);
      ResolveDirect(config, embeddings, t, {key});
    }
  }

  /** In the shipped `propertyValues` every aliased key, such as urgent care,
      borrows the `_CostOrCoverage` vector. */
  lemma {:induction false} ShippedAliasesBorrowCost(embeddings: Table<Vector>, key: string)
    requires Get(PropertyValues, key).Some? && Get(PropertyValues, key).value.defer.Some?
    ensures Resolve(PropertyValues, embeddings, key, {}) == Get(embeddings, CostOrCoverage)
  {
    TablesDefersResolve();
    ValueDefersTargetCost();
    GetFound(PropertyValues, key);
    var i :| 0 <= i < |PropertyValues| && PropertyValues[i] == (key, Get(PropertyValues, key).value);
    ResolveDefersOnce(PropertyValues, embeddings, key);
  }

  lemma {:induction false} UrgentCareBorrowsCost(embeddings: Table<Vector>)
    ensures Resolve(PropertyValues, embeddings, UrgentCareKey, {}) == Get(embeddings, CostOrCoverage)
  {
    UrgentCareDefers();
    ShippedAliasesBorrowCost(embeddings, UrgentCareKey);
  }

  lemma {:induction false} UrgentCareDefers()
    ensures Get(PropertyValues, UrgentCareKey) == Some(Defers(CostOrCoverage))
  {
    var t := PropertyValues;
    assert t[0].0 != UrgentCareKey;
    assert Get(t, UrgentCareKey) == Get(t[1..], UrgentCareKey);
    t := t[1..];
    assert t[0].0 != UrgentCareKey;
    assert Get(t, UrgentCareKey) == Get(t[1..], UrgentCareKey);
    t := t[1..];
    assert t[0].0 != UrgentCareKey;
    assert Get(t, UrgentCareKey) == Get(t[1..], UrgentCareKey);
    t := t[1..];
    assert t[0] == (UrgentCareKey, Defers(CostOrCoverage));
  }
}
