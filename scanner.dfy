/** scanForPropertyCells of parser.js: for every property chain, the cells whose
    contextual embedding matches the chain's vector, best first, one per
    reference, at most three. The chain configuration `chains` (the shipped
    `propertyChains` table) is a parameter here; the parser passes the shipped one. */
module Scanner {
  import opened Wrappers
  import opened Tables
  import opened Records
  import opened Sorting
  import opened Vectors
  import opened Schema
  import opened Resolver
  import opened Context
  import opened CellRefs

  /** `properties[propertyChain].slice(0, 3)` */
  const MaxMatches := 3

  function SimilarityOf(m: Match): real
  {
    m.similarity
  }

  /** The keys of a table, in order. */
  function KeysOf<V>(t: Table<V>): (keys: seq<string>)
    ensures |keys| == |t| && forall i :: 0 <= i < |t| ==> keys[i] == t[i].0
  {
    seq(|t|, i requires 0 <= i < |t| => t[i].0)
  }

  /** `xs.slice(0, n)` */
  function Take<T>(xs: seq<T>, n: nat): (r: seq<T>)
    ensures |r| <= n && r <= xs
  {
    if |xs| <= n then xs else xs[..n]
  }

  /** A list already built, in front of what is still to come (or the error that
      ends the run). */
  function Prepend<T>(done: seq<T>, rest: Result<seq<T>>): Result<seq<T>>
  {
    if rest.Err? then rest else Ok(done + rest.value)
  }

  lemma {:induction false} PrependNothing<T>(r: Result<seq<T>>)
    ensures Prepend([], r) == r
  {
    if r.Ok? {
      assert [] + r.value == r.value;
    }
  }

  /** The similarity of a cell's contextual embedding (default options) to the
      chain's vector (its key looked up in `chains`); an error thrown on the way. */
  function CellSimilarity(sqrt: real -> real, chains: Table<Entry>, chainEmbeddings: Table<Vector>, data: seq<Cell>, cell: Cell, key: string)
    : Result<real>
    requires IsSqrt(sqrt)
  {
    var contextual :- ContextualEmbedding(sqrt, cell, data, DefaultThreshold, DefaultMergedWeight);
    Similarity(sqrt, contextual, Resolve(chains, chainEmbeddings, key, {}))
  }

  /** The similarity of each of `cells`. */
  function Similarities(sqrt: real -> real, chains: Table<Entry>, chainEmbeddings: Table<Vector>, data: seq<Cell>, cells: seq<Cell>, key: string)
    : (sims: seq<Result<real>>)
    requires IsSqrt(sqrt)
  {
    seq(|cells|, k requires 0 <= k < |cells| => CellSimilarity(sqrt, chains, chainEmbeddings, data, cells[k], key))
  }

  /** The matches pushed while going through `cells` with similarities `sims`:
      every cell whose similarity is above 0.85. The first cell whose similarity
      threw ends the scan. */
  function Pushed(cells: seq<Cell>, sims: seq<Result<real>>): Result<seq<Match>>
    requires |sims| == |cells|
  {
    if cells == [] then Ok([])
    else
      var similarity :- sims[0];
      var rest :- Pushed(cells[1..], sims[1..]);
      Ok((if similarity > MatchThreshold then [Match(cells[0].cellRef, similarity)] else []) + rest)
  }

  /** The matches pushed for `key` over the whole data. */
  function Candidates(sqrt: real -> real, chains: Table<Entry>, chainEmbeddings: Table<Vector>, data: seq<Cell>, key: string)
    : Result<seq<Match>>
    requires IsSqrt(sqrt)
  {
    Pushed(data, Similarities(sqrt, chains, chainEmbeddings, data, data, key))
  }

  /** One step of the run, seen from outside: the first cell's match (if any) joins
      the list already built. */
  lemma {:induction false} PushedStep(cells: seq<Cell>, sims: seq<Result<real>>, done: seq<Match>)
    requires |sims| == |cells| && cells != [] && sims[0].Ok?
    ensures var m := if sims[0].value > MatchThreshold then [Match(cells[0].cellRef, sims[0].value)] else [];
      Prepend(done, Pushed(cells, sims)) == Prepend(done + m, Pushed(cells[1..], sims[1..]))
  {
    var m := if sims[0].value > MatchThreshold then [Match(cells[0].cellRef, sims[0].value)] else [];
    var rest := Pushed(cells[1..], sims[1..]);
    if rest.Ok? {
      assert done + (m + rest.value) == (done + m) + rest.value;
    }
  }

  /** Every pushed match is above 0.85 and names one of the cells. */
  lemma {:induction false} PushedSound(cells: seq<Cell>, sims: seq<Result<real>>)
    requires |sims| == |cells|
    ensures var r := Pushed(cells, sims);
      r.Ok? ==> forall m :: m in r.value ==>
        m.similarity > MatchThreshold && exists k :: 0 <= k < |cells| && cells[k].cellRef == m.cellRef
  {
    if cells != [] {
      PushedSound(cells[1..], sims[1..]);
      assert forall k :: 1 <= k < |cells| ==> cells[1..][k - 1] == cells[k];
    }
  }

  /** The first similarity that throws is the error of the scan; one that comes
      after it is never computed. */
  lemma {:induction false} PushedError(cells: seq<Cell>, sims: seq<Result<real>>, k: nat)
    requires |sims| == |cells| && k < |cells| && sims[k].Err?
    requires forall j :: 0 <= j < k ==> sims[j].Ok?
    ensures Pushed(cells, sims) == Err(sims[k].error)
  {
    if k > 0 {
      assert forall j :: 0 <= j < k - 1 ==> sims[1..][j] == sims[j + 1];
      PushedError(cells[1..], sims[1..], k - 1);
    }
  }

  /** One step of the inner loop at index `i`: the invariant moves on to `i + 1`. */
  lemma {:induction false} PushedStepAt(cells: seq<Cell>, sims: seq<Result<real>>, i: nat, done: seq<Match>)
    requires |sims| == |cells| && i < |cells| && sims[i].Ok?
    requires Pushed(cells, sims) == Prepend(done, Pushed(cells[i..], sims[i..]))
    ensures var m := if sims[i].value > MatchThreshold then [Match(cells[i].cellRef, sims[i].value)] else [];
      Pushed(cells, sims) == Prepend(done + m, Pushed(cells[i + 1..], sims[i + 1..]))
  {
    assert cells[i..][0] == cells[i] && cells[i..][1..] == cells[i + 1..];
    assert sims[i..][0] == sims[i] && sims[i..][1..] == sims[i + 1..];
    PushedStep(cells[i..], sims[i..], done);
    assert done + [] == done;
  }

  /** An error at index `i` of the inner loop is the error of the whole run. */
  lemma {:induction false} PushedErrorAt(cells: seq<Cell>, sims: seq<Result<real>>, i: nat, done: seq<Match>)
    requires |sims| == |cells| && i < |cells| && sims[i].Err?
    requires Pushed(cells, sims) == Prepend(done, Pushed(cells[i..], sims[i..]))
    ensures Pushed(cells, sims) == Err(sims[i].error)
  {
    assert sims[i..][0] == sims[i];
    PushedError(cells[i..], sims[i..], 0);
  }

  /** The list kept for `key`: the candidates sorted by descending similarity,
      deduplicated by reference, cut to three. */
  function ScanKey(sqrt: real -> real, chains: Table<Entry>, chainEmbeddings: Table<Vector>, data: seq<Cell>, key: string): Result<seq<Match>>
    requires IsSqrt(sqrt)
  {
    var found :- Candidates(sqrt, chains, chainEmbeddings, data, key);
    Ok(Kept(found))
  }

  /** The `properties` object for the chain keys `keys`, in their order. */
  function Scan(sqrt: real -> real, chains: Table<Entry>, chainEmbeddings: Table<Vector>, data: seq<Cell>, keys: seq<string>)
    : Result<Table<seq<Match>>>
    requires IsSqrt(sqrt)
  {
    if keys == [] then Ok([])
    else
      var matches :- ScanKey(sqrt, chains, chainEmbeddings, data, keys[0]);
      var rest :- Scan(sqrt, chains, chainEmbeddings, data, keys[1..]);
      Ok([(keys[0], matches)] + rest)
  }

  /** scanForPropertyCells: the keys of the loaded chain embeddings, each scanned
      over the whole data. */
  method ScanForPropertyCells(sqrt: real -> real, chains: Table<Entry>, chainEmbeddings: Table<Vector>, data: seq<Cell>)
    returns (r: Result<Table<seq<Match>>>)
    requires IsSqrt(sqrt)
    ensures r == Scan(sqrt, chains, chainEmbeddings, data, KeysOf(chainEmbeddings))
  {
    var keys := KeysOf(chainEmbeddings);
    var properties: Table<seq<Match>> := [];
    assert keys[0..] == keys;
    PrependNothing(Scan(sqrt, chains, chainEmbeddings, data, keys));
    for j := 0 to |keys|
      invariant Scan(sqrt, chains, chainEmbeddings, data, keys) == Prepend(properties, Scan(sqrt, chains, chainEmbeddings, data, keys[j..]))
    {
      var key := keys[j];
      assert keys[j..][0] == key && keys[j..][1..] == keys[j + 1..];
      var kept := ScanChain(sqrt, chains, chainEmbeddings, data, key);
      if kept.Err? {
        return Err(kept.error);
      }
      ghost var rest := Scan(sqrt, chains, chainEmbeddings, data, keys[j + 1..]);
      if rest.Ok? {
        assert properties + ([(key, kept.value)] + rest.value) == (properties + [(key, kept.value)]) + rest.value;
      }
      properties := properties + [(key, kept.value)];
    }
    assert keys[|keys|..] == [] && properties + [] == properties;
    return Ok(properties);
  }

  /** The similarity computed for one cell in the inner loop of scanForPropertyCells. */
  method MatchCell(sqrt: real -> real, chains: Table<Entry>, chainEmbeddings: Table<Vector>, data: seq<Cell>, cell: Cell, key: string)
    returns (similarity: Result<real>)
    requires IsSqrt(sqrt)
    ensures similarity == CellSimilarity(sqrt, chains, chainEmbeddings, data, cell, key)
  {
    var contextual := ContextualEmbedding(sqrt, cell, data, DefaultThreshold, DefaultMergedWeight);
    if contextual.Err? {
      return Err(contextual.error);
    }
    var embeddable, _ := GetEmbeddable(chains, chainEmbeddings, key, {});
    similarity := Similarity(sqrt, contextual.value, embeddable);
  }

  /** The body of the outer loop of scanForPropertyCells for one chain key: push
      the matching cells, then sort, deduplicate and cut. */
  method ScanChain(sqrt: real -> real, chains: Table<Entry>, chainEmbeddings: Table<Vector>, data: seq<Cell>, key: string)
    returns (r: Result<seq<Match>>)
    requires IsSqrt(sqrt)
    ensures r == ScanKey(sqrt, chains, chainEmbeddings, data, key)
  {
    var found := PushMatches(sqrt, chains, chainEmbeddings, data, key);
    if found.Err? {
      return Err(found.error);
    }
    var sorted := SortDesc(found.value, SimilarityOf);
    var unique := DedupeMatches(sorted);
    return Ok(Take(unique, MaxMatches));
  }

  /** The inner loop of scanForPropertyCells: every cell whose similarity is above
      0.85 is pushed, in data order; the first error thrown ends the scan. */
  method PushMatches(sqrt: real -> real, chains: Table<Entry>, chainEmbeddings: Table<Vector>, data: seq<Cell>, key: string)
    returns (r: Result<seq<Match>>)
    requires IsSqrt(sqrt)
    ensures r == Candidates(sqrt, chains, chainEmbeddings, data, key)
  {
    var found: seq<Match> := [];
    ghost var sims := Similarities(sqrt, chains, chainEmbeddings, data, data, key);
    assert data[0..] == data && sims[0..] == sims;
    PrependNothing(Pushed(data, sims));
    for i := 0 to |data|
      invariant Pushed(data, sims) == Prepend(found, Pushed(data[i..], sims[i..]))
    {
      var cell := data[i];
      var similarity := MatchCell(sqrt, chains, chainEmbeddings, data, cell, key);
      assert similarity == sims[i];
      if similarity.Err? {
        PushedErrorAt(data, sims, i, found);
        return Err(similarity.error);
      }
      PushedStepAt(data, sims, i, found);
      var pushed := if similarity.value > MatchThreshold then [Match(cell.cellRef, similarity.value)] else [];
      found := found + pushed;
    }
    assert data[|data|..] == [] && sims[|data|..] == [] && found + [] == found;
    return Ok(found);
  }

  // ---------------------------------------------------------------------------
  // What a scanned list holds

  /** A subsequence of a sorted list is sorted. */
  lemma {:induction false} SubsequenceSorted(a: seq<Match>, b: seq<Match>)
    requires IsSubsequence(a, b) && SortedDesc(b, SimilarityOf)
    ensures SortedDesc(a, SimilarityOf)
    decreases |b|
  {
    if a != [] {
      assert forall i, j :: 0 <= i < j < |b| - 1 ==> b[1..][i] == b[i + 1] && b[1..][j] == b[j + 1];
      if a[0] == b[0] {
        SubsequenceSorted(a[1..], b[1..]);
        SubsequenceMembers(a[1..], b[1..]);
        forall i, j | 0 <= i < j < |a| ensures a[i].similarity >= a[j].similarity {
          assert a[j] == a[1..][j - 1];
          assert a[j] in b[1..];
          if i > 0 {
            assert a[i] == a[1..][i - 1];
          }
        }
      } else {
        SubsequenceSorted(a, b[1..]);
      }
    }
  }

  /** In a list sorted by descending similarity, the first match of a reference is
      its best one. */
  lemma {:induction false} FirstIsBest(s: seq<Match>, m: Match, x: Match)
    requires SortedDesc(s, SimilarityOf) && IsFirstOccurrence(s, m)
    requires x in s && x.cellRef == m.cellRef
    ensures x.similarity <= m.similarity
  {
    var i :| 0 <= i < |s| && s[i] == m && forall j :: 0 <= j < i ==> s[j].cellRef != m.cellRef;
    var j :| 0 <= j < |s| && s[j] == x;
    assert !(j < i);
  }

  /** The list kept of a candidate list. */
  function Kept(found: seq<Match>): seq<Match>
  {
    Take(Dedupe(SortDesc(found, SimilarityOf)), MaxMatches)
  }

  /** What is kept is a prefix of the deduplicated sorted candidates. */
  lemma {:induction false} KeptPrefix(found: seq<Match>)
    ensures var sorted := SortDesc(found, SimilarityOf);
      Kept(found) <= Dedupe(sorted) && IsSubsequence(Dedupe(sorted), sorted) &&
      DistinctRefs(Dedupe(sorted)) && (forall m :: m in Dedupe(sorted) ==> IsFirstOccurrence(sorted, m)) &&
      (forall m :: m in sorted ==> exists k :: k in Dedupe(sorted) && k.cellRef == m.cellRef)
  {
    DedupeProperties(SortDesc(found, SimilarityOf));
  }

  /** At most three matches, best first, with distinct references. */
  lemma {:induction false} KeptShape(found: seq<Match>)
    ensures |Kept(found)| <= MaxMatches && SortedDesc(Kept(found), SimilarityOf) && DistinctRefs(Kept(found))
  {
    var sorted := SortDesc(found, SimilarityOf);
    var unique := Dedupe(sorted);
    var r := Kept(found);
    KeptPrefix(found);
    SubsequenceSorted(unique, sorted);
    assert forall i :: 0 <= i < |r| ==> r[i] == unique[i];
  }

  /** Every kept match is a candidate, and the best candidate of its reference. */
  lemma {:induction false} KeptBest(found: seq<Match>)
    ensures forall m :: m in Kept(found) ==> m in found
    ensures forall m, x :: m in Kept(found) && x in found && x.cellRef == m.cellRef ==> x.similarity <= m.similarity
  {
    var sorted := SortDesc(found, SimilarityOf);
    var unique := Dedupe(sorted);
    var r := Kept(found);
    KeptPrefix(found);
    SubsequenceMembers(unique, sorted);
    forall m | m in r ensures m in unique && m in found {
      var i :| 0 <= i < |r| && r[i] == m;
      assert unique[i] == m;
      assert m in multiset(sorted);
    }
    forall m, x | m in r && x in found && x.cellRef == m.cellRef ensures x.similarity <= m.similarity {
      assert x in multiset(sorted);
      FirstIsBest(sorted, m, x);
    }
  }

  /** With at most three references among the candidates, every one of them is kept. */
  lemma {:induction false} KeptComplete(found: seq<Match>)
    requires |Dedupe(SortDesc(found, SimilarityOf))| <= MaxMatches
    ensures forall x :: x in found ==> exists m :: m in Kept(found) && m.cellRef == x.cellRef
  {
    var sorted := SortDesc(found, SimilarityOf);
    KeptPrefix(found);
    forall x | x in found ensures exists m :: m in Kept(found) && m.cellRef == x.cellRef {
      assert x in multiset(sorted);
    }
  }

  /** A key's list: the kept candidates, each above 0.85 and the reference of a data cell. */
  lemma {:induction false} ScanKeyProperties(sqrt: real -> real, chains: Table<Entry>, chainEmbeddings: Table<Vector>, data: seq<Cell>, key: string)
    requires IsSqrt(sqrt)
    ensures var r := ScanKey(sqrt, chains, chainEmbeddings, data, key);
      r.Ok? ==>
        var found := Candidates(sqrt, chains, chainEmbeddings, data, key).value;
        && r.value == Kept(found)
        && |r.value| <= MaxMatches
        && (forall m :: m in r.value ==> m in found && m.similarity > MatchThreshold)
        && (forall m :: m in r.value ==> exists k :: 0 <= k < |data| && data[k].cellRef == m.cellRef)
  {
    var found' := Candidates(sqrt, chains, chainEmbeddings, data, key);
    PushedSound(data, Similarities(sqrt, chains, chainEmbeddings, data, data, key));
    if found'.Ok? {
      KeptShape(found'.value);
      KeptBest(found'.value);
    }
  }

  /** Once there is a cell, a chain key without a vector makes the scan throw
      (when the cell's own contextual embedding does not throw first). */
  lemma {:induction false} MissingVectorThrows(sqrt: real -> real, chains: Table<Entry>, chainEmbeddings: Table<Vector>, data: seq<Cell>, key: string)
    requires IsSqrt(sqrt) && data != []
    requires Resolve(chains, chainEmbeddings, key, {}).None?
    requires ContextualEmbedding(sqrt, data[0], data, DefaultThreshold, DefaultMergedWeight).Ok?
    ensures ScanKey(sqrt, chains, chainEmbeddings, data, key) == Err(NullVector)
  {
    PushedError(data, Similarities(sqrt, chains, chainEmbeddings, data, data, key), 0);
  }

  /** The result has exactly the scanned keys, in order. */
  lemma {:induction false} ScanKeys(sqrt: real -> real, chains: Table<Entry>, chainEmbeddings: Table<Vector>, data: seq<Cell>, keys: seq<string>)
    requires IsSqrt(sqrt)
    ensures var r := Scan(sqrt, chains, chainEmbeddings, data, keys);
      r.Ok? ==> KeysOf(r.value) == keys && forall i :: 0 <= i < |keys| ==>
        Ok(r.value[i].1) == ScanKey(sqrt, chains, chainEmbeddings, data, keys[i])
  {
    if keys != [] {
      ScanKeys(sqrt, chains, chainEmbeddings, data, keys[1..]);
      var r := Scan(sqrt, chains, chainEmbeddings, data, keys);
      if r.Ok? {
        var first := ScanKey(sqrt, chains, chainEmbeddings, data, keys[0]);
        var rest := Scan(sqrt, chains, chainEmbeddings, data, keys[1..]);
        assert first.Ok? && rest.Ok? && r.value == [(keys[0], first.value)] + rest.value;
        ConsRows(keys, first.value, rest.value);
      }
    }
  }

  /** Putting the first key's row in front of the rows of the other keys. */
  lemma {:induction false} ConsRows<V>(keys: seq<string>, v: V, rest: Table<V>)
    requires keys != [] && KeysOf(rest) == keys[1..]
    ensures KeysOf([(keys[0], v)] + rest) == keys
    ensures forall i :: 1 <= i < |keys| ==> ([(keys[0], v)] + rest)[i] == rest[i - 1] && keys[i] == keys[1..][i - 1]
  {
    var t := [(keys[0], v)] + rest;
    var kt, kr := KeysOf(t), KeysOf(rest);
    forall i | 1 <= i < |keys| ensures t[i] == rest[i - 1] && keys[i] == keys[1..][i - 1] {
    }
    forall i | 0 <= i < |keys| ensures kt[i] == keys[i] {
      if i == 0 {
        assert kt[0] == t[0].0;
      } else {
        assert kt[i] == t[i].0 && kr[i - 1] == rest[i - 1].0 && keys[1..][i - 1] == kr[i - 1];
      }
    }
  }
}
