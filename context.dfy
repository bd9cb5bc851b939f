/** getContextualEmbedding of parser.js: a cell's embedding blended with the
    embeddings of the cells around it, weighted by getCellScore. */
module Context {
  import opened Wrappers
  import opened Records
  import opened Sorting
  import opened Vectors

  /** The default options of getContextualEmbedding. */
  const DefaultThreshold: real := 0.6
  const DefaultMergedWeight: real := 0.7

  /** Every cell's embedding has length `n`. */
  predicate Uniform(data: seq<Cell>, n: nat)
  {
    forall k :: 0 <= k < |data| ==> |data[k].embedding| == n
  }

  /** The `relevantCells` pool: in data order, every cell whose score as context
      for `cell` is above the threshold, with that score as its weight. */
  function Relevant(sqrt: real -> real, cell: Cell, data: seq<Cell>, threshold: real): (r: seq<Weighted>)
    requires IsSqrt(sqrt)
    ensures |r| <= |data|
    ensures forall k :: 0 <= k < |r| ==> threshold < r[k].weight && 0.0 < r[k].weight < 1.0
  {
    if data == [] then []
    else
      var w := CellScore(sqrt, cell.indices, data[0].indices);
      (if w > threshold then [Weighted(data[0].embedding, w)] else []) + Relevant(sqrt, cell, data[1..], threshold)
  }

  /** Similarities above this count as a match (updateACL and scanForPropertyCells). */
  const MatchThreshold: real := 0.85

  /** cosineSimilarity of a contextual embedding and a looked-up vector; a missing
      vector throws when its `length` is read. */
  function Similarity(sqrt: real -> real, contextual: seq<real>, target: Option<seq<real>>): Result<real>
    requires IsSqrt(sqrt)
  {
    if target.None? then Err(NullVector) else CosineSimilarity(sqrt, contextual, target.value)
  }

  /** The weight of a pool item, the sort key of the `list` return type. */
  function WeightOf(item: Weighted): real
  {
    item.weight
  }

  /** getContextualEmbedding with returnType "weighted-average": the weighted mean of
      the pool is computed first (its errors surface); when it has components the
      result is the blend `[{cell, 1}, {mean, mergedWeight}]`, otherwise the cell's
      own embedding. */
  function ContextualEmbedding(sqrt: real -> real, cell: Cell, data: seq<Cell>, threshold: real, mergedWeight: real)
    : (r: Result<seq<real>>)
    requires IsSqrt(sqrt)
    ensures r.Ok? ==> |r.value| == |cell.embedding|
  {
    var merged :- WeightedMean(Relevant(sqrt, cell, data, threshold));
    if |merged| > 0 then
      WeightedMean([Weighted(cell.embedding, 1.0), Weighted(merged, mergedWeight)])
    else Ok(cell.embedding)
  }

  /** getContextualEmbedding with returnType "list": the pool sorted by descending
      weight, stably, after the weighted mean has been computed (and may throw). */
  function ContextualList(sqrt: real -> real, cell: Cell, data: seq<Cell>, threshold: real): (r: Result<seq<Weighted>>)
    requires IsSqrt(sqrt)
    ensures r.Err? <==> WeightedMean(Relevant(sqrt, cell, data, threshold)).Err?
    ensures r.Ok? ==> SortedDesc(r.value, WeightOf) &&
                      multiset(r.value) == multiset(Relevant(sqrt, cell, data, threshold))
  {
    var pool := Relevant(sqrt, cell, data, threshold);
    var merged :- WeightedMean(pool);
    Ok(SortDesc(pool, WeightOf))
  }

  // ---------------------------------------------------------------------------
  // The pool

  /** An item is in the pool exactly when some cell of the data has that embedding
      and a score above the threshold, the score being the weight. */
  lemma {:induction false} RelevantMembers(sqrt: real -> real, cell: Cell, data: seq<Cell>, threshold: real,
                                            e: seq<real>, w: real)
    requires IsSqrt(sqrt)
    ensures Weighted(e, w) in Relevant(sqrt, cell, data, threshold) <==>
      exists k :: 0 <= k < |data| && data[k].embedding == e &&
                  w == CellScore(sqrt, cell.indices, data[k].indices) && w > threshold
  {
    if data != [] {
      RelevantMembers(sqrt, cell, data[1..], threshold, e, w);
      if exists k :: 0 <= k < |data| && data[k].embedding == e &&
                     w == CellScore(sqrt, cell.indices, data[k].indices) && w > threshold {
        var k :| 0 <= k < |data| && data[k].embedding == e &&
                 w == CellScore(sqrt, cell.indices, data[k].indices) && w > threshold;
        if k > 0 {
          assert data[1..][k - 1] == data[k];
        }
      }
      if exists k :: 0 <= k < |data[1..]| && data[1..][k].embedding == e &&
                     w == CellScore(sqrt, cell.indices, data[1..][k].indices) && w > threshold {
        var k :| 0 <= k < |data[1..]| && data[1..][k].embedding == e &&
                 w == CellScore(sqrt, cell.indices, data[1..][k].indices) && w > threshold;
        assert data[k + 1] == data[1..][k];
      }
    }
  }

  /** A cell always scores 16/17 against itself, so below that threshold it is
      part of its own context. */
  lemma {:induction false} SelfInPool(sqrt: real -> real, data: seq<Cell>, k: nat, threshold: real)
    requires IsSqrt(sqrt) && k < |data| && threshold < 16.0 / 17.0
    ensures Weighted(data[k].embedding, 16.0 / 17.0) in Relevant(sqrt, data[k], data, threshold)
  {
    SelfScore(sqrt, data[k].indices);
    RelevantMembers(sqrt, data[k], data, threshold, data[k].embedding, 16.0 / 17.0);
  }

  /** The cells of `data` that lie weakly above and to the left of `cell`. */
  function AboveLeft(cell: Cell, data: seq<Cell>): (r: seq<Cell>)
    ensures forall k :: 0 <= k < |r| ==> r[k].indices.row <= cell.indices.row && r[k].indices.col <= cell.indices.col
  {
    if data == [] then []
    else
      var c := data[0];
      (if c.indices.row <= cell.indices.row && c.indices.col <= cell.indices.col then [c] else [])
        + AboveLeft(cell, data[1..])
  }

  /** From a threshold of 0.2 on, cells below or to the right never enter the pool. */
  lemma {:induction false} RelevantIgnoresBelowRight(sqrt: real -> real, cell: Cell, data: seq<Cell>, threshold: real)
    requires IsSqrt(sqrt) && threshold >= 0.2
    ensures Relevant(sqrt, cell, data, threshold) == Relevant(sqrt, cell, AboveLeft(cell, data), threshold)
  {
    if data != [] {
      var c := data[0];
      RelevantIgnoresBelowRight(sqrt, cell, data[1..], threshold);
      ScoreAboveLeft(sqrt, cell.indices, c.indices);
      var f, g := AboveLeft(cell, data), AboveLeft(cell, data[1..]);
      var w := CellScore(sqrt, cell.indices, c.indices);
      var head := if w > threshold then [Weighted(c.embedding, w)] else [];
      assert Relevant(sqrt, cell, data, threshold) == head + Relevant(sqrt, cell, data[1..], threshold);
      if c.indices.row <= cell.indices.row && c.indices.col <= cell.indices.col {
        assert f == [c] + g;
        assert f[0] == c && f[1..] == g;
        assert Relevant(sqrt, cell, f, threshold) == head + Relevant(sqrt, cell, g, threshold);
      } else {
        assert f == g && head == [];
        assert head + Relevant(sqrt, cell, data[1..], threshold) == Relevant(sqrt, cell, data[1..], threshold);
      }
    }
  }

  /** The pool of uniform data is uniform. */
  lemma {:induction false} RelevantSameLength(sqrt: real -> real, cell: Cell, data: seq<Cell>, threshold: real, n: nat)
    requires IsSqrt(sqrt) && Uniform(data, n)
    ensures SameLength(Relevant(sqrt, cell, data, threshold), n)
  {
    if data != [] {
      RelevantSameLength(sqrt, cell, data[1..], threshold, n);
    }
  }

  /** No score passes the threshold: the pool is empty. */
  lemma {:induction false} RelevantEmpty(sqrt: real -> real, cell: Cell, data: seq<Cell>, threshold: real)
    requires IsSqrt(sqrt)
    requires forall k :: 0 <= k < |data| ==> CellScore(sqrt, cell.indices, data[k].indices) <= threshold
    ensures Relevant(sqrt, cell, data, threshold) == []
  {
    if data != [] {
      assert forall k :: 1 <= k < |data| ==> data[1..][k - 1] == data[k];
      RelevantEmpty(sqrt, cell, data[1..], threshold);
    }
  }

  /** On uniform data the pool's mean is a vector of the same length, [] for an
      empty pool. */
  lemma {:induction false} PoolMeanUniform(sqrt: real -> real, cell: Cell, data: seq<Cell>, threshold: real, n: nat)
    requires IsSqrt(sqrt) && Uniform(data, n)
    ensures var pool := Relevant(sqrt, cell, data, threshold);
      WeightedMean(pool).Ok? && |WeightedMean(pool).value| == (if pool == [] then 0 else n)
  {
    RelevantSameLength(sqrt, cell, data, threshold, n);
    PoolMean(sqrt, cell, data, threshold);
  }

  /** Every weight is a score in (0, 1), so the pool's mean never fails for a
      zero total weight: only a length mismatch can make it throw. */
  lemma {:induction false} PoolMean(sqrt: real -> real, cell: Cell, data: seq<Cell>, threshold: real)
    requires IsSqrt(sqrt)
    ensures var pool := Relevant(sqrt, cell, data, threshold);
      WeightedMean(pool).Err? <==> pool != [] && !SameLength(pool, |pool[0].embedding|)
  {
    TotalWeightPositive(Relevant(sqrt, cell, data, threshold));
  }

  // ---------------------------------------------------------------------------
  // The weighted-average result

  /** A cell with no context above the threshold keeps its own embedding. */
  lemma {:induction false} ContextFallback(sqrt: real -> real, cell: Cell, data: seq<Cell>, threshold: real, mergedWeight: real)
    requires IsSqrt(sqrt)
    requires forall k :: 0 <= k < |data| ==> CellScore(sqrt, cell.indices, data[k].indices) <= threshold
    ensures ContextualEmbedding(sqrt, cell, data, threshold, mergedWeight) == Ok(cell.embedding)
  {
    RelevantEmpty(sqrt, cell, data, threshold);
  }

  /** How the result comes from the pool's mean. */
  lemma {:induction false} ContextFromMean(sqrt: real -> real, cell: Cell, data: seq<Cell>, threshold: real, mergedWeight: real,
                        merged: seq<real>)
    requires IsSqrt(sqrt)
    requires WeightedMean(Relevant(sqrt, cell, data, threshold)) == Ok(merged)
    ensures ContextualEmbedding(sqrt, cell, data, threshold, mergedWeight) ==
      if |merged| > 0 then WeightedMean([Weighted(cell.embedding, 1.0), Weighted(merged, mergedWeight)])
      else Ok(cell.embedding)
  {
  }

  /** With embeddings of one length the pool's mean never throws, and neither does
      the blend when the merged weight is not -1. */
  lemma {:induction false} ContextNoError(sqrt: real -> real, cell: Cell, data: seq<Cell>, threshold: real, mergedWeight: real)
    requires IsSqrt(sqrt)
    requires Uniform(data, |cell.embedding|) && mergedWeight != -1.0
    ensures WeightedMean(Relevant(sqrt, cell, data, threshold)).Ok?
    ensures var pool := Relevant(sqrt, cell, data, threshold);
      pool != [] ==> |WeightedMean(pool).value| == |cell.embedding|
    ensures ContextualEmbedding(sqrt, cell, data, threshold, mergedWeight).Ok?
  {
    var pool := Relevant(sqrt, cell, data, threshold);
    PoolMeanUniform(sqrt, cell, data, threshold, |cell.embedding|);
    var merged := WeightedMean(pool).value;
    ContextFromMean(sqrt, cell, data, threshold, mergedWeight, merged);
    if |merged| > 0 {
      WeightedMeanPair(cell.embedding, 1.0, merged, mergedWeight);
    }
  }

  /** When the pool's mean `merged` has components, each component of the result
      is `(own * 1 + merged * mergedWeight) / (1 + mergedWeight)`. */
  lemma {:induction false} ContextBlend(sqrt: real -> real, cell: Cell, data: seq<Cell>, threshold: real, mergedWeight: real,
                     merged: seq<real>)
    requires IsSqrt(sqrt)
    requires WeightedMean(Relevant(sqrt, cell, data, threshold)) == Ok(merged)
    requires |merged| > 0 && |merged| == |cell.embedding| && mergedWeight != -1.0
    ensures ContextualEmbedding(sqrt, cell, data, threshold, mergedWeight).Ok?
    ensures forall i :: 0 <= i < |merged| ==>
      ContextualEmbedding(sqrt, cell, data, threshold, mergedWeight).value[i] ==
        (cell.embedding[i] * 1.0 + merged[i] * mergedWeight) / (1.0 + mergedWeight)
  {
    ContextFromMean(sqrt, cell, data, threshold, mergedWeight, merged);
    WeightedMeanPair(cell.embedding, 1.0, merged, mergedWeight);
  }

  /** The `list` result is the whole pool, best context first. */
  lemma {:induction false} ContextListIsPool(sqrt: real -> real, cell: Cell, data: seq<Cell>, threshold: real)
    requires IsSqrt(sqrt)
    requires Uniform(data, |cell.embedding|)
    ensures var r := ContextualList(sqrt, cell, data, threshold);
      r.Ok? && |r.value| == |Relevant(sqrt, cell, data, threshold)| &&
      forall k :: 0 <= k < |r.value| ==> r.value[k] in Relevant(sqrt, cell, data, threshold)
  {
    var pool := Relevant(sqrt, cell, data, threshold);
    RelevantSameLength(sqrt, cell, data, threshold, |cell.embedding|);
    PoolMean(sqrt, cell, data, threshold);
    var r := ContextualList(sqrt, cell, data, threshold).value;
    assert |r| == |multiset(r)| == |multiset(pool)| == |pool|;
    forall k | 0 <= k < |r| ensures r[k] in pool {
      assert r[k] in multiset(r);
    }
  }
}
