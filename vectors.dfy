/** Vector and score helpers of utils/openai.js, over the reals. `Math.sqrt` (and so
    `Math.hypot`) is the parameter `sqrt`, about which only IsSqrt is known. */
module Vectors {
  import opened Wrappers
  import opened Records

  /** What the model knows of `Math.sqrt`: a non-negative square root. */
  ghost predicate IsSqrt(sqrt: real -> real)
  {
    forall x: real :: 0.0 <= x ==> 0.0 <= sqrt(x) && sqrt(x) * sqrt(x) == x
  }

  lemma {:induction false} SqrtZero(sqrt: real -> real, x: real)
    requires IsSqrt(sqrt) && 0.0 <= x
    ensures sqrt(x) == 0.0 <==> x == 0.0
  {
    var r := sqrt(x);
    assert r * r == x;
    if x == 0.0 {
      ProductZero(r, r);
    }
  }

  /** One of the factors of a zero product is zero. */
  lemma {:induction false} ProductZero(a: real, b: real)
    requires a * b == 0.0
    ensures a == 0.0 || b == 0.0
  {
    if a != 0.0 {
      assert b == (a * b) / a;
    }
  }

  /** A product of two equal reals is a square: non-negative, and zero only at zero.
      (Stated over two names so that the solver treats the product as one.) */
  lemma {:induction false} EqualProduct(a: real, b: real)
    requires a == b
    ensures a * b >= 0.0
    ensures a != 0.0 ==> a * b > 0.0
    ensures a == 0.0 ==> a * b == 0.0
  {
    if a > 0.0 {
      ProductPositive(a, b);
    } else if a < 0.0 {
      ProductPositive(-a, -b);
      assert (-a) * (-b) == a * b;
    }
  }

  // ---------------------------------------------------------------------------
  // cosineSimilarity

  /** `vecA.reduce((sum, a, i) => sum + a * vecB[i], 0)` */
  function Dot(u: seq<real>, v: seq<real>): real
    requires |u| == |v|
  {
    if u == [] then 0.0 else u[0] * v[0] + Dot(u[1..], v[1..])
  }

  predicate IsZero(u: seq<real>)
  {
    forall i :: 0 <= i < |u| ==> u[i] == 0.0
  }

  function Neg(u: seq<real>): (r: seq<real>)
  {
    seq(|u|, i requires 0 <= i < |u| => -u[i])
  }

  lemma {:induction false} DotSelf(u: seq<real>)
    ensures Dot(u, u) >= 0.0
    ensures Dot(u, u) == 0.0 <==> IsZero(u)
  {
    DotEqual(u, u);
  }

  lemma {:induction false} DotEqual(u: seq<real>, v: seq<real>)
    requires u == v
    ensures Dot(u, v) >= 0.0
    ensures Dot(u, v) == 0.0 <==> IsZero(u)
  {
    if u != [] {
      var t, t' := u[1..], v[1..];
      DotEqual(t, t');
      assert v[0] == u[0];
      EqualProduct(u[0], v[0]);
      assert Dot(u, v) == u[0] * v[0] + Dot(t, t');
      assert IsZero(u) <==> u[0] == 0.0 && IsZero(t) by {
        if u[0] == 0.0 && IsZero(t) {
          forall i | 0 <= i < |u| ensures u[i] == 0.0 {
            if i > 0 { assert u[i] == t[i - 1]; }
          }
        }
        if IsZero(u) {
          forall i | 0 <= i < |t| ensures t[i] == 0.0 {
            assert t[i] == u[i + 1];
          }
        }
      }
    }
  }

  lemma {:induction false} DotSymmetric(u: seq<real>, v: seq<real>)
    requires |u| == |v|
    ensures Dot(u, v) == Dot(v, u)
  {
    if u != [] {
      DotSymmetric(u[1..], v[1..]);
    }
  }

  lemma {:induction false} DotNeg(u: seq<real>, v: seq<real>)
    requires |u| == |v|
    ensures Dot(u, Neg(v)) == -Dot(u, v)
  {
    if u != [] {
      assert Neg(v)[1..] == Neg(v[1..]);
      DotNeg(u[1..], v[1..]);
    }
  }

  /** `Math.sqrt(vec.reduce((sum, a) => sum + a * a, 0))` */
  function Magnitude(sqrt: real -> real, u: seq<real>): real
  {
    sqrt(Dot(u, u))
  }

  /** cosineSimilarity: throws on a length mismatch, 0 when either magnitude is 0. */
  function CosineSimilarity(sqrt: real -> real, vecA: seq<real>, vecB: seq<real>): (r: Result<real>)
    requires IsSqrt(sqrt)
    ensures r.Err? <==> |vecA| != |vecB|
  {
    if |vecA| != |vecB| then Err(LengthMismatch)
    else
      Ok(Quotient(Dot(vecA, vecB), Magnitude(sqrt, vecA), Magnitude(sqrt, vecB)))
  }

  /** The last step of cosineSimilarity: 0 when either magnitude is 0, otherwise
      `dot / (magA * magB)`. */
  function Quotient(dot: real, magA: real, magB: real): real
  {
    if magA == 0.0 || magB == 0.0 then 0.0 else dot / (magA * magB)
  }

  /** A zero vector on either side gives similarity 0, not an error. */
  lemma {:induction false} CosineZero(sqrt: real -> real, u: seq<real>, v: seq<real>)
    requires IsSqrt(sqrt) && |u| == |v|
    requires IsZero(u) || IsZero(v)
    ensures CosineSimilarity(sqrt, u, v) == Ok(0.0)
  {
    DotSelf(u);
    DotSelf(v);
    SqrtZero(sqrt, 0.0);
  }

  /** Only a zero vector makes the magnitude test fire. */
  lemma {:induction false} CosineNonZero(sqrt: real -> real, u: seq<real>, v: seq<real>)
    requires IsSqrt(sqrt) && |u| == |v|
    requires !IsZero(u) && !IsZero(v)
    ensures Magnitude(sqrt, u) > 0.0 && Magnitude(sqrt, v) > 0.0
    ensures CosineSimilarity(sqrt, u, v) ==
      Ok(Dot(u, v) / (Magnitude(sqrt, u) * Magnitude(sqrt, v)))
  {
    MagnitudePositive(sqrt, u);
    MagnitudePositive(sqrt, v);
    QuotientPositive(Dot(u, v), Magnitude(sqrt, u), Magnitude(sqrt, v));
  }

  lemma {:induction false} QuotientPositive(dot: real, magA: real, magB: real)
    requires magA > 0.0 && magB > 0.0
    ensures Quotient(dot, magA, magB) == dot / (magA * magB)
  {
  }

  /** The magnitude is non-negative, and positive exactly for a non-zero vector. */
  lemma {:induction false} MagnitudePositive(sqrt: real -> real, u: seq<real>)
    requires IsSqrt(sqrt)
    ensures Magnitude(sqrt, u) >= 0.0
    ensures Magnitude(sqrt, u) > 0.0 <==> !IsZero(u)
  {
    DotSelf(u);
    SqrtZero(sqrt, Dot(u, u));
  }

  lemma {:induction false} CosineSymmetric(sqrt: real -> real, u: seq<real>, v: seq<real>)
    requires IsSqrt(sqrt)
    ensures CosineSimilarity(sqrt, u, v) == CosineSimilarity(sqrt, v, u)
  {
    if |u| == |v| {
      DotSymmetric(u, v);
      var magA, magB := Magnitude(sqrt, u), Magnitude(sqrt, v);
      assert magA * magB == magB * magA;
    }
  }

  lemma {:induction false} CosineSelf(sqrt: real -> real, v: seq<real>)
    requires IsSqrt(sqrt) && !IsZero(v)
    ensures CosineSimilarity(sqrt, v, v) == Ok(1.0)
  {
    var m := Magnitude(sqrt, v);
    DotSelf(v);
    QuotientOfSquare(Dot(v, v), m, m);
  }

  /** Dividing `d` (or `-d`) by the square of its square root gives 1 (or -1). */
  lemma {:induction false} QuotientOfSquare(d: real, a: real, b: real)
    requires a * b == d && d != 0.0
    ensures Quotient(d, a, b) == 1.0
    ensures Quotient(-d, a, b) == -1.0
  {
    assert a != 0.0 && b != 0.0;
    assert d / (a * b) == 1.0;
    assert -d / (a * b) == -(d / (a * b));
  }

  lemma {:induction false} CosineOpposite(sqrt: real -> real, v: seq<real>)
    requires IsSqrt(sqrt) && !IsZero(v)
    ensures CosineSimilarity(sqrt, v, Neg(v)) == Ok(-1.0)
  {
    var w := Neg(v);
    DotNeg(v, v);
    DotNeg(w, v);
    DotSymmetric(w, v);
    assert Neg(w) == v;
    assert Dot(w, w) == Dot(v, v) by {
      DotNeg(w, w);
      DotSymmetric(w, Neg(w));
    }
    assert !IsZero(w) by {
      var i :| 0 <= i < |v| && v[i] != 0.0;
      assert w[i] == -v[i];
    }
    var d := Dot(v, v);
    var m := Magnitude(sqrt, v);
    assert Magnitude(sqrt, w) == m;
    DotSelf(v);
    assert Dot(v, w) == -d;
    QuotientOfSquare(d, m, m);
  }

  // ---------------------------------------------------------------------------
  // getWeightedEmbedding

  /** `{embedding, weight}` */
  datatype Weighted = Weighted(embedding: seq<real>, weight: real)

  function TotalWeight(items: seq<Weighted>): real
  {
    if items == [] then 0.0 else TotalWeight(items[..|items| - 1]) + items[|items| - 1].weight
  }

  predicate SameLength(items: seq<Weighted>, dim: nat)
  {
    forall k :: 0 <= k < |items| ==> |items[k].embedding| == dim
  }

  /** Component `i` of the weighted sum, `Σ weight_k * embedding_k[i]`. */
  function WeightedSumAt(items: seq<Weighted>, i: nat): real
    requires forall k :: 0 <= k < |items| ==> i < |items[k].embedding|
  {
    if items == [] then 0.0
    else WeightedSumAt(items[..|items| - 1], i) + items[|items| - 1].embedding[i] * items[|items| - 1].weight
  }

  /** What getWeightedEmbedding returns or throws: [] for no items; a length
      mismatch; a total weight of exactly 0 (negative weights pass); otherwise
      `Σ w_k e_k[i] / Σ w_k` for every component `i` of the first item's length. */
  function WeightedMean(items: seq<Weighted>): (r: Result<seq<real>>)
    ensures r.Ok? && items != [] ==> |r.value| == |items[0].embedding|
  {
    if items == [] then Ok([])
    else
      var dim := |items[0].embedding|;
      if !SameLength(items, dim) then Err(EmbeddingLengthMismatch)
      else if TotalWeight(items) == 0.0 then Err(ZeroTotalWeight)
      else Ok(Components(items, dim))
  }

  /** The vector of component means, `sum[i] / totalWeight` for every `i < dim`. */
  function Components(items: seq<Weighted>, dim: nat): (r: seq<real>)
    requires SameLength(items, dim) && TotalWeight(items) != 0.0
  {
    seq(dim, i requires 0 <= i < dim => Divide(WeightedSumAt(items, i), TotalWeight(items)))
  }

  /** The component division `sum[i] / totalWeight`. */
  function Divide(s: real, t: real): real
    requires t != 0.0
  {
    s / t
  }

  /** getWeightedEmbedding: nested loops that accumulate `totalWeight` and add each
      item's weighted components into the `sum` array in place. */
  method GetWeightedEmbedding(items: seq<Weighted>) returns (r: Result<seq<real>>)
    ensures r == WeightedMean(items)
  {
    if |items| == 0 {
      return Ok([]);
    }
    var dim := |items[0].embedding|;
    var sum := new real[dim](_ => 0.0);
    var totalWeight := 0.0;
    for k := 0 to |items|
      invariant SameLength(items[..k], dim)
      invariant totalWeight == TotalWeight(items[..k])
      invariant forall i :: 0 <= i < dim ==> sum[i] == WeightedSumAt(items[..k], i)
    {
      var item := items[k];
      if |item.embedding| != dim {
        assert !SameLength(items, dim);
        return Err(EmbeddingLengthMismatch);
      }
      assert items[..k + 1][..k] == items[..k];
      totalWeight := totalWeight + item.weight;
      ghost var before := sum[..];
      AddWeighted(sum, item);
      forall j | 0 <= j < dim ensures sum[j] == WeightedSumAt(items[..k + 1], j) {
        SumStep(items, k, j, dim);
        assert before[j] == WeightedSumAt(items[..k], j);
      }
    }
    assert items[..|items|] == items;
    if totalWeight == 0.0 {
      return Err(ZeroTotalWeight);
    }
    var out := sum[..];
    r := Ok(seq(dim, i requires 0 <= i < dim => Divide(out[i], totalWeight)));
    assert r.value == WeightedMean(items).value;
  }

  /** The inner loop of getWeightedEmbedding: `sum[i] += embedding[i] * weight` for
      every component. */
  method AddWeighted(sum: array<real>, item: Weighted)
    requires |item.embedding| == sum.Length
    modifies sum
    ensures forall j :: 0 <= j < sum.Length ==> sum[j] == old(sum[j]) + item.embedding[j] * item.weight
  {
    for i := 0 to sum.Length
      invariant forall j :: 0 <= j < i ==> sum[j] == old(sum[j]) + item.embedding[j] * item.weight
      invariant forall j :: i <= j < sum.Length ==> sum[j] == old(sum[j])
    {
      sum[i] := sum[i] + item.embedding[i] * item.weight;
    }
  }

  /** Adding item `k` to the prefix adds its weighted component to every sum. */
  lemma {:induction false} SumStep(items: seq<Weighted>, k: nat, i: nat, dim: nat)
    requires k < |items| && SameLength(items[..k + 1], dim) && i < dim
    ensures WeightedSumAt(items[..k + 1], i) == WeightedSumAt(items[..k], i) + items[k].embedding[i] * items[k].weight
  {
    var next := items[..k + 1];
    assert next[..k] == items[..k] && next[k] == items[k];
  }

  lemma {:induction false} WeightedSumConstant(items: seq<Weighted>, v: seq<real>, i: nat)
    requires i < |v| && forall k :: 0 <= k < |items| ==> items[k].embedding == v
    ensures WeightedSumAt(items, i) == v[i] * TotalWeight(items)
  {
    if items != [] {
      WeightedSumConstant(items[..|items| - 1], v, i);
    }
  }

  lemma {:induction false} DivCancel(s: real, a: real, t: real)
    requires s == a * t && t != 0.0
    ensures Divide(s, t) == a
  {
  }

  /** Averaging copies of one vector gives that vector back, whatever the
      (non-zero in total) weights. */
  lemma {:induction false} WeightedMeanConstant(items: seq<Weighted>, v: seq<real>)
    requires items != [] && forall k :: 0 <= k < |items| ==> items[k].embedding == v
    requires TotalWeight(items) != 0.0
    ensures WeightedMean(items) == Ok(v)
  {
    assert SameLength(items, |v|);
    var m := Components(items, |v|);
    forall i | 0 <= i < |v| ensures m[i] == v[i] {
      MeanConstantAt(items, v, i);
    }
    assert m == v;
  }

  lemma {:induction false} MeanConstantAt(items: seq<Weighted>, v: seq<real>, i: nat)
    requires i < |v| && forall k :: 0 <= k < |items| ==> items[k].embedding == v
    requires TotalWeight(items) != 0.0
    ensures Divide(WeightedSumAt(items, i), TotalWeight(items)) == v[i]
  {
    WeightedSumConstant(items, v, i);
    DivCancel(WeightedSumAt(items, i), v[i], TotalWeight(items));
  }

  /** The identity case: one item with a non-zero weight is returned unchanged. */
  lemma {:induction false} WeightedMeanSingle(v: seq<real>, w: real)
    requires w != 0.0
    ensures WeightedMean([Weighted(v, w)]) == Ok(v)
  {
    WeightedMeanConstant([Weighted(v, w)], v);
  }

  /** Two vectors of one length, blended with weights of non-zero sum. */
  lemma {:induction false} WeightedMeanPair(u: seq<real>, wu: real, v: seq<real>, wv: real)
    requires |u| == |v| && wu + wv != 0.0
    ensures WeightedMean([Weighted(u, wu), Weighted(v, wv)]).Ok?
    ensures var r := WeightedMean([Weighted(u, wu), Weighted(v, wv)]).value;
      |r| == |u| && forall i :: 0 <= i < |u| ==> r[i] == (u[i] * wu + v[i] * wv) / (wu + wv)
  {
    var items := [Weighted(u, wu), Weighted(v, wv)];
    assert items[..1] == [Weighted(u, wu)];
    assert items[..1][..0] == [];
    assert TotalWeight(items[..1]) == wu;
    assert TotalWeight(items) == wu + wv;
    forall i | 0 <= i < |u|
      ensures WeightedSumAt(items, i) == u[i] * wu + v[i] * wv
    {
      assert WeightedSumAt(items[..1], i) == u[i] * wu;
    }
  }

  lemma {:induction false} TotalWeightPositive(items: seq<Weighted>)
    requires forall k :: 0 <= k < |items| ==> items[k].weight > 0.0
    ensures items != [] ==> TotalWeight(items) > 0.0
    ensures TotalWeight(items) >= 0.0
  {
    if items != [] {
      TotalWeightPositive(items[..|items| - 1]);
    }
  }

  // ---------------------------------------------------------------------------
  // getCellScore

  /** `2 ** e` */
  function Pow2(e: int): (r: real)
    ensures r > 0.0
    decreases if e >= 0 then e else -e
  {
    if e == 0 then 1.0 else if e > 0 then 2.0 * Pow2(e - 1) else Pow2(e + 1) / 2.0
  }

  /** One axis's part of the exponent: +2 when the coordinates are equal, +2 when
      B's is smaller, -4 when B's is larger. */
  function AxisExponent(a: nat, b: nat): int
  {
    if a == b then 2 else if b < a then 2 else -4
  }

  function Exponent(a: Coord, b: Coord): int
  {
    AxisExponent(a.row, b.row) + AxisExponent(a.col, b.col)
  }

  /** `Math.hypot(ax - bx, ay - by)` */
  function Distance(sqrt: real -> real, a: Coord, b: Coord): real
  {
    var dx, dy := a.row - b.row, a.col - b.col;
    sqrt((dx * dx + dy * dy) as real)
  }

  lemma {:induction false} DistanceNonNegative(sqrt: real -> real, a: Coord, b: Coord)
    requires IsSqrt(sqrt)
    ensures Distance(sqrt, a, b) >= 0.0
  {
    var dx, dy := a.row - b.row, a.col - b.col;
    assert dx * dx + dy * dy >= 0;
  }

  /** `1 / (1 + distance)` */
  function Base(distance: real): (r: real)
    requires distance >= 0.0
    ensures 0.0 < r <= 1.0
  {
    1.0 / (1.0 + distance)
  }

  /** `raw / (1 + raw)` */
  function Normalize(raw: real): (r: real)
    requires raw > 0.0
    ensures 0.0 < r < 1.0
  {
    raw / (1.0 + raw)
  }

  lemma {:induction false} ProductPositive(x: real, y: real)
    requires x > 0.0 && y > 0.0
    ensures x * y > 0.0
  {
  }

  /** How much a cell at `b` counts as context for a cell at `a` (not symmetric). */
  function CellScore(sqrt: real -> real, a: Coord, b: Coord): (s: real)
    requires IsSqrt(sqrt)
    ensures 0.0 < s < 1.0
  {
    DistanceNonNegative(sqrt, a, b);
    var base, multiplier := Base(Distance(sqrt, a, b)), Pow2(Exponent(a, b));
    ProductPositive(base, multiplier);
    Normalize(base * multiplier)
  }

  /** getCellScore: the share and relevance scores built up step by step. */
  method GetCellScore(sqrt: real -> real, A: Coord, B: Coord) returns (normalized: real)
    requires IsSqrt(sqrt)
    ensures normalized == CellScore(sqrt, A, B)
  {
    var ar: int, ac: int := A.row, A.col;
    var br: int, bc: int := B.row, B.col;
    var distance := Distance(sqrt, A, B);
    DistanceNonNegative(sqrt, A, B);
    var baseScore := 1.0 / (1.0 + distance);
    assert baseScore == Base(distance);

    var shareScore := 0;
    if ar == br { shareScore := shareScore + 2; }
    if ac == bc { shareScore := shareScore + 2; }
    assert shareScore == (if ar == br then 2 else 0) + (if ac == bc then 2 else 0);

    var relevanceScore := 0;
    if br < ar { relevanceScore := relevanceScore + 2; }
    if bc < ac { relevanceScore := relevanceScore + 2; }
    if br > ar { relevanceScore := relevanceScore - 4; }
    if bc > ac { relevanceScore := relevanceScore - 4; }
    assert relevanceScore == (if br < ar then 2 else if br > ar then -4 else 0) +
                             (if bc < ac then 2 else if bc > ac then -4 else 0);

    ExponentParts(A, B);
    var multiplier := Pow2(shareScore + relevanceScore);
    var rawScore := baseScore * multiplier;
    ProductPositive(baseScore, multiplier);
    normalized := rawScore / (1.0 + rawScore);
    assert normalized == Normalize(rawScore);
  }

  /** The exponent as the sum of the share and relevance scores. */
  lemma {:induction false} ExponentParts(a: Coord, b: Coord)
    ensures Exponent(a, b) ==
      (if a.row == b.row then 2 else 0) + (if a.col == b.col then 2 else 0) +
      (if b.row < a.row then 2 else if b.row > a.row then -4 else 0) +
      (if b.col < a.col then 2 else if b.col > a.col then -4 else 0)
  {
  }

  lemma {:induction false} ExponentCases(a: Coord, b: Coord)
    ensures Exponent(a, b) in {4, -2, -8}
    ensures Exponent(a, b) == 4 <==> b.row <= a.row && b.col <= a.col
  {
  }

  lemma {:induction false} Pow2Values()
    ensures Pow2(4) == 16.0 && Pow2(-2) == 0.25 && Pow2(-8) == 1.0 / 256.0
  {
    assert Pow2(2) == 4.0 by { assert Pow2(1) == 2.0; }
    assert Pow2(4) == 16.0 by { assert Pow2(3) == 8.0; }
    assert Pow2(-2) == 0.25 by { assert Pow2(-1) == 0.5; }
    assert Pow2(-4) == 0.0625 by { assert Pow2(-3) == 0.125; }
    assert Pow2(-6) == 1.0 / 64.0 by { assert Pow2(-5) == 1.0 / 32.0; }
    assert Pow2(-8) == 1.0 / 256.0 by { assert Pow2(-7) == 1.0 / 128.0; }
  }

  /** A cell scores itself 16/17: distance 0, base 1, multiplier 2^4. */
  lemma {:induction false} SelfScore(sqrt: real -> real, a: Coord)
    requires IsSqrt(sqrt)
    ensures CellScore(sqrt, a, a) == 16.0 / 17.0
  {
    assert Distance(sqrt, a, a) == sqrt(0.0);
    SqrtZero(sqrt, 0.0);
    Pow2Values();
  }

  /** Only cells weakly above and weakly left of the anchor score more than 1/5: every
      other direction has exponent -2 or -8, so raw <= 1/4. */
  lemma {:induction false} ScoreAboveLeft(sqrt: real -> real, a: Coord, b: Coord)
    requires IsSqrt(sqrt)
    ensures CellScore(sqrt, a, b) > 0.2 ==> b.row <= a.row && b.col <= a.col
  {
    ExponentCases(a, b);
    Pow2Values();
    var d := Distance(sqrt, a, b);
    var dx, dy := a.row - b.row, a.col - b.col;
    assert dx * dx + dy * dy >= 0;
    var base := 1.0 / (1.0 + d);
    assert 0.0 < base <= 1.0;
  }

  /** The score is asymmetric: B right of A counts little for A, A left of B much for B. */
  lemma {:induction false} ScoreAsymmetric(sqrt: real -> real)
    requires IsSqrt(sqrt)
    ensures CellScore(sqrt, Coord(0, 0), Coord(0, 1)) == 1.0 / 9.0
    ensures CellScore(sqrt, Coord(0, 1), Coord(0, 0)) == 8.0 / 9.0
  {
    Pow2Values();
    assert sqrt(1.0) == 1.0 by {
      var r := sqrt(1.0);
      assert r * r == 1.0 && r >= 0.0;
      assert (r - 1.0) * (r + 1.0) == r * r - 1.0;
      ProductZero(r - 1.0, r + 1.0);
    }
    assert Distance(sqrt, Coord(0, 0), Coord(0, 1)) == 1.0;
    assert Distance(sqrt, Coord(0, 1), Coord(0, 0)) == 1.0;
  }

  // ---------------------------------------------------------------------------
  // arraysEqual and mergeCoords

  /** arraysEqual: `None` stands for a value that is not an array; elements are
      compared with `===`. */
  function ArraysEqual<T(==)>(A: Option<seq<T>>, B: Option<seq<T>>): (r: bool)
    ensures r <==> A.Some? && B.Some? && A.value == B.value
  {
    if A.None? || B.None? then false
    else if |A.value| != |B.value| then false
    else forall i :: 0 <= i < |A.value| ==> A.value[i] == B.value[i]
  }

  /** mergeCoords: the first component of A with the second of B. */
  function MergeCoords(A: Coord, B: Coord): (r: Coord)
  {
    Coord(A.row, B.col)
  }

  /** mergeCoords picks the corner of the rectangle spanned by A and B that shares
      A's first and B's second component: merging a point with itself changes
      nothing, and the middle argument of a chain of merges does not matter. */
  lemma {:induction false} MergeCoordsLaws(A: Coord, B: Coord, C: Coord)
    ensures MergeCoords(A, A) == A
    ensures MergeCoords(MergeCoords(A, B), C) == MergeCoords(A, C)
    ensures MergeCoords(A, MergeCoords(B, C)) == MergeCoords(A, C)
  {
  }
}
