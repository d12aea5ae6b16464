/** The success score (app.py, "Success Score berechnen"). In normalized mode each count
    column is divided by its maximum, guarded against a maximum that is not positive, and the
    score is 100 times the weighted average of the five ratios. In raw mode the counts are
    multiplied by fixed scale constants and weighted directly. Scores are exact reals. */
module Scoring {
  import opened Records
  import opened RealArith

  /** The five slider weights. */
  datatype Weights = Weights(likes: real, shares: real, bookmarks: real, comments: real, views: real)

  datatype Column = Likes | Shares | Bookmarks | Comments | Views

  function Count(v: Video, c: Column): (n: int) {
    match c
    case Likes => v.likes
    case Shares => v.shares
    case Bookmarks => v.bookmarks
    case Comments => v.comments
    case Views => v.views
  }

  function WeightOf(w: Weights, c: Column): (x: real) {
    match c
    case Likes => w.likes
    case Shares => w.shares
    case Bookmarks => w.bookmarks
    case Comments => w.comments
    case Views => w.views
  }

  /** The divisor of both formulas. */
  function WeightSum(w: Weights): (total: real) {
    w.likes + w.shares + w.bookmarks + w.comments + w.views
  }

  predicate NonNegativeWeights(w: Weights) {
    w.likes >= 0.0 && w.shares >= 0.0 && w.bookmarks >= 0.0 && w.comments >= 0.0 && w.views >= 0.0
  }

  /** The ranges the sidebar sliders allow: 0.1 to 5.0, and 0.0 to 5.0 for views. */
  predicate SliderWeights(w: Weights) {
    && 0.1 <= w.likes <= 5.0 && 0.1 <= w.shares <= 5.0 && 0.1 <= w.bookmarks <= 5.0
    && 0.1 <= w.comments <= 5.0 && 0.0 <= w.views <= 5.0
  }

  /** Slider weights never divide by zero: their sum is at least 0.4. */
  lemma SliderWeightsArePositive(w: Weights)
    requires SliderWeights(w)
    ensures NonNegativeWeights(w) && 0.4 <= WeightSum(w) <= 25.0
  {
  }

  /** `df[col].max()` over a non-empty table. */
  function ColumnMax(vs: seq<Video>, c: Column): (mx: int)
    requires |vs| > 0
    ensures forall i :: 0 <= i < |vs| ==> Count(vs[i], c) <= mx
    ensures exists i :: 0 <= i < |vs| && Count(vs[i], c) == mx
  {
    if |vs| == 1 then Count(vs[0], c)
    else
      var rest := ColumnMax(vs[1..], c);
      assert forall i :: 1 <= i < |vs| ==> vs[i] == vs[1..][i - 1];
      if Count(vs[0], c) >= rest then Count(vs[0], c) else rest
  }

  /** The normalized value of record `i` in column `m`: `value / max` if `max > 0`, else 0. */
  function Norm(vs: seq<Video>, c: Column, i: nat): (n: real)
    requires i < |vs|
    ensures ColumnMax(vs, c) <= 0 ==> n == 0.0
    ensures n <= 1.0
    ensures ColumnMax(vs, c) > 0 ==> (n == 1.0 <==> Count(vs[i], c) == ColumnMax(vs, c))
    ensures ColumnMax(vs, c) > 0 ==> (n >= 0.0 <==> Count(vs[i], c) >= 0)
  {
    var mx := ColumnMax(vs, c);
    var x := Count(vs[i], c);
    if mx > 0 then
      RatioOfMaximum(x as real, mx as real);
      x as real / mx as real
    else 0.0
  }

  /** The five columns, in the order the formulas list them. */
  const AllColumns: seq<Column> := [Likes, Shares, Bookmarks, Comments, Views]

  /** The position of a column in `AllColumns`. */
  function ColumnIndex(c: Column): (k: nat)
    ensures k < |AllColumns| && AllColumns[k] == c
  {
    match c
    case Likes => 0
    case Shares => 1
    case Bookmarks => 2
    case Comments => 3
    case Views => 4
  }

  /** The normalized values of record `i`, in the order of `AllColumns`. */
  function NormVector(vs: seq<Video>, i: nat): (n: seq<real>)
    requires i < |vs|
    ensures |n| == |AllColumns|
  {
    seq(|AllColumns|, k requires 0 <= k < |AllColumns| => Norm(vs, AllColumns[k], i))
  }

  /** The slider weights, in the order of `AllColumns`. */
  function WeightVector(w: Weights): (ws: seq<real>)
    ensures |ws| == |AllColumns|
  {
    seq(|AllColumns|, k requires 0 <= k < |AllColumns| => WeightOf(w, AllColumns[k]))
  }

  /** Normalized-mode score of record `i`: 100 times the weighted average of its norms. */
  function NormalizedScore(vs: seq<Video>, w: Weights, i: nat): (score: real)
    requires i < |vs|
    requires WeightSum(w) != 0.0
    ensures score * WeightSum(w) == 100.0 * Sum(Products(NormVector(vs, i), WeightVector(w)))
  {
    Sum(Products(NormVector(vs, i), WeightVector(w))) * 100.0 / WeightSum(w)
  }

  /** The fixed scale constants of raw mode. */
  function Scale(c: Column): (k: real)
    ensures k > 0.0
  {
    match c
    case Likes => 1.0
    case Shares => 100.0
    case Bookmarks => 10.0
    case Comments => 10.0
    case Views => 0.01
  }

  /** The counts of one record, in the order of `AllColumns`. */
  function CountVector(v: Video): (xs: seq<real>)
    ensures |xs| == |AllColumns|
  {
    seq(|AllColumns|, k requires 0 <= k < |AllColumns| => Count(v, AllColumns[k]) as real)
  }

  /** Each weight times the scale constant of its column. */
  function ScaledWeights(w: Weights): (ws: seq<real>)
    ensures |ws| == |AllColumns|
  {
    seq(|AllColumns|, k requires 0 <= k < |AllColumns| => WeightOf(w, AllColumns[k]) * Scale(AllColumns[k]))
  }

  /** Raw-mode score of one record. */
  function RawScore(v: Video, w: Weights): (score: real)
    requires WeightSum(w) != 0.0
    ensures score * WeightSum(w) == Sum(Products(CountVector(v), ScaledWeights(w)))
  {
    Sum(Products(CountVector(v), ScaledWeights(w))) / WeightSum(w)
  }

  /** One row of the scored table. */
  datatype Scored = Scored(video: Video, score: real)

  /** The `success_score` column for the whole table, in either mode. */
  function ScoreTable(vs: seq<Video>, w: Weights, normalize: bool): (r: seq<Scored>)
    requires WeightSum(w) != 0.0
    ensures |r| == |vs|
    ensures forall i :: 0 <= i < |vs| ==> r[i].video == vs[i]
    ensures forall i :: 0 <= i < |vs| ==>
      r[i].score == if normalize then NormalizedScore(vs, w, i) else RawScore(vs[i], w)
  {
    seq(|vs|, i requires 0 <= i < |vs| =>
      Scored(vs[i], if normalize then NormalizedScore(vs, w, i) else RawScore(vs[i], w)))
  }

  // ---------------------------------------------------------------------------------------
  // The formulas written out

  lemma WeightVectorListed(w: Weights)
    ensures WeightVector(w) == [w.likes, w.shares, w.bookmarks, w.comments, w.views]
  {
  }

  lemma NormVectorListed(vs: seq<Video>, i: nat)
    requires i < |vs|
    ensures NormVector(vs, i) ==
      [Norm(vs, Likes, i), Norm(vs, Shares, i), Norm(vs, Bookmarks, i), Norm(vs, Comments, i), Norm(vs, Views, i)]
  {
  }

  lemma WeightVectorSum(w: Weights)
    ensures Sum(WeightVector(w)) == WeightSum(w)
  {
    WeightVectorListed(w);
    SumOfFive(w.likes, w.shares, w.bookmarks, w.comments, w.views);
  }

  /** The normalized score is the formula of the source: with `l, s, b, c, e` the norms of
      likes, shares, bookmarks, comments and views (`NormVectorListed`), it is their weighted
      sum times 100, divided by the weight sum. */
  lemma NormalizedScoreFormula(vs: seq<Video>, w: Weights, i: nat, l: real, s: real, b: real, c: real, e: real)
    requires i < |vs| && WeightSum(w) != 0.0
    requires NormVector(vs, i) == [l, s, b, c, e]
    ensures NormalizedScore(vs, w, i) ==
      (l * w.likes + s * w.shares + b * w.bookmarks + c * w.comments + e * w.views) * 100.0 / WeightSum(w)
  {
    WeightVectorListed(w);
    WeightedOfFive(l, s, b, c, e, w.likes, w.shares, w.bookmarks, w.comments, w.views);
  }

  /** The raw score is the formula of the source: shares scaled by 100, bookmarks and comments
      by 10, views by 0.01, likes unscaled, all divided by the weight sum. */
  lemma RawScoreFormula(v: Video, w: Weights)
    requires WeightSum(w) != 0.0
    ensures RawScore(v, w) ==
      (v.likes as real * w.likes + v.shares as real * w.shares * 100.0 +
       v.bookmarks as real * w.bookmarks * 10.0 + v.comments as real * w.comments * 10.0 +
       v.views as real * w.views * 0.01) / WeightSum(w)
  {
    RawNumerator(v.likes as real, v.shares as real, v.bookmarks as real, v.comments as real, v.views as real,
                 w.likes, w.shares, w.bookmarks, w.comments, w.views);
    assert CountVector(v) == [v.likes as real, v.shares as real, v.bookmarks as real, v.comments as real, v.views as real];
    assert ScaledWeights(w) ==
      [w.likes * 1.0, w.shares * 100.0, w.bookmarks * 10.0, w.comments * 10.0, w.views * 0.01];
  }

  /** The raw numerator over the scaled weights, regrouped as the source writes it. */
  lemma RawNumerator(l: real, s: real, b: real, c: real, e: real,
                     wl: real, ws: real, wb: real, wc: real, we: real)
    ensures Sum(Products([l, s, b, c, e], [wl * 1.0, ws * 100.0, wb * 10.0, wc * 10.0, we * 0.01])) ==
      l * wl + s * ws * 100.0 + b * wb * 10.0 + c * wc * 10.0 + e * we * 0.01
  {
    WeightedOfFive(l, s, b, c, e, wl * 1.0, ws * 100.0, wb * 10.0, wc * 10.0, we * 0.01);
    assert s * (ws * 100.0) == s * ws * 100.0;
    assert b * (wb * 10.0) == b * wb * 10.0;
    assert c * (wc * 10.0) == c * wc * 10.0;
    assert e * (we * 0.01) == e * we * 0.01;
  }

  // ---------------------------------------------------------------------------------------
  // The division guard

  /** A column whose maximum is not positive normalizes to 0 everywhere. */
  lemma NormGuard(vs: seq<Video>, c: Column)
    requires |vs| > 0 && ColumnMax(vs, c) <= 0
    ensures forall i :: 0 <= i < |vs| ==> Norm(vs, c, i) == 0.0
  {
  }

  /** A column of zeros contributes nothing: no division takes place. */
  lemma ZeroColumn(vs: seq<Video>, c: Column)
    requires forall i :: 0 <= i < |vs| ==> Count(vs[i], c) == 0
    ensures forall i :: 0 <= i < |vs| ==> Norm(vs, c, i) == 0.0
  {
  }

  /** With non-negative counts every normalized value lies in [0, 1]. */
  lemma NormInUnitInterval(vs: seq<Video>, c: Column, i: nat)
    requires i < |vs|
    requires forall j :: 0 <= j < |vs| ==> Count(vs[j], c) >= 0
    ensures 0.0 <= Norm(vs, c, i) <= 1.0
  {
    var mx := ColumnMax(vs, c);
    if mx > 0 {
      QuotientUnit(Count(vs[i], c) as real, mx as real);
    }
  }

  /** A normalized value is exactly 1 precisely for a record holding a positive maximum. */
  lemma NormOneIff(vs: seq<Video>, c: Column, i: nat)
    requires i < |vs|
    ensures Norm(vs, c, i) == 1.0 <==> ColumnMax(vs, c) > 0 && Count(vs[i], c) == ColumnMax(vs, c)
  {
    var mx := ColumnMax(vs, c);
    if mx > 0 {
      QuotientOne(Count(vs[i], c) as real, mx as real);
    }
  }

  /** Normalization keeps the order of a column with a positive maximum. */
  lemma NormMonotone(vs: seq<Video>, c: Column, i: nat, j: nat)
    requires i < |vs| && j < |vs| && ColumnMax(vs, c) > 0
    ensures Norm(vs, c, i) <= Norm(vs, c, j) <==> Count(vs[i], c) <= Count(vs[j], c)
  {
    QuotientMonotone(Count(vs[i], c) as real, Count(vs[j], c) as real, ColumnMax(vs, c) as real);
  }

  // ---------------------------------------------------------------------------------------
  // Bounds of the normalized score

  predicate NonNegativeTable(vs: seq<Video>) {
    forall i :: 0 <= i < |vs| ==> NonNegativeCounts(vs[i])
  }

  lemma NormVectorInUnitInterval(vs: seq<Video>, i: nat)
    requires i < |vs| && NonNegativeTable(vs)
    ensures InUnitInterval(NormVector(vs, i))
  {
    forall k | 0 <= k < |AllColumns| ensures 0.0 <= NormVector(vs, i)[k] <= 1.0 {
      var c := AllColumns[k];
      forall j | 0 <= j < |vs| ensures Count(vs[j], c) >= 0 {
        assert NonNegativeCounts(vs[j]);
      }
      NormInUnitInterval(vs, c, i);
    }
  }

  lemma WeightVectorNonNegative(w: Weights)
    requires NonNegativeWeights(w)
    ensures NonNegative(WeightVector(w))
  {
  }

  /** The normalized score is at most 100 under non-negative weights with a positive sum,
      whatever the sign of the counts: no norm exceeds 1. */
  lemma NormalizedScoreAtMost100(vs: seq<Video>, w: Weights, i: nat)
    requires i < |vs|
    requires NonNegativeWeights(w) && WeightSum(w) > 0.0
    ensures NormalizedScore(vs, w, i) <= 100.0
  {
    var n := NormVector(vs, i);
    forall k | 0 <= k < |AllColumns| ensures n[k] <= 1.0 {
    }
    WeightVectorNonNegative(w);
    WeightedAtMostWeightSum(n, WeightVector(w));
    WeightVectorSum(w);
    PercentAtMost(Sum(Products(n, WeightVector(w))), WeightSum(w));
  }

  /** The normalized score is at least 0 when, in addition, no count is negative. */
  lemma NormalizedScoreNonNegative(vs: seq<Video>, w: Weights, i: nat)
    requires i < |vs| && NonNegativeTable(vs)
    requires NonNegativeWeights(w) && WeightSum(w) > 0.0
    ensures 0.0 <= NormalizedScore(vs, w, i)
  {
    NormVectorInUnitInterval(vs, i);
    WeightVectorNonNegative(w);
    WeightedBounds(NormVector(vs, i), WeightVector(w));
    WeightVectorSum(w);
    PercentBounds(Sum(Products(NormVector(vs, i), WeightVector(w))), WeightSum(w));
  }

  /** The sign condition is needed: a native negative count, which the coercion keeps,
      scores below 0. With likes 10 and -5 and only likes weighted, the second row scores -50. */
  lemma NegativeCountScoresBelowZero(a: Video, b: Video)
    requires a.likes == 10 && b.likes == -5
    ensures var w := Weights(1.0, 0.0, 0.0, 0.0, 0.0);
      NormalizedScore([a, b], w, 1) == -50.0 < 0.0
  {
    var w := Weights(1.0, 0.0, 0.0, 0.0, 0.0);
    assert ColumnMax([a, b], Likes) == 10;
    ExampleRow([a, b], w, 1, -0.5);
  }

  /** Record `i` holds the positive maximum of every column with a positive weight. */
  predicate TopInEveryWeightedColumn(vs: seq<Video>, w: Weights, i: nat)
    requires i < |vs|
  {
    forall c: Column :: WeightOf(w, c) > 0.0 ==> ColumnMax(vs, c) > 0 && Count(vs[i], c) == ColumnMax(vs, c)
  }

  /** A score of exactly 100 is reached precisely by a record that holds the positive
      maximum of every column with a positive weight. */
  lemma PerfectScoreIff(vs: seq<Video>, w: Weights, i: nat)
    requires i < |vs|
    requires NonNegativeWeights(w) && WeightSum(w) > 0.0
    ensures NormalizedScore(vs, w, i) == 100.0 <==> TopInEveryWeightedColumn(vs, w, i)
  {
    var n, ws := NormVector(vs, i), WeightVector(w);
    forall k | 0 <= k < |AllColumns| ensures n[k] <= 1.0 {
    }
    WeightVectorNonNegative(w);
    WeightedAtMostWeightSum(n, ws);
    WeightVectorSum(w);
    PercentAtMost(Sum(Products(n, ws)), WeightSum(w));
    OneWherePositiveIsTop(vs, w, i);
  }

  /** `OneWherePositive` on the norm and weight vectors, read column by column. */
  lemma OneWherePositiveIsTop(vs: seq<Video>, w: Weights, i: nat)
    requires i < |vs|
    ensures OneWherePositive(NormVector(vs, i), WeightVector(w)) <==> TopInEveryWeightedColumn(vs, w, i)
  {
    var n, ws := NormVector(vs, i), WeightVector(w);
    forall c: Column ensures n[ColumnIndex(c)] == Norm(vs, c, i) && ws[ColumnIndex(c)] == WeightOf(w, c) {
    }
    forall k | 0 <= k < |AllColumns| ensures n[k] == 1.0 <==>
      ColumnMax(vs, AllColumns[k]) > 0 && Count(vs[i], AllColumns[k]) == ColumnMax(vs, AllColumns[k])
    {
      NormOneIff(vs, AllColumns[k], i);
    }
  }

  /** Every row of a normalized table scores within [0, 100]. */
  lemma NormalizedTableBounds(vs: seq<Video>, w: Weights)
    requires NonNegativeTable(vs) && NonNegativeWeights(w) && WeightSum(w) > 0.0
    ensures forall r :: r in ScoreTable(vs, w, true) ==> 0.0 <= r.score <= 100.0
  {
    var t := ScoreTable(vs, w, true);
    forall r | r in t ensures 0.0 <= r.score <= 100.0 {
      var i :| 0 <= i < |t| && t[i] == r;
      NormalizedScoreAtMost100(vs, w, i);
      NormalizedScoreNonNegative(vs, w, i);
    }
  }

  /** A record at least as large as another in every column scores at least as high in
      normalized mode. */
  lemma NormalizedScoreMonotone(vs: seq<Video>, w: Weights, i: nat, j: nat)
    requires i < |vs| && j < |vs|
    requires NonNegativeWeights(w) && WeightSum(w) > 0.0
    requires forall c: Column :: Count(vs[i], c) <= Count(vs[j], c)
    ensures NormalizedScore(vs, w, i) <= NormalizedScore(vs, w, j)
  {
    var ni, nj := NormVector(vs, i), NormVector(vs, j);
    forall k | 0 <= k < |AllColumns| ensures ni[k] <= nj[k] {
      var c := AllColumns[k];
      if ColumnMax(vs, c) > 0 {
        NormMonotone(vs, c, i, j);
      }
    }
    WeightVectorNonNegative(w);
    WeightedMonotone(ni, nj, WeightVector(w));
    var a, b := Sum(Products(ni, WeightVector(w))), Sum(Products(nj, WeightVector(w)));
    ProductMonotone(a, b, 100.0);
    QuotientMonotone(a * 100.0, b * 100.0, WeightSum(w));
  }

  /** The example of two records with 100 and 50 likes and only likes weighted. */
  lemma ExampleTwoRecords(a: Video, b: Video)
    requires a.likes == 100 && b.likes == 50
    ensures var w := Weights(1.0, 0.0, 0.0, 0.0, 0.0);
      Norm([a, b], Likes, 0) == 1.0 && Norm([a, b], Likes, 1) == 0.5
      && NormalizedScore([a, b], w, 0) == 100.0 && NormalizedScore([a, b], w, 1) == 50.0
  {
    var w := Weights(1.0, 0.0, 0.0, 0.0, 0.0);
    assert ColumnMax([a, b], Likes) == 100;
    ExampleRow([a, b], w, 0, 1.0);
    ExampleRow([a, b], w, 1, 0.5);
  }

  lemma ExampleRow(vs: seq<Video>, w: Weights, i: nat, l: real)
    requires i < |vs| && w == Weights(1.0, 0.0, 0.0, 0.0, 0.0) && Norm(vs, Likes, i) == l
    ensures NormalizedScore(vs, w, i) == l * 100.0
  {
    var n := NormVector(vs, i);
    NormVectorListed(vs, i);
    WeightVectorListed(w);
    LikesOnly(l, n[1], n[2], n[3], n[4]);
    assert Sum(Products(n, WeightVector(w))) == l;
  }

  /** With only the first weight set to 1, the weighted sum is the first value. */
  lemma LikesOnly(l: real, s: real, b: real, c: real, e: real)
    ensures Sum(Products([l, s, b, c, e], [1.0, 0.0, 0.0, 0.0, 0.0])) == l
  {
    WeightedOfFive(l, s, b, c, e, 1.0, 0.0, 0.0, 0.0, 0.0);
  }

  // ---------------------------------------------------------------------------------------
  // Raw mode

  lemma ScaledWeightsNonNegative(w: Weights)
    requires NonNegativeWeights(w)
    ensures NonNegative(ScaledWeights(w))
  {
    forall k | 0 <= k < |AllColumns| ensures ScaledWeights(w)[k] >= 0.0 {
      ProductMonotone(0.0, WeightOf(w, AllColumns[k]), Scale(AllColumns[k]));
    }
  }

  /** A record with no engagement at all scores 0 in raw mode. */
  lemma RawScoreOfZero(v: Video, w: Weights)
    requires WeightSum(w) != 0.0
    requires forall c: Column :: Count(v, c) == 0
    ensures RawScore(v, w) == 0.0
  {
    WeightedOfZeros(CountVector(v), ScaledWeights(w));
  }

  /** Raw mode is non-decreasing in every count when the weights are non-negative. */
  lemma RawScoreMonotone(a: Video, b: Video, w: Weights)
    requires NonNegativeWeights(w) && WeightSum(w) > 0.0
    requires forall c: Column :: Count(a, c) <= Count(b, c)
    ensures RawScore(a, w) <= RawScore(b, w)
  {
    ScaledWeightsNonNegative(w);
    WeightedMonotone(CountVector(a), CountVector(b), ScaledWeights(w));
    QuotientMonotone(Sum(Products(CountVector(a), ScaledWeights(w))),
                     Sum(Products(CountVector(b), ScaledWeights(w))), WeightSum(w));
  }

  /** Raw scores of non-negative counts under non-negative weights are non-negative. */
  lemma RawScoreNonNegative(v: Video, w: Weights)
    requires NonNegativeCounts(v) && NonNegativeWeights(w) && WeightSum(w) > 0.0
    ensures RawScore(v, w) >= 0.0
  {
    ScaledWeightsNonNegative(w);
    WeightedNonNegative(CountVector(v), ScaledWeights(w));
    QuotientMonotone(0.0, Sum(Products(CountVector(v), ScaledWeights(w))), WeightSum(w));
  }
}
