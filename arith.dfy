/** Facts about real division and products, kept apart so that each proof about the score
    sees only the arithmetic it needs. */
module RealArith {
  lemma QuotientTimes(c: real, d: real)
    requires d > 0.0
    ensures c / d * d == c
  {
  }
  lemma QuotientOne(c: real, d: real)
    requires d > 0.0
    ensures c / d == 1.0 <==> c == d
  {
    QuotientTimes(c, d);
  }
  lemma QuotientMonotone(a: real, b: real, d: real)
    requires d > 0.0
    ensures a / d <= b / d <==> a <= b
  {
    QuotientTimes(a, d);
    QuotientTimes(b, d);
    if a / d <= b / d {
      ProductMonotone(a / d, b / d, d);
    } else {
      ProductMonotone(b / d, a / d, d);
      assert b <= a;
      assert a != b;
    }
  }
  /** A value divided by a positive maximum it does not exceed is at most 1, is 1 exactly at
      the maximum, and keeps the sign of the value. */
  lemma RatioOfMaximum(x: real, m: real)
    requires m > 0.0 && x <= m
    ensures x / m <= 1.0
    ensures x / m == 1.0 <==> x == m
    ensures x / m >= 0.0 <==> x >= 0.0
  {
    QuotientMonotone(x, m, m);
    QuotientMonotone(0.0, x, m);
    QuotientOne(x, m);
  }
  lemma QuotientUnit(c: real, d: real)
    requires d > 0.0 && 0.0 <= c <= d
    ensures 0.0 <= c / d <= 1.0
  {
    QuotientMonotone(0.0, c, d);
    QuotientMonotone(c, d, d);
  }
  lemma TermBounds(n: real, w: real)
    requires 0.0 <= n <= 1.0 && w >= 0.0
    ensures 0.0 <= n * w <= w
    ensures n * w == w <==> (w > 0.0 ==> n == 1.0)
  {
    assert w - n * w == (1.0 - n) * w;
    if n < 1.0 && w > 0.0 {
      assert (1.0 - n) * w > 0.0;
    }
  }

  /** A value at most 1 under a non-negative weight gives at most the weight, and gives the
      weight exactly when the weight is 0 or the value is 1. */
  lemma TermAtMost(n: real, w: real)
    requires n <= 1.0 && w >= 0.0
    ensures n * w <= w
    ensures n * w == w <==> (w > 0.0 ==> n == 1.0)
  {
    assert w - n * w == (1.0 - n) * w;
    if n < 1.0 && w > 0.0 {
      assert (1.0 - n) * w > 0.0;
    }
  }

  lemma PercentBounds(n: real, s: real)
    requires s > 0.0 && 0.0 <= n <= s
    ensures 0.0 <= n * 100.0 / s <= 100.0
    ensures n * 100.0 / s == 100.0 <==> n == s
  {
    QuotientMonotone(0.0, n * 100.0, s);
    QuotientMonotone(n * 100.0, s * 100.0, s);
    QuotientOne(n * 100.0, s * 100.0);
    QuotientTimes(n * 100.0, s);
  }
  lemma ScaledTermMonotone(a: real, b: real, w: real, k: real)
    requires a <= b && w >= 0.0 && k > 0.0
    ensures a * w * k <= b * w * k
  {
    assert b * w * k - a * w * k == (b - a) * (w * k);
  }

  /** Two terms each bounded by their limits add up to the sum of the limits exactly when
      both reach their limit. */
  lemma PairSum(t: real, tl: real, s: real, sl: real)
    requires 0.0 <= t <= tl && 0.0 <= s <= sl
    ensures 0.0 <= t + s <= tl + sl
    ensures t + s == tl + sl <==> t == tl && s == sl
  {
  }

  lemma AddMonotone(x1: real, y1: real, x2: real, y2: real)
    requires x1 <= y1 && x2 <= y2
    ensures x1 + x2 <= y1 + y2
    ensures x1 + x2 == y1 + y2 <==> x1 == y1 && x2 == y2
  {
  }

  function Sum(ws: seq<real>): (total: real) {
    if ws == [] then 0.0 else ws[0] + Sum(ws[1..])
  }

  /** The element-wise products `xs[k] * ws[k]`; their `Sum` is the weighted sum. */
  function Products(xs: seq<real>, ws: seq<real>): (ps: seq<real>)
    requires |xs| == |ws|
    ensures |ps| == |xs|
  {
    seq(|xs|, k requires 0 <= k < |xs| => xs[k] * ws[k])
  }

  predicate NonNegative(ws: seq<real>) {
    forall k :: 0 <= k < |ws| ==> ws[k] >= 0.0
  }

  predicate InUnitInterval(xs: seq<real>) {
    forall k :: 0 <= k < |xs| ==> 0.0 <= xs[k] <= 1.0
  }

  /** Every position with a positive weight holds 1. */
  predicate OneWherePositive(xs: seq<real>, ws: seq<real>)
    requires |xs| == |ws|
  {
    forall k :: 0 <= k < |xs| && ws[k] > 0.0 ==> xs[k] == 1.0
  }

  /** Every term lies between 0 and its limit. */
  predicate BoundedBy(ts: seq<real>, ls: seq<real>)
    requires |ts| == |ls|
  {
    forall k :: 0 <= k < |ts| ==> 0.0 <= ts[k] <= ls[k]
  }

  /** Terms bounded by their limits sum to at most the sum of the limits, and reach it exactly
      when every term reaches its limit. */
  lemma {:induction false} SumBounds(ts: seq<real>, ls: seq<real>)
    requires |ts| == |ls| && BoundedBy(ts, ls)
    ensures 0.0 <= Sum(ts) <= Sum(ls)
    ensures Sum(ts) == Sum(ls) <==> ts == ls
  {
    if ts != [] {
      assert BoundedBy(ts[1..], ls[1..]) by {
        forall k | 0 <= k < |ts| - 1 ensures 0.0 <= ts[1..][k] <= ls[1..][k] {
          assert ts[1..][k] == ts[k + 1] && ls[1..][k] == ls[k + 1];
        }
      }
      SumBounds(ts[1..], ls[1..]);
      assert 0.0 <= ts[0] <= ls[0];
      PairSum(ts[0], ls[0], Sum(ts[1..]), Sum(ls[1..]));
      assert ts == [ts[0]] + ts[1..] && ls == [ls[0]] + ls[1..];
    }
  }

  /** A sum is non-decreasing in every term, and stays the same only when no term grows. */
  lemma {:induction false} SumMonotone(ts: seq<real>, us: seq<real>)
    requires |ts| == |us| && forall k :: 0 <= k < |ts| ==> ts[k] <= us[k]
    ensures Sum(ts) <= Sum(us)
    ensures Sum(ts) == Sum(us) <==> ts == us
  {
    if ts != [] {
      assert forall k :: 0 <= k < |ts| - 1 ==> ts[1..][k] == ts[k + 1] && us[1..][k] == us[k + 1];
      SumMonotone(ts[1..], us[1..]);
      AddMonotone(ts[0], us[0], Sum(ts[1..]), Sum(us[1..]));
      assert ts == [ts[0]] + ts[1..] && us == [us[0]] + us[1..];
    }
  }

  /** A sum of non-negative terms is non-negative. */
  lemma SumNonNegative(ts: seq<real>)
    requires NonNegative(ts)
    ensures Sum(ts) >= 0.0
  {
    SumMonotone(seq(|ts|, k => 0.0), ts);
    SumOfZeros(seq(|ts|, k => 0.0));
  }

  /** A sum of zeros is zero. */
  lemma {:induction false} SumOfZeros(ts: seq<real>)
    requires forall k :: 0 <= k < |ts| ==> ts[k] == 0.0
    ensures Sum(ts) == 0.0
  {
    if ts != [] {
      assert forall k :: 0 <= k < |ts| - 1 ==> ts[1..][k] == ts[k + 1];
      SumOfZeros(ts[1..]);
    }
  }

  /** A weighted sum of values in [0, 1] under non-negative weights lies between 0 and the
      weight sum, and reaches the weight sum exactly when every positively weighted value is 1. */
  lemma WeightedBounds(xs: seq<real>, ws: seq<real>)
    requires |xs| == |ws| && InUnitInterval(xs) && NonNegative(ws)
    ensures 0.0 <= Sum(Products(xs, ws)) <= Sum(ws)
    ensures Sum(Products(xs, ws)) == Sum(ws) <==> OneWherePositive(xs, ws)
  {
    var ps := Products(xs, ws);
    forall k | 0 <= k < |xs|
      ensures 0.0 <= ps[k] <= ws[k]
      ensures ps[k] == ws[k] <==> (ws[k] > 0.0 ==> xs[k] == 1.0)
    {
      ProductAt(xs, ws, k);
    }
    SumBounds(ps, ws);
    if ps == ws {
      assert OneWherePositive(xs, ws) by {
        forall k | 0 <= k < |xs| && ws[k] > 0.0 ensures xs[k] == 1.0 {
          assert ps[k] == ws[k];
        }
      }
    }
    if OneWherePositive(xs, ws) {
      assert forall k :: 0 <= k < |xs| ==> ps[k] == ws[k];
    }
  }

  lemma ProductAt(xs: seq<real>, ws: seq<real>, k: nat)
    requires |xs| == |ws| && k < |xs| && 0.0 <= xs[k] <= 1.0 && ws[k] >= 0.0
    ensures 0.0 <= Products(xs, ws)[k] <= ws[k]
    ensures Products(xs, ws)[k] == ws[k] <==> (ws[k] > 0.0 ==> xs[k] == 1.0)
  {
    TermBounds(xs[k], ws[k]);
  }

  lemma ProductAtMost(xs: seq<real>, ws: seq<real>, k: nat)
    requires |xs| == |ws| && k < |xs| && xs[k] <= 1.0 && ws[k] >= 0.0
    ensures Products(xs, ws)[k] <= ws[k]
    ensures Products(xs, ws)[k] == ws[k] <==> (ws[k] > 0.0 ==> xs[k] == 1.0)
  {
    var x, w := xs[k], ws[k];
    assert Products(xs, ws)[k] == x * w;
    TermAtMost(x, w);
  }

  /** The weighted sum is non-decreasing in every value when the weights are non-negative. */
  lemma WeightedMonotone(xs: seq<real>, ys: seq<real>, ws: seq<real>)
    requires |xs| == |ys| == |ws| && NonNegative(ws)
    requires forall k :: 0 <= k < |xs| ==> xs[k] <= ys[k]
    ensures Sum(Products(xs, ws)) <= Sum(Products(ys, ws))
  {
    var ps, qs := Products(xs, ws), Products(ys, ws);
    forall k | 0 <= k < |xs| ensures ps[k] <= qs[k] {
      ProductMonotone(xs[k], ys[k], ws[k]);
    }
    SumMonotone(ps, qs);
  }

  /** Values at most 1 under non-negative weights give a weighted sum of at most the weight
      sum, whatever their sign, and reach it exactly when every positively weighted value
      is 1. */
  lemma WeightedAtMostWeightSum(xs: seq<real>, ws: seq<real>)
    requires |xs| == |ws| && NonNegative(ws)
    requires forall k :: 0 <= k < |xs| ==> xs[k] <= 1.0
    ensures Sum(Products(xs, ws)) <= Sum(ws)
    ensures Sum(Products(xs, ws)) == Sum(ws) <==> OneWherePositive(xs, ws)
  {
    var ps := Products(xs, ws);
    forall k | 0 <= k < |xs|
      ensures ps[k] <= ws[k]
      ensures ps[k] == ws[k] <==> (ws[k] > 0.0 ==> xs[k] == 1.0)
    {
      ProductAtMost(xs, ws, k);
    }
    SumMonotone(ps, ws);
    if ps == ws {
      assert OneWherePositive(xs, ws) by {
        forall k | 0 <= k < |xs| && ws[k] > 0.0 ensures xs[k] == 1.0 {
          assert ps[k] == ws[k];
        }
      }
    }
    if OneWherePositive(xs, ws) {
      assert forall k :: 0 <= k < |xs| ==> ps[k] == ws[k];
    }
  }

  /** A value at most a positive `s`, as a percentage of `s`, is at most 100, and exactly 100
      only for `s` itself. */
  lemma PercentAtMost(n: real, s: real)
    requires s > 0.0 && n <= s
    ensures n * 100.0 / s <= 100.0
    ensures n * 100.0 / s == 100.0 <==> n == s
  {
    QuotientMonotone(n * 100.0, s * 100.0, s);
    QuotientTimes(100.0, s);
    QuotientTimes(n * 100.0, s);
    assert s * 100.0 / s == 100.0;
  }

  lemma ProductMonotone(x: real, y: real, w: real)
    requires x <= y && w >= 0.0
    ensures x * w <= y * w
  {
    assert y * w - x * w == (y - x) * w;
  }

  /** Zero values give a zero weighted sum. */
  lemma WeightedOfZeros(xs: seq<real>, ws: seq<real>)
    requires |xs| == |ws| && forall k :: 0 <= k < |xs| ==> xs[k] == 0.0
    ensures Sum(Products(xs, ws)) == 0.0
  {
    SumOfZeros(Products(xs, ws));
  }

  /** Non-negative values under non-negative weights give a non-negative weighted sum. */
  lemma WeightedNonNegative(xs: seq<real>, ws: seq<real>)
    requires |xs| == |ws| && NonNegative(xs) && NonNegative(ws)
    ensures Sum(Products(xs, ws)) >= 0.0
  {
    var ps := Products(xs, ws);
    forall k | 0 <= k < |xs| ensures ps[k] >= 0.0 {
      ProductMonotone(0.0, xs[k], ws[k]);
    }
    SumNonNegative(ps);
  }

  lemma SumOfFive(a: real, b: real, c: real, d: real, e: real)
    ensures Sum([a, b, c, d, e]) == a + b + c + d + e
  {
    assert [a, b, c, d, e][1..] == [b, c, d, e];
    assert [b, c, d, e][1..] == [c, d, e];
    assert [c, d, e][1..] == [d, e];
    assert [d, e][1..] == [e];
    assert Sum([e]) == e;
    assert Sum([d, e]) == d + e;
    assert Sum([c, d, e]) == c + d + e;
    assert Sum([b, c, d, e]) == b + c + d + e;
  }

  /** The weighted sum of five values, written out. */
  lemma WeightedOfFive(a: real, b: real, c: real, d: real, e: real,
                       wa: real, wb: real, wc: real, wd: real, we: real)
    ensures Sum(Products([a, b, c, d, e], [wa, wb, wc, wd, we])) ==
            a * wa + b * wb + c * wc + d * wd + e * we
  {
    var ps := Products([a, b, c, d, e], [wa, wb, wc, wd, we]);
    assert ps[0] == a * wa && ps[1] == b * wb && ps[2] == c * wc && ps[3] == d * wd && ps[4] == e * we;
    assert ps == [a * wa, b * wb, c * wc, d * wd, e * we];
    SumOfFive(a * wa, b * wb, c * wc, d * wd, e * we);
  }
}
