/**
 * `_is_merchant_or_payroll`: the heuristic that keeps merchant and payroll
 * accounts out of flagging.
 */
module Hub {
  import opened Types
  import opened TxGraph

  function Sum(xs: seq<real>): real
  {
    if xs == [] then 0.0 else Sum(xs[..|xs| - 1]) + xs[|xs| - 1]
  }

  /** Sum of squared deviations from `m`. */
  function SquaredDeviation(xs: seq<real>, m: real): real
  {
    if xs == [] then 0.0
    else SquaredDeviation(xs[..|xs| - 1], m) + (xs[|xs| - 1] - m) * (xs[|xs| - 1] - m)
  }

  /** Per-edge average amount (`weight / max(count, 1)`) of every outgoing edge. */
  function OutAverages(g: Graph, a: Account): (r: seq<real>)
    requires WF(g) && a in g.stats
    ensures |r| == |g.stats[a].receivers|
  {
    var rs := g.stats[a].receivers;
    assert NodeOk(g, a);
    seq(|rs|, i requires 0 <= i < |rs| =>
      var e := g.edges[(a, rs[i])];
      e.weight / (if e.count >= 1 then e.count else 1) as real)
  }

  predicate IsMerchant(n: NodeStats)
  {
    |n.senders| >= 20 && |n.receivers| <= 3
  }

  function Mean(xs: seq<real>): real
    requires |xs| > 0
  {
    Sum(xs) / (|xs| as real)
  }

  /** Population variance. */
  function Variance(xs: seq<real>): real
    requires |xs| > 0
  {
    SquaredDeviation(xs, Mean(xs)) / (|xs| as real)
  }

  /**
   * At least ten amounts, positive mean, and coefficient of variation below
   * 0.25, stated without the square root as variance < 0.0625 * mean^2.
   */
  predicate RegularAmounts(xs: seq<real>)
  {
    |xs| >= 10 && Mean(xs) > 0.0 && Variance(xs) < 0.0625 * Mean(xs) * Mean(xs)
  }

  predicate IsHub(g: Graph, a: Account)
    requires WF(g) && a in g.stats
  {
    var n := g.stats[a];
    IsMerchant(n) ||
    (|n.receivers| >= 20 && |n.senders| <= 3 && RegularAmounts(OutAverages(g, a)))
  }

  /**
   * The square-root-free test agrees with `cv = sqrt(variance) / mean < 0.25`
   * whenever `sd` is the (non-negative) standard deviation and the mean is positive.
   */
  lemma CoefficientOfVariation(variance: real, mean: real, sd: real)
    requires mean > 0.0 && sd >= 0.0 && sd * sd == variance
    ensures sd / mean < 0.25 <==> variance < 0.0625 * mean * mean
  {
    var q := 0.25 * mean;
    var t := sd / mean;
    assert t * mean == sd;
    if t < 0.25 {
      Positive(0.25 - t, mean);
      assert sd < q;
      NonNegative(sd, q - sd);
      Positive(q - sd, q);
      assert sd * sd < q * q;
    } else {
      NonNegative(t - 0.25, mean);
      assert sd >= q;
      NonNegative(sd - q, sd);
      NonNegative(sd - q, q);
      assert sd * sd >= q * q;
    }
    assert 0.0625 * mean * mean == q * q;
  }

  lemma Positive(a: real, b: real)
    requires a > 0.0 && b > 0.0
    ensures a * b > 0.0
  {
  }

  lemma CancelDivision(x: real, n: real)
    requires n > 0.0
    ensures (n * x) / n == x
  {
    var d := (n * x) / n;
    assert d * n == n * x;
    if d > x {
      Positive(d - x, n);
    } else if d < x {
      Positive(x - d, n);
    }
  }

  lemma NonNegative(a: real, b: real)
    requires a >= 0.0 && b >= 0.0
    ensures a * b >= 0.0
  {
  }

  lemma {:induction false} SumConstant(xs: seq<real>, c: real)
    requires forall i :: 0 <= i < |xs| ==> xs[i] == c
    ensures Sum(xs) == (|xs| as real) * c
    ensures SquaredDeviation(xs, c) == 0.0
  {
    if xs != [] {
      SumConstant(xs[..|xs| - 1], c);
    }
  }

  lemma {:induction false} SumNonPositive(xs: seq<real>)
    requires forall i :: 0 <= i < |xs| ==> xs[i] <= 0.0
    ensures Sum(xs) <= 0.0
  {
    if xs != [] {
      SumNonPositive(xs[..|xs| - 1]);
    }
  }

  /**
   * A payroll-shaped account (20+ receivers, at most 3 senders) that pays the
   * same positive average on every outgoing edge is a hub.
   */
  lemma UniformPayrollIsHub(g: Graph, a: Account, c: real)
    requires WF(g) && a in g.stats
    requires |g.stats[a].receivers| >= 20 && |g.stats[a].senders| <= 3
    requires c > 0.0 && forall i :: 0 <= i < |OutAverages(g, a)| ==> OutAverages(g, a)[i] == c
    ensures IsHub(g, a)
  {
    var xs := OutAverages(g, a);
    SumConstant(xs, c);
    CancelDivision(c, |xs| as real);
    RegularWhenConstant(xs, c);
  }

  lemma RegularWhenConstant(xs: seq<real>, c: real)
    requires |xs| >= 10 && c > 0.0 && Mean(xs) == c && SquaredDeviation(xs, c) == 0.0
    ensures RegularAmounts(xs)
  {
    var m := Mean(xs);
    calc {
      Variance(xs);
      == 0.0;
      < { SquarePositive(m); }
      0.0625 * m * m;
    }
  }

  lemma SquarePositive(a: real)
    requires a > 0.0
    ensures 0.0 < 0.0625 * a * a
  {
  }

  /**
   * The mean-must-be-positive guard: an account that is not a merchant and
   * whose outgoing averages are all non-positive is never a hub.
   */
  lemma NonPositiveMeanIsNotHub(g: Graph, a: Account)
    requires WF(g) && a in g.stats && !IsMerchant(g.stats[a])
    requires forall i :: 0 <= i < |OutAverages(g, a)| ==> OutAverages(g, a)[i] <= 0.0
    ensures !IsHub(g, a)
  {
    var xs := OutAverages(g, a);
    SumNonPositive(xs);
    if |xs| > 0 {
      assert Mean(xs) <= 0.0;
    }
  }
}
