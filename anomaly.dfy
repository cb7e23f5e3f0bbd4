/**
 * anomaly.py: points whose residual from the low-pass trend exceeds k
 * standard deviations of the residual.  The test |r| > k * std is decided
 * on the variance, without a square root.
 */
module Anomaly {
  import opened SeqMath

  /** The default threshold in standard deviations. */
  const DefaultK: real := 3.0

  function Abs(x: real): (a: real)
    ensures a >= 0.0 && (a == x || a == -x)
  {
    if x < 0.0 then -x else x
  }

  /** residual = y - trend_low, elementwise. */
  function Residual(y: seq<real>, trend: seq<real>): (res: seq<real>)
    requires |y| == |trend|
    ensures |res| == |y|
    ensures forall i :: 0 <= i < |y| ==> res[i] + trend[i] == y[i]
  {
    seq(|y|, i requires 0 <= i < |y| => y[i] - trend[i])
  }

  /** The squared deviation of each sample from m. */
  function SquaredDeviations(s: seq<real>, m: real): (d: seq<real>)
    ensures |d| == |s|
    ensures forall i :: 0 <= i < |s| ==> d[i] >= 0.0 && (d[i] == 0.0 <==> s[i] == m)
  {
    seq(|s|, i requires 0 <= i < |s| => Square(s[i] - m))
  }

  function Square(x: real): (y: real)
    ensures y >= 0.0 && (y == 0.0 <==> x == 0.0)
  {
    if x >= 0.0 then ProductFacts(x, x); x * x else ProductFacts(-x, -x); x * x
  }

  lemma ProductFacts(a: real, b: real)
    requires a >= 0.0 && b >= 0.0
    ensures a * b >= 0.0 && (a * b == 0.0 <==> a == 0.0 || b == 0.0)
  {
  }

  /** np.var: the population variance, the square of np.std.  An empty input gives 0 here
      where numpy gives nan; either way `resid_std > 0` is false. */
  function Variance(s: seq<real>): (v: real)
    ensures v >= 0.0
  {
    if |s| == 0 then 0.0
    else
      var d := SquaredDeviations(s, Mean(s));
      SumZeroOfNonnegative(d);
      Sum(d) / (|d| as real)
  }

  /** |x| > k * std for the standard deviation whose square is variance. */
  predicate Exceeds(x: real, k: real, variance: real)
  {
    k < 0.0 || Square(x) > k * k * variance
  }

  /** The residual and the anomaly mask. */
  datatype Report = Report(residual: seq<real>, mask: seq<bool>)

  /** detect_anomalies: flags samples beyond k standard deviations, and none when the
      residual does not vary. */
  function DetectAnomalies(y: seq<real>, trend: seq<real>, k: real): (r: Report)
    requires |y| == |trend|
    ensures |r.residual| == |y| && |r.mask| == |y|
    ensures r.residual == Residual(y, trend)
    ensures Variance(r.residual) == 0.0 ==> forall i :: 0 <= i < |y| ==> !r.mask[i]
  {
    var residual := Residual(y, trend);
    var variance := Variance(residual);
    var mask := seq(|residual|, i requires 0 <= i < |residual| =>
      variance > 0.0 && Exceeds(residual[i], k, variance));
    Report(residual, mask)
  }

  /** The mask flags exactly the samples whose residual is beyond k standard deviations. */
  lemma MaskIffBeyondKStd(y: seq<real>, trend: seq<real>, k: real, std: real, i: nat)
    requires |y| == |trend| && i < |y|
    requires std >= 0.0 && std * std == Variance(Residual(y, trend))
    ensures DetectAnomalies(y, trend, k).mask[i] <==>
      std > 0.0 && Abs(y[i] - trend[i]) > k * std
  {
    var res := Residual(y, trend);
    if std > 0.0 {
      ProductFacts(std, std);
      ExceedsIffBeyond(res[i], k, std, Variance(res));
    } else {
      assert Variance(res) == 0.0;
    }
  }

  /** For a positive std whose square is variance, Exceeds is |x| > k * std. */
  lemma ExceedsIffBeyond(x: real, k: real, std: real, variance: real)
    requires std > 0.0 && std * std == variance
    ensures Exceeds(x, k, variance) <==> Abs(x) > k * std
  {
    if k >= 0.0 {
      var b := k * std;
      ProductFacts(k, std);
      assert b * b == k * k * variance;
      assert Square(x) == Abs(x) * Abs(x);
      SquareMonotone(Abs(x), b);
    } else {
      assert k * std < 0.0;
    }
  }

  /** On non-negative numbers, comparing squares compares the numbers. */
  lemma SquareMonotone(a: real, b: real)
    requires a >= 0.0 && b >= 0.0
    ensures a > b <==> a * a > b * b
  {
    if a > b {
      assert a * a >= a * b >= b * b;
      assert a * a > b * b by {
        assert a * a - b * b == (a - b) * (a + b);
        ProductFacts(a - b, a + b);
      }
    } else {
      assert b * b - a * a == (b - a) * (b + a);
      ProductFacts(b - a, b + a);
    }
  }

  /** Raising the threshold never flags more samples. */
  lemma MaskMonotoneInK(y: seq<real>, trend: seq<real>, k1: real, k2: real, i: nat)
    requires |y| == |trend| && i < |y| && k1 <= k2
    ensures DetectAnomalies(y, trend, k2).mask[i] ==> DetectAnomalies(y, trend, k1).mask[i]
  {
    var res := Residual(y, trend);
    var v := Variance(res);
    if 0.0 <= k1 {
      assert k1 * k1 <= k2 * k2 by {
        assert k2 * k2 - k1 * k1 == (k2 - k1) * (k2 + k1);
        ProductFacts(k2 - k1, k2 + k1);
      }
      ProductFacts(k2 * k2 - k1 * k1, v);
      assert k1 * k1 * v <= k2 * k2 * v by {
        assert k2 * k2 * v - k1 * k1 * v == (k2 * k2 - k1 * k1) * v;
      }
    }
  }

  /** The residual has zero variance exactly when it is constant. */
  lemma VarianceZeroIffConstant(s: seq<real>)
    ensures Variance(s) == 0.0 <==> AllEqual(s)
  {
    if |s| > 0 {
      var m := Mean(s);
      var d := SquaredDeviations(s, m);
      SumZeroOfNonnegative(d);
      if Variance(s) == 0.0 {
        DivZero(Sum(d), |d| as real);
        assert forall i :: 0 <= i < |s| ==> s[i] == m;
      }
      if AllEqual(s) {
        assert InRange(s, s[0], s[0]);
        MeanConstant(s, s[0]);
        assert InRange(d, 0.0, 0.0);
        SumBounds(d, 0.0, 0.0);
      }
    }
  }

  lemma DivZero(x: real, n: real)
    requires n > 0.0 && x / n == 0.0
    ensures x == 0.0
  {
    assert x == (x / n) * n;
  }

  /** With the default threshold, a sample is flagged exactly when its residual is beyond
      three standard deviations. */
  lemma DefaultFlagsBeyondThreeStd(y: seq<real>, trend: seq<real>, std: real, i: nat)
    requires |y| == |trend| && i < |y|
    requires std >= 0.0 && std * std == Variance(Residual(y, trend))
    ensures DetectAnomalies(y, trend, DefaultK).mask[i] <==>
      std > 0.0 && Abs(y[i] - trend[i]) > 3.0 * std
  {
    MaskIffBeyondKStd(y, trend, DefaultK, std, i);
  }

  /** A trend that follows the data up to a constant offset flags nothing, whatever k. */
  lemma ConstantOffsetFlagsNothing(y: seq<real>, trend: seq<real>, k: real)
    requires |y| == |trend| && AllEqual(Residual(y, trend))
    ensures forall i :: 0 <= i < |y| ==> !DetectAnomalies(y, trend, k).mask[i]
  {
    VarianceZeroIffConstant(Residual(y, trend));
  }

  /** A residual that varies flags every sample for a negative k. */
  lemma NegativeKFlagsAll(y: seq<real>, trend: seq<real>, k: real)
    requires |y| == |trend| && k < 0.0 && !AllEqual(Residual(y, trend))
    ensures forall i :: 0 <= i < |y| ==> DetectAnomalies(y, trend, k).mask[i]
  {
    VarianceZeroIffConstant(Residual(y, trend));
  }
}
