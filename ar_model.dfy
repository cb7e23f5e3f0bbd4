/**
 * ar_model.py: the AR(p) design matrix built column by column, the
 * least-squares fit (with the solver, np.linalg.lstsq, as a parameter) and
 * the compounding multi-step forecast.
 */
module ArModel {
  import opened Wrappers
  import opened SeqMath

  /** np.dot of two vectors of equal length. */
  function Dot(a: seq<real>, b: seq<real>): real
    requires |a| == |b|
    decreases |a|
  {
    if |a| == 0 then 0.0 else a[0] * b[0] + Dot(a[1..], b[1..])
  }

  /** The dot product with a zero vector of coefficients is 0. */
  lemma {:induction false} DotZero(a: seq<real>, b: seq<real>)
    requires |a| == |b| && forall i :: 0 <= i < |b| ==> b[i] == 0.0
    ensures Dot(a, b) == 0.0
    decreases |a|
  {
    if |a| > 0 {
      assert forall i :: 0 <= i < |b| - 1 ==> b[1..][i] == b[i + 1];
      DotZero(a[1..], b[1..]);
    }
  }

  /** The p samples of s before index t, most recent first: the regressor of s[t]. */
  function Lags(s: seq<real>, p: nat, t: nat): (x: seq<real>)
    requires p <= t <= |s|
    ensures |x| == p
    ensures forall i :: 0 <= i < p ==> x[i] == s[t - 1 - i]
  {
    seq(p, i requires 0 <= i < p => s[t - 1 - i])
  }

  /** X: one row per predicted sample, column i holding lag i + 1. */
  function DesignMatrix(series: seq<real>, p: nat): (x: seq<seq<real>>)
    requires |series| > p
    ensures |x| == |series| - p
    ensures forall row :: 0 <= row < |x| ==> |x[row]| == p
    ensures forall row, i :: 0 <= row < |x| && 0 <= i < p ==> x[row][i] == series[p + row - 1 - i]
  {
    var x := seq(|series| - p, row requires 0 <= row < |series| - p => Lags(series, p, p + row));
    assert forall row :: 0 <= row < |x| ==> x[row] == Lags(series, p, p + row);
    x
  }

  /** y_ar: the sample each row of the design matrix predicts. */
  function Target(series: seq<real>, p: nat): (y: seq<real>)
    requires |series| > p
    ensures |y| == |series| - p
    ensures forall row :: 0 <= row < |y| ==> y[row] == series[p + row]
  {
    series[p..]
  }

  /** np.linalg.lstsq(X, y): the coefficient vector, or None where it raises. */
  type Solver = (seq<seq<real>>, seq<real>) -> Option<seq<real>>

  /** The solver returns one coefficient per column of a non-empty matrix. */
  ghost predicate SolverShape(lstsq: Solver)
  {
    forall x, y :: |x| > 0 && lstsq(x, y).Some? ==> |lstsq(x, y).value| == |x[0]|
  }

  datatype FitError = SeriesTooShort | SolverFailed

  /** What fit_ar_lstsq returns or raises. */
  function FitAr(series: seq<real>, p: nat, lstsq: Solver): (r: Result<seq<real>, FitError>)
    ensures r == Failure(SeriesTooShort) <==> |series| <= p
    ensures r == Failure(SolverFailed) <==>
      |series| > p && lstsq(DesignMatrix(series, p), Target(series, p)).None?
    ensures r.Success? ==> r.value == lstsq(DesignMatrix(series, p), Target(series, p)).value
    ensures SolverShape(lstsq) && r.Success? ==> |r.value| == p
  {
    if |series| <= p then Failure(SeriesTooShort)
    else
      match lstsq(DesignMatrix(series, p), Target(series, p))
      case None => Failure(SolverFailed)
      case Some(c) => Success(c)
  }

  /** The rows of a two-dimensional array. */
  function MatrixRows(x: array2<real>): (rows: seq<seq<real>>)
    reads x
    ensures |rows| == x.Length0
    ensures forall row :: 0 <= row < |rows| ==> |rows[row]| == x.Length1
    ensures forall row, col :: 0 <= row < x.Length0 && 0 <= col < x.Length1 ==> rows[row][col] == x[row, col]
  {
    seq(x.Length0, row requires 0 <= row < x.Length0 reads x =>
      seq(x.Length1, col requires 0 <= col < x.Length1 reads x => x[row, col]))
  }

  /** fit_ar_lstsq: fills the columns of the preallocated X, then solves. */
  method FitArLstsq(series: seq<real>, p: nat, lstsq: Solver) returns (r: Result<seq<real>, FitError>)
    ensures r == FitAr(series, p, lstsq)
  {
    var n := |series|;
    if n <= p {
      return Failure(SeriesTooShort);
    }
    var x := new real[n - p, p]((_, _) => 0.0);
    for i := 0 to p
      invariant forall row, col :: 0 <= row < n - p && 0 <= col < i ==> x[row, col] == series[p + row - 1 - col]
    {
      // column i holds the samples lagged by i + 1, series[p-i-1 .. n-i-1]
      var column := series[p - i - 1..n - i - 1];
      for row := 0 to n - p
        invariant forall rr, col :: 0 <= rr < n - p && 0 <= col < i ==> x[rr, col] == series[p + rr - 1 - col]
        invariant forall rr :: 0 <= rr < row ==> x[rr, i] == column[rr]
      {
        x[row, i] := column[row];
      }
    }
    var design := MatrixRows(x);
    forall row | 0 <= row < n - p ensures design[row] == DesignMatrix(series, p)[row] {
      assert forall col :: 0 <= col < p ==> design[row][col] == DesignMatrix(series, p)[row][col];
    }
    assert design == DesignMatrix(series, p);
    var target := series[p..];
    match lstsq(design, target)
    case None => r := Failure(SolverFailed);
    case Some(c) => r := Success(c);
  }

  /** s obeys the AR recursion with coefficients c from its p-th sample on. */
  ghost predicate FollowsAr(s: seq<real>, c: seq<real>)
  {
    forall t :: |c| <= t < |s| ==> s[t] == Dot(Lags(s, |c|, t), c)
  }

  /** The coefficients fit the design matrix with zero residual exactly when the series obeys them. */
  lemma ZeroResidualIffAr(series: seq<real>, c: seq<real>)
    requires |series| > |c|
    ensures (forall row :: 0 <= row < |series| - |c| ==>
               Dot(DesignMatrix(series, |c|)[row], c) == Target(series, |c|)[row])
            <==> FollowsAr(series, c)
  {
    var p := |c|;
    var x := DesignMatrix(series, p);
    var y := Target(series, p);
    forall row | 0 <= row < |series| - p
      ensures x[row] == Lags(series, p, p + row) && y[row] == series[p + row]
    {
    }
  }

  /** preds continues series by the AR recursion: each prediction is the dot product of the
      coefficients with the p values before it, original or predicted. */
  ghost predicate IsForecast(series: seq<real>, coeffs: seq<real>, preds: seq<real>)
  {
    forall t :: 0 <= t < |preds| ==> PredictedAt(series, coeffs, preds, t)
  }

  /** preds[t] is the AR prediction from the p values before it in series ++ preds. */
  ghost predicate PredictedAt(series: seq<real>, coeffs: seq<real>, preds: seq<real>, t: nat)
  {
    t < |preds| && |coeffs| <= |series| + t && preds[t] == Dot(Lags(series + preds, |coeffs|, |series| + t), coeffs)
  }

  /** Appending samples after index t does not change the lags of t. */
  lemma LagsOfPrefix(s: seq<real>, extra: seq<real>, p: nat, t: nat)
    requires p <= t <= |s|
    ensures Lags(s + extra, p, t) == Lags(s, p, t)
  {
  }

  /** Appending samples after index t does not change the prediction for t. */
  lemma PredictionOfPrefix(s: seq<real>, extra: seq<real>, c: seq<real>, t: nat)
    requires |c| <= t <= |s|
    ensures Dot(Lags(s + extra, |c|, t), c) == Dot(Lags(s, |c|, t), c)
  {
    LagsOfPrefix(s, extra, |c|, t);
  }

  /** The history's last p values, reversed, are the lags of the next sample. */
  lemma RegressorFromHistory(series: seq<real>, preds: seq<real>, p: nat)
    requires 1 <= p <= |series|
    ensures Reverse(PyTail(series[|series| - p..] + preds, p)) == Lags(series + preds, p, |series| + |preds|)
  {
    var n := |series|;
    var history := series[n - p..] + preds;
    var x := Reverse(PyTail(history, p));
    var lags := Lags(series + preds, p, n + |preds|);
    forall i | 0 <= i < p ensures x[i] == lags[i] {
      assert x[i] == history[|history| - 1 - i];
      if i < |preds| {
        assert history[|history| - 1 - i] == preds[|preds| - 1 - i];
      } else {
        assert history[|history| - 1 - i] == series[n + |preds| - 1 - i];
      }
    }
  }

  /** One more prediction computed from the lags of the next sample extends a forecast. */
  lemma ForecastExtends(series: seq<real>, coeffs: seq<real>, preds: seq<real>, pred: real)
    requires |coeffs| <= |series| && IsForecast(series, coeffs, preds)
    requires pred == Dot(Lags(series + preds, |coeffs|, |series| + |preds|), coeffs)
    ensures IsForecast(series, coeffs, preds + [pred])
  {
    forall t | 0 <= t < |preds| + 1 ensures PredictedAt(series, coeffs, preds + [pred], t) {
      ExtendedAt(series, coeffs, preds, pred, t);
    }
  }

  lemma ExtendedAt(series: seq<real>, coeffs: seq<real>, preds: seq<real>, pred: real, t: nat)
    requires |coeffs| <= |series| && IsForecast(series, coeffs, preds) && t <= |preds|
    requires pred == Dot(Lags(series + preds, |coeffs|, |series| + |preds|), coeffs)
    ensures PredictedAt(series, coeffs, preds + [pred], t)
  {
    if t < |preds| {
      EarlierPredictionKept(series, coeffs, preds, pred, t);
    } else {
      NewPrediction(series, coeffs, preds, pred);
    }
  }

  lemma EarlierPredictionKept(series: seq<real>, coeffs: seq<real>, preds: seq<real>, pred: real, t: nat)
    requires t < |preds| && IsForecast(series, coeffs, preds)
    ensures PredictedAt(series, coeffs, preds + [pred], t)
  {
    assert PredictedAt(series, coeffs, preds, t);
    assert series + (preds + [pred]) == (series + preds) + [pred];
    PredictionOfPrefix(series + preds, [pred], coeffs, |series| + t);
  }

  lemma NewPrediction(series: seq<real>, coeffs: seq<real>, preds: seq<real>, pred: real)
    requires |coeffs| <= |series|
    requires pred == Dot(Lags(series + preds, |coeffs|, |series| + |preds|), coeffs)
    ensures PredictedAt(series, coeffs, preds + [pred], |preds|)
  {
    assert series + (preds + [pred]) == (series + preds) + [pred];
    PredictionOfPrefix(series + preds, [pred], coeffs, |series| + |preds|);
  }

  /** predict_ar: each step dots the reversed last p history values with coeffs and appends. */
  method PredictAr(series: seq<real>, coeffs: seq<real>, steps: nat) returns (preds: seq<real>)
    requires steps > 0 ==> 1 <= |coeffs| <= |series|
    ensures |preds| == steps
    ensures IsForecast(series, coeffs, preds)
  {
    var p := |coeffs|;
    var history := PyTail(series, p);
    preds := [];
    for step := 0 to steps
      invariant |preds| == step
      invariant history == PyTail(series, p) + preds
      invariant IsForecast(series, coeffs, preds)
    {
      var x := Reverse(PyTail(history, p));
      var pred := Dot(x, coeffs);
      RegressorFromHistory(series, preds, p);
      ForecastExtends(series, coeffs, preds, pred);
      preds := preds + [pred];
      history := history + [pred];
    }
  }

  /** The first prediction is the dot product of the coefficients with the series' last p values. */
  lemma FirstPrediction(series: seq<real>, coeffs: seq<real>, preds: seq<real>)
    requires IsForecast(series, coeffs, preds) && |preds| > 0
    ensures |coeffs| <= |series|
    ensures preds[0] == Dot(Lags(series, |coeffs|, |series|), coeffs)
    ensures forall j :: 0 <= j < |coeffs| ==> Lags(series, |coeffs|, |series|)[j] == series[|series| - 1 - j]
  {
    assert PredictedAt(series, coeffs, preds, 0);
    PredictionOfPrefix(series, preds, coeffs, |series|);
  }

  lemma {:induction false} ForecastPrefixesAgree(series: seq<real>, coeffs: seq<real>,
                                                 a: seq<real>, b: seq<real>, k: nat)
    requires IsForecast(series, coeffs, a) && IsForecast(series, coeffs, b)
    requires |a| == |b| && k <= |a|
    ensures a[..k] == b[..k]
    decreases k
  {
    if k > 0 {
      ForecastPrefixesAgree(series, coeffs, a, b, k - 1);
      var t := k - 1;
      assert PredictedAt(series, coeffs, a, t) && PredictedAt(series, coeffs, b, t);
      SamePrefixSameLags(series, a, b, |coeffs|, t);
      assert a[..k] == a[..t] + [a[t]];
      assert b[..k] == b[..t] + [b[t]];
    }
  }

  /** The lags of sample |series| + t read only the series and the first t predictions. */
  lemma SamePrefixSameLags(series: seq<real>, a: seq<real>, b: seq<real>, p: nat, t: nat)
    requires t < |a| && t < |b| && a[..t] == b[..t] && p <= |series| + t
    ensures Lags(series + a, p, |series| + t) == Lags(series + b, p, |series| + t)
  {
    assert series + a == (series + a[..t]) + a[t..];
    assert series + b == (series + b[..t]) + b[t..];
    LagsOfPrefix(series + a[..t], a[t..], p, |series| + t);
    LagsOfPrefix(series + b[..t], b[t..], p, |series| + t);
  }

  /** The recursion determines the forecast completely. */
  lemma ForecastUnique(series: seq<real>, coeffs: seq<real>, a: seq<real>, b: seq<real>)
    requires IsForecast(series, coeffs, a) && IsForecast(series, coeffs, b) && |a| == |b|
    ensures a == b
  {
    ForecastPrefixesAgree(series, coeffs, a, b, |a|);
    assert a == a[..|a|] && b == b[..|b|];
  }

  /** All-zero coefficients forecast zeros, whatever the series. */
  lemma ZeroCoefficientsForecastZeros(series: seq<real>, coeffs: seq<real>, preds: seq<real>)
    requires IsForecast(series, coeffs, preds)
    requires forall i :: 0 <= i < |coeffs| ==> coeffs[i] == 0.0
    ensures forall t :: 0 <= t < |preds| ==> preds[t] == 0.0
  {
    forall t | 0 <= t < |preds| ensures preds[t] == 0.0 {
      assert PredictedAt(series, coeffs, preds, t);
      DotZero(Lags(series + preds, |coeffs|, |series| + t), coeffs);
    }
  }

  /** A series that obeys the AR recursion still obeys it once its forecast is appended. */
  lemma ForecastContinuesAr(series: seq<real>, coeffs: seq<real>, preds: seq<real>)
    requires |coeffs| <= |series|
    requires IsForecast(series, coeffs, preds) && FollowsAr(series, coeffs)
    ensures FollowsAr(series + preds, coeffs)
  {
    var p := |coeffs|;
    forall t | p <= t < |series + preds|
      ensures (series + preds)[t] == Dot(Lags(series + preds, p, t), coeffs)
    {
      ContinuesAt(series, coeffs, preds, t);
    }
  }

  lemma ContinuesAt(series: seq<real>, coeffs: seq<real>, preds: seq<real>, t: nat)
    requires |coeffs| <= t < |series| + |preds|
    requires IsForecast(series, coeffs, preds) && FollowsAr(series, coeffs)
    ensures (series + preds)[t] == Dot(Lags(series + preds, |coeffs|, t), coeffs)
  {
    if t < |series| {
      ObservedContinues(series, coeffs, preds, t);
    } else {
      assert PredictedAt(series, coeffs, preds, t - |series|);
      PredictedContinues(series, coeffs, preds, t - |series|);
    }
  }

  lemma ObservedContinues(series: seq<real>, coeffs: seq<real>, preds: seq<real>, t: nat)
    requires |coeffs| <= t < |series| && FollowsAr(series, coeffs)
    ensures (series + preds)[t] == Dot(Lags(series + preds, |coeffs|, t), coeffs)
  {
    assert series[t] == Dot(Lags(series, |coeffs|, t), coeffs);
    LagsOfPrefix(series, preds, |coeffs|, t);
  }

  lemma PredictedContinues(series: seq<real>, coeffs: seq<real>, preds: seq<real>, t: nat)
    requires PredictedAt(series, coeffs, preds, t)
    ensures (series + preds)[|series| + t] == Dot(Lags(series + preds, |coeffs|, |series| + t), coeffs)
  {
  }

  /** The forecast fills the rows the design matrix of the extended series adds with zero residual:
      predict_ar reads its lags in the layout fit_ar_lstsq fitted. */
  lemma ForecastFitsExtendedDesign(series: seq<real>, coeffs: seq<real>, preds: seq<real>)
    requires |coeffs| < |series| && IsForecast(series, coeffs, preds)
    ensures forall row :: |series| - |coeffs| <= row < |series| + |preds| - |coeffs| ==>
      Dot(DesignMatrix(series + preds, |coeffs|)[row], coeffs) == Target(series + preds, |coeffs|)[row]
  {
    var p := |coeffs|;
    var ext := series + preds;
    forall row | |series| - p <= row < |ext| - p
      ensures Dot(DesignMatrix(ext, p)[row], coeffs) == Target(ext, p)[row]
    {
      assert DesignMatrix(ext, p)[row] == Lags(ext, p, p + row);
      assert Target(ext, p)[row] == preds[p + row - |series|];
      assert PredictedAt(series, coeffs, preds, p + row - |series|);
    }
  }
}
