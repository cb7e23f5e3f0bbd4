/**
 * The AR forecast step of main.py: fit AR(10) on the closing prices and
 * forecast 7 days, falling back to repeating the last price when the
 * series is too short or when fitting or forecasting raises.
 */
module Pipeline {
  import opened Wrappers
  import opened SeqMath
  import opened ArModel

  const ArLags: nat := 10
  const ForecastSteps: nat := 7

  datatype Source = Predicted | LastValueFallback

  /** The forecast and where it came from. */
  datatype Forecast = Forecast(source: Source, values: seq<real>)

  /** predict_ar raises (np.dot of vectors of different lengths) when it has steps to take and
      the non-empty series holds fewer values than coefficients, or there are no coefficients. */
  predicate PredictRaises(series: seq<real>, coeffs: seq<real>, steps: nat)
  {
    steps > 0 && !(1 <= |coeffs| <= |series|)
  }

  /** The cases where main.py forecasts the last value: too short a series, a fit that
      raises, or a forecast that raises. */
  ghost predicate FallsBack(y: seq<real>, lags: nat, steps: nat, lstsq: Solver)
  {
    |y| <= lags || FitAr(y, lags, lstsq).Failure? ||
    PredictRaises(y, FitAr(y, lags, lstsq).value, steps)
  }

  /** The IndexError of `y[-1]` on an empty series, which main.py does not catch. */
  datatype ForecastError = NoLastValue

  /** main.py (AR forecast): the forecast, or np.full(steps, y[-1]) on the fallback paths.
      An empty series always takes a fallback path, where y[-1] raises. */
  method ArForecast(y: seq<real>, lags: nat, steps: nat, lstsq: Solver)
    returns (r: Result<Forecast, ForecastError>)
    ensures r.Failure? <==> |y| == 0
    ensures r.Success? ==> |r.value.values| == steps
    ensures r.Success? ==> (r.value.source == LastValueFallback <==> FallsBack(y, lags, steps, lstsq))
    ensures r.Success? && r.value.source == LastValueFallback ==> r.value.values == Repeat(y[|y| - 1], steps)
    ensures r.Success? && r.value.source == Predicted ==>
      FitAr(y, lags, lstsq).Success? && IsForecast(y, FitAr(y, lags, lstsq).value, r.value.values)
  {
    if |y| > lags {
      var fit := FitArLstsq(y, lags, lstsq);
      match fit
      case Failure(_) =>
        r := Success(Forecast(LastValueFallback, Repeat(y[|y| - 1], steps)));
      case Success(coeffs) =>
        if PredictRaises(y, coeffs, steps) {
          r := Success(Forecast(LastValueFallback, Repeat(y[|y| - 1], steps)));
        } else {
          var preds := PredictAr(y, coeffs, steps);
          r := Success(Forecast(Predicted, preds));
        }
    } else if |y| == 0 {
      r := Failure(NoLastValue);
    } else {
      r := Success(Forecast(LastValueFallback, Repeat(y[|y| - 1], steps)));
    }
  }

  /** With a solver that returns one coefficient per lag, a successful fit of at least one
      lag always yields a forecast. */
  lemma SuccessfulFitPredicts(y: seq<real>, lags: nat, steps: nat, lstsq: Solver)
    requires SolverShape(lstsq) && 1 <= lags < |y| && FitAr(y, lags, lstsq).Success?
    ensures !FallsBack(y, lags, steps, lstsq)
  {
  }

  /** With no lags there is nothing to forecast from: any forecast of at least one step falls back. */
  lemma ZeroLagsFallBack(y: seq<real>, steps: nat, lstsq: Solver)
    requires SolverShape(lstsq) && steps > 0
    ensures FallsBack(y, 0, steps, lstsq)
  {
  }

  /** In main.py's configuration, 11 or more prices and a solver that succeeds give a
      forecast; 10 or fewer give the fallback. */
  lemma ConfiguredForecast(y: seq<real>, lstsq: Solver)
    requires SolverShape(lstsq)
    ensures |y| <= ArLags ==> FallsBack(y, ArLags, ForecastSteps, lstsq)
    ensures |y| > ArLags && FitAr(y, ArLags, lstsq).Success? ==>
      !FallsBack(y, ArLags, ForecastSteps, lstsq)
  {
  }
}
