# Time-series analysis core, modelled in Dafny

The repository analyses a daily price series. It splits the series into
trend, oscillation and noise with several smoothers, finds the dominant
periods in a periodogram, fits and runs an autoregressive (AR) forecast, and
flags residual anomalies. Most of the arithmetic is done by scipy, numpy and
pandas. This project models the discrete logic around those calls, over
`real` numbers and sequences:

- `kalman.dfy` (module `Kalman`): the scalar Kalman recursion of
  `kalman_1d`. It is an imperative loop over arrays. Its outputs are tied to
  the recursion `StateAt`, and the lemmas prove:
  - the gain stays in (0, 1) and every covariance stays positive;
  - each estimate is a convex step toward the new observation;
  - the outputs stay within the range of the observations;
  - a constant input is returned unchanged.
- `filters.dfy` (module `Filters`) covers three routines:
  - `butter_filter`: the guard chain (a series that is too short, a cutoff
    outside (0, 1)), the `padlen` bound, and the fallback from `filtfilt` to
    `lfilter`;
  - `moving_average`: the clipped, centred window of pandas'
    `rolling(window, min_periods=1, center=True).mean()`;
  - `apply_wiener`: its moving-average fallback.

  The scipy kernels are the fields of a `SignalLibrary` value, and
  `PreservesLength` states what is assumed of them.
- `ar_model.dfy` (module `ArModel`):
  - `fit_ar_lstsq` fills the design matrix column by column into a
    two-dimensional array, with `np.linalg.lstsq` as a `Solver` parameter;
  - `predict_ar` is the compounding forecast loop over a growing `history`.

  The forecast is specified by `IsForecast`. In `series ++ preds`, each
  prediction is the dot product of the coefficients with the p values before
  it, most recent first, which is the layout the design matrix is fitted in.
- `spectrum.dfy` (module `Spectrum`):
  - the period of each bin, with an infinite period as `None`;
  - the `top_periods` selection: keep the positive-frequency bins, rank them
    by power, keep the last `top_n`, and reverse.

  The ranking `np.argsort` returns is a parameter, constrained only by
  `IsArgsort`. `np.argsort` defaults to quicksort and may order equal powers
  either way. `ArgSort` shows that such a ranking always exists.
- `anomaly.dfy` (module `Anomaly`): the residual, its population variance,
  and the mask `|residual| > k * std`. The mask is decided on the variance
  (`Exceeds`), and `MaskIffBeyondKStd` ties it to any non-negative `std`
  whose square is that variance.
- `pipeline.dfy` (module `Pipeline`): the AR forecast step of `main.py`. It
  fits and forecasts, or falls back to repeating the last price; on an
  empty series that last price does not exist and the step fails.
- `seqmath.dfy` and `wrappers.dfy`: sums and means, Python's `s[-n:]`
  (`PyTail`) and `s[::-1]` (`Reverse`), `np.full` (`Repeat`), `Option` and
  `Result`.

Floats are modelled as `real`. A Python exception is modelled as `None` or
`Failure`, or as the `CausalFallback` / `MovingAverageFallback` /
`LastValueFallback` path when the source catches it.

Two behaviours of the code are worth stating outright:

- **Moving-average edges.** `moving_average` uses pandas' centred window,
  which is clipped at the ends of the series rather than shrunk
  symmetrically, so index 0 with a window of 7 averages samples 0..3
  (`Filters.LeftEdgeWindow`).
- **Ties in top periods.** `top_periods` ranks with `np.argsort`'s default
  quicksort, which fixes no order among equal powers, so the model leaves the
  tie order open.

## Model

| member | source | states |
|---|---|---|
| Kalman.Kalman1D | filters.py:39-56 | the output has one estimate per observation, starts with the first observation (empty input gives empty output), and is the recursion's sequence of estimates |
| Kalman.Recurse | filters.py:43-55 | after the loop, every `xhat[k]` and `P[k]` is the recursion's state after sample k, every `K[k]` its gain, and every `xhatminus[k]`, `Pminus[k]` the prediction `xhat[k-1]`, `P[k-1] + Q` of step k; entry 0 of `K`, `xhatminus` and `Pminus` keeps its initial value |
| Kalman.Store | filters.py:51-55 | one iteration writes entry k of each of the five arrays and leaves every other entry as it was |
| Kalman.KalmanStep | filters.py:51-55 | one iteration predicts `xhat[k-1]` with covariance `P[k-1] + q`, takes the gain `Pminus/(Pminus+R)`, and its corrected estimate and covariance are one step of the recursion |
| Kalman.Gain | filters.py:53 | for a positive predicted covariance and a positive measurement variance, `Pminus/(Pminus+R)` lies strictly between 0 and 1 |
| Kalman.StateAt | filters.py:48-55 | every covariance `P[k]` of the recursion is positive |
| Kalman.Update | filters.py:51-55 | one predict-and-correct step keeps the covariance positive |
| Kalman.GainAndCovarianceBounds | filters.py:52-55 | every gain `K[k]` is in (0, 1) and every `P[k]` is positive |
| Kalman.StepTowardObservation | filters.py:54 | `xhat[k]` lies between `xhat[k-1]` and `observations[k]` |
| Kalman.EstimateInRange | filters.py:48-55 | each estimate lies within any bounds that hold for every observation |
| Kalman.EstimatesInRange | filters.py:39-56 | the whole output lies within any bounds of the observations |
| Kalman.ConstantInputUnchanged | filters.py:51-54 | a constant input is returned unchanged |
| Filters.ButterFilter | filters.py:7-25 | fewer than 3 samples gives a copy, and only then; a normalised cutoff outside (0, 1) gives a copy, and only then; otherwise filtfilt's result, or lfilter's when filtfilt raises; the length is kept when the kernels keep it |
| Filters.NormalizedCutoff | filters.py:12-14 | `Wn = (1/period) / (fs/2)`, that is `Wn * period * fs = 2` |
| Filters.Padlen | filters.py:19 | padlen is at most `len(data) - 1` and at most `3 * max(len(a), len(b))`, and equals one of the two |
| Filters.CutoffInRangeIff | filters.py:12-15 | `0 < Wn < 1` holds exactly when the cutoff period times the sampling rate exceeds 2 |
| Filters.DailyShortPeriodPassesThrough | filters.py:12-17 | at `fs = 1`, a series of 3 or more samples is passed through unchanged exactly when the cutoff period is at most 2 days |
| Filters.Window | filters.py:29 | the centred window at index i contains i, stays inside the series and holds at most W samples; its low end is `i - W/2` whenever that is not below 0 and 0 otherwise, and its high end is `i + (W-1)/2` whenever that is inside the series and the last index otherwise |
| Filters.MovingAverage | filters.py:28-29 | the output has the input's length |
| Filters.MovingAverageInRange | filters.py:28-29 | each average lies within any bounds of the input |
| Filters.MovingAverageOfConstant | filters.py:28-29 | a constant input is its own moving average |
| Filters.MovingAverageWindowOne | filters.py:28-29 | a window of 1 is the identity |
| Filters.LeftEdgeWindow | filters.py:29 | at index 0 a window of 7 covers samples 0..3, so the first output is the mean of the first four samples |
| Filters.ApplyWiener | filters.py:32-36 | the moving average with window 7 is returned exactly when wiener raises, and wiener's own output otherwise; the length is kept when the kernels keep it |
| ArModel.Dot | ar_model.py:21 | `np.dot` of two vectors of equal length, the sum of their elementwise products (a definition; `DotZero` states its property) |
| ArModel.DotZero | ar_model.py:21 | the dot product with all-zero coefficients is 0 |
| ArModel.Lags | ar_model.py:20 | the regressor of sample t has p entries, entry i being `s[t-1-i]` (most recent first) |
| ArModel.DesignMatrix | ar_model.py:8-10 | X has `N-p` rows of p columns, with `X[r][i] = series[p+r-1-i]` |
| ArModel.Target | ar_model.py:11 | `y_ar` has `N-p` entries with `y_ar[r] = series[p+r]`, the sample right after row r's lags |
| ArModel.FitAr | ar_model.py:3-13 | fails with "series too short" exactly when `N <= p`, fails exactly when the solver raises on a long enough series, otherwise returns the solver's coefficients, p of them for a solver that returns one per column |
| ArModel.FitArLstsq | ar_model.py:3-13 | the column-by-column fill of the preallocated X, followed by the solve, returns exactly `FitAr` |
| ArModel.ZeroResidualIffAr | ar_model.py:8-12 | coefficients fit every row of the design matrix exactly if and only if the series obeys the AR recursion with them |
| ArModel.PredictAr | ar_model.py:15-24 | returns exactly `steps` values that form the AR forecast of the series (`steps = 0` gives none) |
| ArModel.RegressorFromHistory | ar_model.py:17-20 | the reversed last p entries of the history (series tail followed by the predictions so far) are the lags of the next sample of `series ++ preds` |
| ArModel.ForecastExtends | ar_model.py:19-23 | appending the prediction computed from those lags extends a forecast by one step |
| ArModel.FirstPrediction | ar_model.py:17-21 | the first prediction is `Σ_j coeffs[j] * series[N-1-j]` |
| ArModel.ForecastPrefixesAgree | ar_model.py:19-23 | two forecasts of the same length agree on every prefix |
| ArModel.ForecastUnique | ar_model.py:15-24 | the forecast is uniquely determined by the series, the coefficients and its length |
| ArModel.ZeroCoefficientsForecastZeros | ar_model.py:15-24 | all-zero coefficients forecast only zeros, whatever the series |
| ArModel.ForecastContinuesAr | ar_model.py:15-24 | a series that obeys the AR recursion still obeys it once its forecast is appended |
| ArModel.ForecastFitsExtendedDesign | ar_model.py:8-21 | the forecast satisfies with zero residual the rows it adds to the design matrix of `series ++ preds` |
| Spectrum.PeriodDays | spectrum.py:7 | the period is finite exactly for a positive frequency, and is then positive with `period * f = 1` |
| Spectrum.ComputePeriodogram | spectrum.py:4-8 | f and Pxx are the estimator's; `period_days` has the length of f and is finite, positive and the reciprocal of `f[i]` exactly where `f[i] > 0` |
| Spectrum.PositiveBinsBelow | spectrum.py:11 | `valid_idx` lists, in strictly ascending order, exactly the bins with `f > 0` |
| Spectrum.PositiveBins | spectrum.py:11 | `valid_idx` holds valid bin indices, each with `f > 0`, and lists every bin with `f > 0` |
| Spectrum.PositiveBinsFacts | spectrum.py:11 | every entry of `valid_idx` has `f > 0`, no entry repeats, and every positive bin is listed |
| Spectrum.BinPowers | spectrum.py:13 | `Pxx[valid_idx]` holds the power of each positive bin, in `valid_idx` order |
| Spectrum.ArgSort | spectrum.py:13 | every sequence of powers has an ascending argsort, so the ranking parameter can always be met |
| Spectrum.Ranked | spectrum.py:13 | `valid_idx[argsort]` has one bin per ranked position, each a valid bin index |
| Spectrum.RankedDistinct | spectrum.py:13 | no bin is ranked twice |
| Spectrum.RankedPositive | spectrum.py:13 | every ranked bin has a positive frequency |
| Spectrum.RankedCovers | spectrum.py:11-13 | every bin with a positive frequency is ranked |
| Spectrum.RankedAscending | spectrum.py:13 | the ranked bins ascend in power |
| Spectrum.TopIndices | spectrum.py:13 | the number of bins reported is `min(top_n, positive bins)`, or all of them for `top_n = 0` |
| Spectrum.ReversedTailAt | spectrum.py:13 | position j of `s[-n:][::-1]` is position `len(s)-1-j` of s |
| Spectrum.TailIsReported | spectrum.py:13 | the last `len(idx)` ranked bins are exactly the ones reported |
| Spectrum.TopPeriods | spectrum.py:10-16 | one triple `(f[i], period_days[i], Pxx[i])` per reported bin i, in the reported order, as many as `TopIndices` keeps |
| Spectrum.TopIndicesArePositiveBins | spectrum.py:11-14 | every reported bin has `f > 0`, and no bin is reported twice |
| Spectrum.TopPowersDescending | spectrum.py:13 | the reported powers do not increase |
| Spectrum.UnreportedBinsNoStronger | spectrum.py:13 | a positive bin that is not reported has power at most that of every reported bin |
| Spectrum.UnreportedRank | spectrum.py:13 | a positive bin that is not reported is ranked before the kept tail |
| Spectrum.EarlyRankNoStronger | spectrum.py:13 | a bin ranked before the kept tail has power at most that of every reported bin |
| Spectrum.TopPeriodsEmptyIff | spectrum.py:11-16 | the result is empty exactly when no bin has a positive frequency |
| Spectrum.DefaultReportsAtMostEight | spectrum.py:10-14 | with the default `top_n = 8`, at most eight bins are reported, and every positive bin when there are at most eight |
| Anomaly.Residual | anomaly.py:4 | the residual has the length of y, and adding the trend back gives y |
| Anomaly.Variance | anomaly.py:5 | the population variance (the square of `np.std`) is non-negative |
| Anomaly.VarianceZeroIffConstant | anomaly.py:5-7 | the variance is 0 exactly when all residuals are equal |
| Anomaly.DetectAnomalies | anomaly.py:3-9 | the residual and the mask have the length of y; the residual is `y - trend_low`; a residual that does not vary flags nothing |
| Anomaly.ExceedsIffBeyond | anomaly.py:8 | for a positive std with `std*std = var`, the variance test is `|x| > k * std` |
| Anomaly.MaskIffBeyondKStd | anomaly.py:5-8 | `mask[i]` holds exactly when std is positive and `|y[i] - trend[i]| > k * std` |
| Anomaly.DefaultFlagsBeyondThreeStd | anomaly.py:3-8 | with the default `k = 3.0`, `mask[i]` holds exactly when std is positive and the residual is beyond `3 * std` |
| Anomaly.MaskMonotoneInK | anomaly.py:8 | every sample flagged for k2 is flagged for any k1 <= k2 |
| Anomaly.ConstantOffsetFlagsNothing | anomaly.py:5-9 | a trend that follows y up to a constant offset flags nothing, whatever k |
| Anomaly.NegativeKFlagsAll | anomaly.py:7-8 | when the residual varies, a negative k flags every sample |
| Pipeline.PredictRaises | ar_model.py:17-21 | the `ValueError` of `np.dot` in `predict_ar`: it has a step to take and the regressor `history[-p:][::-1]` does not have `len(coeffs)` entries, which happens for no coefficients or for fewer samples than coefficients (a definition) |
| Pipeline.FallsBack | main.py:48-55 | the fallback paths: at most `AR_LAGS` prices, `fit_ar_lstsq` raising, or `predict_ar` raising (a definition) |
| Pipeline.ArForecast | main.py:48-55 | an empty series fails with the uncaught `IndexError` of `y[-1]`, and only an empty one; otherwise always `steps` values; the fallback happens exactly when the series is too short, fitting raises, or forecasting raises, and then is `steps` copies of `y[-1]`; otherwise the values are the AR forecast of the fitted coefficients |
| Pipeline.SuccessfulFitPredicts | main.py:48-53 | with a solver returning one coefficient per lag, a successful fit of at least one lag never falls back |
| Pipeline.ZeroLagsFallBack | main.py:48-53 | with no lags, a forecast of at least one step always falls back |
| Pipeline.ConfiguredForecast | main.py:48-55 | with `AR_LAGS = 10` and `FORECAST_STEPS = 7`, 10 or fewer prices fall back and more prices with a successful fit forecast |
| SeqMath.PyTail | ar_model.py:17 | `s[-n:]` is the suffix of length n, or the whole of s for `n = 0` or `n >= len(s)` |

## Left out

- `butter`, `filtfilt`, `lfilter`, `wiener`, `periodogram` and
  `np.linalg.lstsq` are foreign. They are parameters, and nothing about their
  numerics is modelled. `filtfilt` failing is taken to be the `ValueError`
  the source catches; any other exception from it is not modelled.
- Floating point is modelled as `real`. Rounding, NaN, infinities other than
  `period_days`, the `1e-12` guards and numpy warnings are not modelled.
  `warnings.warn` calls have no effect on the result and are left out.
- `data_loader.py` (download and resampling), plotting, file output and
  `pd.date_range` in `main.py` are I/O and are not part of this model.
- `main.py`'s detrending, normalisation and calls of the other modules with
  fixed arguments are left out, apart from the AR forecast step.
- Numpy broadcasting is not modelled. `DetectAnomalies` and `TopPeriods`
  require their input arrays to have equal lengths.
- Kalman.Kalman1D: requires `process_var >= 0` and `measurement_var > 0`.
  Outside those values the covariance `P` can turn non-positive and the gain
  `Pminus / (Pminus + R)` can divide by zero; the bounds proved on the gain and
  the covariance depend on the two conditions. `main.py` and the defaults meet
  them.
- Filters.ButterFilter: requires a non-zero cutoff period and sampling rate
  for series of 3 or more samples. For those the source raises
  `ZeroDivisionError`, which it does not catch.
- Filters.MovingAverage: requires `window >= 1`. pandas raises for smaller
  windows.
- ArModel.PredictAr: requires `1 <= len(coeffs) <= len(series)` when `steps`
  is positive. Otherwise `np.dot` raises on vectors of different lengths;
  `Pipeline.ArForecast` models that exception with `PredictRaises`. One case
  that does not raise is not modelled: with no coefficients and an empty
  series, the first step returns `0.0`. A second step raises, because the
  history then holds that one value.
- ArModel.FitAr: `p`, `steps`, `lags` and `top_n` are natural numbers, and
  negative values are not modelled. Python accepts some of them:
  - a negative `p` makes `np.zeros((N - p, p))` raise `ValueError`;
  - a negative `steps` gives `[]` from `predict_ar`, but makes `np.full`
    raise on `main.py`'s fallback path;
  - a negative `top_n` is a slice bound, and `[-top_n:]` then drops the
    weakest `-top_n` bins instead of keeping the strongest.
- Kalman.Kalman1D: the internal arrays `xhatminus`, `Pminus`, `K` and `P` are
  written as in the source but not returned. Their contents are stated by
  `Kalman.Recurse`, not by the postcondition of `Kalman1D`.
- Spectrum.TopPeriods: the tie order among bins of equal power is left open,
  as with `np.argsort`'s quicksort.
