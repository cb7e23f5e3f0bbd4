/**
 * The routing layer of filters.py around scipy.signal: the guard chain of
 * `butter_filter`, the clipped centred window of `moving_average` and the
 * fallback of `apply_wiener`.  The scipy routines themselves are parameters.
 */
module Filters {
  import opened Wrappers
  import opened SeqMath

  datatype BType = LowPass | HighPass

  /** Numerator b and denominator a of a designed digital filter. */
  datatype Coefficients = Coefficients(b: seq<real>, a: seq<real>)

  /**
   * The foreign routines: butter(order, Wn, btype), filtfilt(b, a, x, padlen),
   * lfilter(b, a, x) and wiener(x).  filtfilt and wiener give None where they raise.
   */
  datatype SignalLibrary = SignalLibrary(
    butter: (nat, real, BType) -> Coefficients,
    filtfilt: (Coefficients, seq<real>, nat) -> Option<seq<real>>,
    lfilter: (Coefficients, seq<real>) -> seq<real>,
    wiener: seq<real> -> Option<seq<real>>)

  /** The filter kernels return one sample per input sample. */
  ghost predicate PreservesLength(lib: SignalLibrary)
  {
    && (forall c, x, n :: lib.filtfilt(c, x, n).Some? ==> |lib.filtfilt(c, x, n).value| == |x|)
    && (forall c, x :: |lib.lfilter(c, x)| == |x|)
    && (forall x :: lib.wiener(x).Some? ==> |lib.wiener(x).value| == |x|)
  }

  function Max(a: int, b: int): int { if a >= b then a else b }

  function Min(a: int, b: int): int { if a <= b then a else b }

  // ---------------------------------------------------------------- butter_filter

  /** Which branch of butter_filter produced the output. */
  datatype ButterPath = TooShort | CutoffOutOfRange | ZeroPhase | CausalFallback

  datatype Filtered = Filtered(path: ButterPath, values: seq<real>)

  /** Wn: the cutoff frequency 1/period as a fraction of the Nyquist frequency fs/2. */
  function NormalizedCutoff(cutoffPeriodDays: real, fs: real): (wn: real)
    requires cutoffPeriodDays != 0.0 && fs != 0.0
    ensures wn * cutoffPeriodDays * fs == 2.0
  {
    (1.0 / cutoffPeriodDays) / (0.5 * fs)
  }

  /** The padding handed to filtfilt. */
  function Padlen(c: Coefficients, n: nat): (padlen: nat)
    requires n >= 1
    ensures padlen <= n - 1
    ensures padlen <= 3 * Max(|c.a|, |c.b|)
    ensures padlen == n - 1 || padlen == 3 * Max(|c.a|, |c.b|)
  {
    Min(3 * Max(|c.a|, |c.b|), n - 1)
  }

  /** butter_filter: passthrough guards, zero-phase filtering, causal fallback. */
  function ButterFilter(data: seq<real>, cutoffPeriodDays: real, btype: BType, fs: real,
                        order: nat, lib: SignalLibrary): (r: Filtered)
    requires |data| >= 3 ==> cutoffPeriodDays != 0.0 && fs != 0.0
    ensures r.path == TooShort <==> |data| < 3
    ensures r.path == CutoffOutOfRange <==>
      |data| >= 3 && !(0.0 < NormalizedCutoff(cutoffPeriodDays, fs) < 1.0)
    ensures r.path == TooShort || r.path == CutoffOutOfRange ==> r.values == data
    ensures r.path == ZeroPhase || r.path == CausalFallback ==>
      var c := lib.butter(order, NormalizedCutoff(cutoffPeriodDays, fs), btype);
      var attempt := lib.filtfilt(c, data, Padlen(c, |data|));
      && (r.path == ZeroPhase <==> attempt.Some?)
      && r.values == (if attempt.Some? then attempt.value else lib.lfilter(c, data))
    ensures PreservesLength(lib) ==> |r.values| == |data|
  {
    if |data| < 3 then Filtered(TooShort, data)
    else
      var wn := NormalizedCutoff(cutoffPeriodDays, fs);
      if !(0.0 < wn < 1.0) then Filtered(CutoffOutOfRange, data)
      else
        var c := lib.butter(order, wn, btype);
        match lib.filtfilt(c, data, Padlen(c, |data|))
        case Some(y) => Filtered(ZeroPhase, y)
        case None => Filtered(CausalFallback, lib.lfilter(c, data))
  }

  /** The cutoff is usable exactly when the period spans more than two samples. */
  lemma CutoffInRangeIff(cutoffPeriodDays: real, fs: real)
    requires cutoffPeriodDays != 0.0 && fs != 0.0
    ensures 0.0 < NormalizedCutoff(cutoffPeriodDays, fs) < 1.0 <==> cutoffPeriodDays * fs > 2.0
  {
    var pf := cutoffPeriodDays * fs;
    var wn := NormalizedCutoff(cutoffPeriodDays, fs);
    assert pf != 0.0;
    assert wn * pf == 2.0 by {
      assert wn * (0.5 * fs) * cutoffPeriodDays == 1.0;
    }
    if pf > 2.0 {
      assert wn > 0.0;
      assert wn < 1.0;
    }
    if 0.0 < wn < 1.0 {
      assert pf > 0.0;
      assert pf > 2.0;
    }
  }

  /** At one sample per day, a cutoff period of two days or less passes the data through. */
  lemma DailyShortPeriodPassesThrough(data: seq<real>, cutoffPeriodDays: real, btype: BType,
                                      order: nat, lib: SignalLibrary)
    requires |data| >= 3 && cutoffPeriodDays != 0.0
    ensures ButterFilter(data, cutoffPeriodDays, btype, 1.0, order, lib).path == CutoffOutOfRange
      <==> cutoffPeriodDays <= 2.0
    ensures cutoffPeriodDays <= 2.0 ==> ButterFilter(data, cutoffPeriodDays, btype, 1.0, order, lib).values == data
  {
    CutoffInRangeIff(cutoffPeriodDays, 1.0);
  }

  // ---------------------------------------------------------------- moving_average

  /** An inclusive index range [lo, hi]. */
  datatype Span = Span(lo: nat, hi: nat)

  /**
   * The samples pandas' rolling(window, min_periods=1, center=True) averages at index i:
   * [i - window/2, i + (window-1)/2] clipped to [0, n-1].
   */
  function Window(i: nat, window: nat, n: nat): (w: Span)
    requires i < n && window >= 1
    ensures w.lo <= i <= w.hi < n
    ensures w.hi - w.lo + 1 <= window
    ensures window / 2 <= i && i + (window - 1) / 2 < n ==> w.hi - w.lo + 1 == window
    ensures w.lo == 0 || w.lo == i - window / 2
    ensures w.hi == n - 1 || w.hi == i + (window - 1) / 2
    ensures window / 2 <= i ==> w.lo == i - window / 2
    ensures i + (window - 1) / 2 < n ==> w.hi == i + (window - 1) / 2
  {
    Span(Max(0, i - window / 2), Min(n - 1, i + (window - 1) / 2))
  }

  /** moving_average: the mean over each clipped centred window. */
  function MovingAverage(data: seq<real>, window: nat): (r: seq<real>)
    requires window >= 1
    ensures |r| == |data|
  {
    seq(|data|, i requires 0 <= i < |data| =>
      var w := Window(i, window, |data|);
      Mean(data[w.lo..w.hi + 1]))
  }

  /** Each output lies within any bounds of the whole input. */
  lemma MovingAverageInRange(data: seq<real>, window: nat, lo: real, hi: real)
    requires window >= 1 && InRange(data, lo, hi)
    ensures InRange(MovingAverage(data, window), lo, hi)
  {
    forall i | 0 <= i < |data| ensures lo <= MovingAverage(data, window)[i] <= hi {
      var w := Window(i, window, |data|);
      var s := data[w.lo..w.hi + 1];
      assert forall j :: 0 <= j < |s| ==> s[j] == data[w.lo + j];
      MeanBounds(s, lo, hi);
    }
  }

  /** A constant input is its own moving average. */
  lemma MovingAverageOfConstant(data: seq<real>, window: nat)
    requires window >= 1 && AllEqual(data)
    ensures MovingAverage(data, window) == data
  {
    if |data| > 0 {
      var c := data[0];
      assert InRange(data, c, c);
      MovingAverageInRange(data, window, c, c);
    }
  }

  /** A window of one sample is the identity. */
  lemma MovingAverageWindowOne(data: seq<real>)
    ensures MovingAverage(data, 1) == data
  {
    forall i | 0 <= i < |data| ensures MovingAverage(data, 1)[i] == data[i] {
      var w := Window(i, 1, |data|);
      assert data[w.lo..w.hi + 1] == [data[i]];
      MeanConstant([data[i]], data[i]);
    }
  }

  /**
   * The edges are clipped, not shrunk symmetrically: at index 0 a window of 7
   * averages the first four samples.
   */
  lemma LeftEdgeWindow(data: seq<real>)
    requires |data| >= 4
    ensures Window(0, 7, |data|) == Span(0, 3)
    ensures MovingAverage(data, 7)[0] == Mean(data[..4])
  {
  }

  // ---------------------------------------------------------------- apply_wiener

  /** The output of apply_wiener: wiener's own, or the moving average it falls back to. */
  datatype Smoothed = Computed(values: seq<real>) | MovingAverageFallback(values: seq<real>)

  /** apply_wiener: any failure of wiener falls back to moving_average with its default window 7. */
  function ApplyWiener(data: seq<real>, lib: SignalLibrary): (r: Smoothed)
    ensures r.MovingAverageFallback? <==> lib.wiener(data).None?
    ensures r.Computed? ==> r.values == lib.wiener(data).value
    ensures r.MovingAverageFallback? ==> r.values == MovingAverage(data, 7)
    ensures PreservesLength(lib) ==> |r.values| == |data|
  {
    match lib.wiener(data)
    case Some(y) => Computed(y)
    case None => MovingAverageFallback(MovingAverage(data, 7))
  }
}
