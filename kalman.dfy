/**
 * The scalar Kalman recursion of filters.py (`kalman_1d`): a random-walk
 * state observed with noise.  The process variance q and the measurement
 * variance r are the caller's.
 */
module Kalman {
  import opened SeqMath

  /** Filtered state estimate and its covariance after one sample. */
  datatype Estimate = Estimate(x: real, p: real)

  /** The Kalman gain for a predicted covariance and a measurement variance. */
  function Gain(pMinus: real, r: real): (g: real)
    requires pMinus > 0.0 && r > 0.0
    ensures 0.0 < g < 1.0
  {
    var g := pMinus / (pMinus + r);
    GainFacts(pMinus, r, g);
    g
  }

  lemma GainFacts(pMinus: real, r: real, g: real)
    requires pMinus > 0.0 && r > 0.0 && g == pMinus / (pMinus + r)
    ensures 0.0 < g < 1.0
  {
    assert g * (pMinus + r) == pMinus;
  }

  lemma PositiveProduct(a: real, b: real)
    requires a > 0.0 && b > 0.0
    ensures a * b > 0.0
  {
  }

  lemma NonnegativeProduct(a: real, b: real)
    requires a >= 0.0 && b >= 0.0
    ensures a * b >= 0.0
  {
  }

  /** A step of size g in (0, 1) from x toward o lands between them. */
  lemma ConvexStep(x: real, o: real, g: real, v: real)
    requires 0.0 < g < 1.0 && v == x + g * (o - x)
    ensures Between(x, o, v)
  {
    var d := o - x;
    if d >= 0.0 {
      NonnegativeProduct(g, d);
      NonnegativeProduct(1.0 - g, d);
    } else {
      NonnegativeProduct(g, -d);
      NonnegativeProduct(1.0 - g, -d);
    }
  }

  /** (xhat[k], P[k]): the estimate and covariance the recursion holds after sample k. */
  function StateAt(obs: seq<real>, q: real, r: real, k: nat): (e: Estimate)
    requires k < |obs| && q >= 0.0 && r > 0.0
    ensures e.p > 0.0
    decreases k
  {
    if k == 0 then Estimate(obs[0], 1.0) else Update(StateAt(obs, q, r, k - 1), obs[k], q, r)
  }

  /** One step of the recursion: predict, then correct toward observation o. */
  function Update(prev: Estimate, o: real, q: real, r: real): (e: Estimate)
    requires prev.p > 0.0 && q >= 0.0 && r > 0.0
    ensures e.p > 0.0
  {
    var pMinus := prev.p + q;
    var gain := Gain(pMinus, r);
    PositiveProduct(1.0 - gain, pMinus);
    Estimate(prev.x + gain * (o - prev.x), (1.0 - gain) * pMinus)
  }

  /** The values one iteration of kalman_1d writes: prediction, predicted covariance, gain,
      and the corrected estimate and covariance, which are one Update step. */
  method KalmanStep(x: real, p: real, o: real, q: real, r: real)
    returns (predicted: real, predictedVar: real, gain: real, filtered: real, filteredVar: real)
    requires p > 0.0 && q >= 0.0 && r > 0.0
    ensures predicted == x && predictedVar == p + q && gain == Gain(p + q, r)
    ensures Estimate(filtered, filteredVar) == Update(Estimate(x, p), o, q, r)
  {
    predicted := x;
    predictedVar := p + q;
    gain := predictedVar / (predictedVar + r);
    filtered := predicted + gain * (o - predicted);
    filteredVar := (1.0 - gain) * predictedVar;
  }

  /** K[k] for k >= 1: the gain applied at sample k. */
  function GainAt(obs: seq<real>, q: real, r: real, k: nat): real
    requires 1 <= k < |obs| && q >= 0.0 && r > 0.0
  {
    Gain(StateAt(obs, q, r, k - 1).p + q, r)
  }

  /** The xhat array the recursion returns. */
  function Estimates(obs: seq<real>, q: real, r: real): seq<real>
    requires q >= 0.0 && r > 0.0
  {
    seq(|obs|, k requires 0 <= k < |obs| => StateAt(obs, q, r, k).x)
  }

  /** kalman_1d: allocates xhat, P, xhatminus, Pminus and K, seeds them with the first
      observation and runs the recursion over the rest. */
  method Kalman1D(observations: seq<real>, processVar: real, measurementVar: real)
    returns (estimates: seq<real>)
    requires processVar >= 0.0 && measurementVar > 0.0
    ensures |estimates| == |observations|
    ensures |observations| > 0 ==> estimates[0] == observations[0]
    ensures estimates == Estimates(observations, processVar, measurementVar)
  {
    var n := |observations|;
    var xhat := new real[n](_ => 0.0);
    var P := new real[n](_ => 0.0);
    var xhatMinus := new real[n](_ => 0.0);
    var pMinus := new real[n](_ => 0.0);
    var K := new real[n](_ => 0.0);
    if n == 0 {
      return xhat[..];
    }
    xhat[0] := observations[0];
    P[0] := 1.0;
    Recurse(observations, processVar, measurementVar, xhat, P, xhatMinus, pMinus, K);
    estimates := xhat[..];
  }

  /** The `for k in range(1, n)` loop of kalman_1d. */
  method Recurse(observations: seq<real>, processVar: real, measurementVar: real,
                 xhat: array<real>, P: array<real>, xhatMinus: array<real>, pMinus: array<real>,
                 K: array<real>)
    requires processVar >= 0.0 && measurementVar > 0.0
    requires |observations| >= 1
    requires xhat.Length == |observations| && P.Length == |observations|
    requires xhatMinus.Length == |observations| && pMinus.Length == |observations|
    requires K.Length == |observations|
    requires xhat != P && xhat != xhatMinus && xhat != pMinus && xhat != K
    requires P != xhatMinus && P != pMinus && P != K
    requires xhatMinus != pMinus && xhatMinus != K && pMinus != K
    requires xhat[0] == observations[0] && P[0] == 1.0
    modifies xhat, P, xhatMinus, pMinus, K
    ensures forall j :: 0 <= j < |observations| ==>
      xhat[j] == StateAt(observations, processVar, measurementVar, j).x &&
      P[j] == StateAt(observations, processVar, measurementVar, j).p
    ensures forall j :: 1 <= j < |observations| ==> K[j] == GainAt(observations, processVar, measurementVar, j)
    ensures forall j :: 1 <= j < |observations| ==>
      xhatMinus[j] == StateAt(observations, processVar, measurementVar, j - 1).x &&
      pMinus[j] == StateAt(observations, processVar, measurementVar, j - 1).p + processVar
    ensures K[0] == old(K[0]) && xhatMinus[0] == old(xhatMinus[0]) && pMinus[0] == old(pMinus[0])
  {
    var n := |observations|;
    for k := 1 to n
      invariant forall j :: 0 <= j < k ==> xhat[j] == StateAt(observations, processVar, measurementVar, j).x
      invariant forall j :: 0 <= j < k ==> P[j] == StateAt(observations, processVar, measurementVar, j).p
      invariant forall j :: 1 <= j < k ==> K[j] == GainAt(observations, processVar, measurementVar, j)
      invariant forall j :: 1 <= j < k ==>
        xhatMinus[j] == StateAt(observations, processVar, measurementVar, j - 1).x &&
        pMinus[j] == StateAt(observations, processVar, measurementVar, j - 1).p + processVar
      invariant K[0] == old(K[0]) && xhatMinus[0] == old(xhatMinus[0]) && pMinus[0] == old(pMinus[0])
    {
      var predicted, predictedVar, gain, filtered, filteredVar :=
        KalmanStep(xhat[k - 1], P[k - 1], observations[k], processVar, measurementVar);
      assert gain == GainAt(observations, processVar, measurementVar, k);
      assert Estimate(filtered, filteredVar) == StateAt(observations, processVar, measurementVar, k);
      Store(xhat, P, xhatMinus, pMinus, K, k, filtered, filteredVar, predicted, predictedVar, gain);
    }
  }

  /** The writes of iteration k: entry k of each array, and no other entry. */
  method Store(xhat: array<real>, P: array<real>, xhatMinus: array<real>, pMinus: array<real>,
               K: array<real>, k: nat, x: real, p: real, predicted: real, predictedVar: real, gain: real)
    requires k < xhat.Length && k < P.Length && k < xhatMinus.Length && k < pMinus.Length && k < K.Length
    requires xhat != P && xhat != xhatMinus && xhat != pMinus && xhat != K
    requires P != xhatMinus && P != pMinus && P != K
    requires xhatMinus != pMinus && xhatMinus != K && pMinus != K
    modifies xhat, P, xhatMinus, pMinus, K
    ensures xhat[..] == old(xhat[..])[k := x] && P[..] == old(P[..])[k := p]
    ensures xhatMinus[..] == old(xhatMinus[..])[k := predicted]
    ensures pMinus[..] == old(pMinus[..])[k := predictedVar] && K[..] == old(K[..])[k := gain]
  {
    xhat[k] := x;
    P[k] := p;
    xhatMinus[k] := predicted;
    pMinus[k] := predictedVar;
    K[k] := gain;
  }

  /** v lies on the segment between a and b. */
  predicate Between(a: real, b: real, v: real)
  {
    (a <= v <= b) || (b <= v <= a)
  }

  /** Each estimate is a convex step from the previous estimate toward the new observation. */
  lemma StepTowardObservation(obs: seq<real>, q: real, r: real, k: nat)
    requires 1 <= k < |obs| && q >= 0.0 && r > 0.0
    ensures Between(StateAt(obs, q, r, k - 1).x, obs[k], StateAt(obs, q, r, k).x)
  {
    var prev := StateAt(obs, q, r, k - 1);
    var g := Gain(prev.p + q, r);
    var v := StateAt(obs, q, r, k).x;
    assert v == prev.x + g * (obs[k] - prev.x);
    ConvexStep(prev.x, obs[k], g, v);
  }

  /** Every estimate stays within any bounds of the observations seen so far. */
  lemma {:induction false} EstimateInRange(obs: seq<real>, q: real, r: real, k: nat, lo: real, hi: real)
    requires k < |obs| && q >= 0.0 && r > 0.0
    requires InRange(obs, lo, hi)
    ensures lo <= StateAt(obs, q, r, k).x <= hi
    decreases k
  {
    if k > 0 {
      EstimateInRange(obs, q, r, k - 1, lo, hi);
      StepTowardObservation(obs, q, r, k);
    }
  }

  /** The whole output lies within the range of the observations. */
  lemma EstimatesInRange(obs: seq<real>, q: real, r: real, lo: real, hi: real)
    requires q >= 0.0 && r > 0.0 && InRange(obs, lo, hi)
    ensures InRange(Estimates(obs, q, r), lo, hi)
  {
    forall k | 0 <= k < |obs| ensures lo <= Estimates(obs, q, r)[k] <= hi {
      EstimateInRange(obs, q, r, k, lo, hi);
    }
  }

  /** A constant input is returned unchanged. */
  lemma ConstantInputUnchanged(obs: seq<real>, q: real, r: real)
    requires q >= 0.0 && r > 0.0 && AllEqual(obs)
    ensures Estimates(obs, q, r) == obs
  {
    if |obs| > 0 {
      var c := obs[0];
      assert InRange(obs, c, c);
      EstimatesInRange(obs, q, r, c, c);
    }
  }

  /** Every gain lies in (0, 1) and every covariance is positive. */
  lemma GainAndCovarianceBounds(obs: seq<real>, q: real, r: real, k: nat)
    requires 1 <= k < |obs| && q >= 0.0 && r > 0.0
    ensures 0.0 < GainAt(obs, q, r, k) < 1.0
    ensures StateAt(obs, q, r, k).p > 0.0
  {
  }
}
