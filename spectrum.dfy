/**
 * spectrum.py: the period of each periodogram bin and the strongest
 * periods.  The periodogram itself (scipy.signal.periodogram) and the
 * ranking np.argsort returns are parameters.
 */
module Spectrum {
  import opened Wrappers
  import opened SeqMath

  /** The default number of peaks `top_periods` reports. */
  const DefaultTopN: nat := 8

  /** period_days for one bin: 1/f for a positive frequency, infinity (None) otherwise. */
  function PeriodDays(f: real): (period: Option<real>)
    ensures period.Some? <==> f > 0.0
    ensures period.Some? ==> period.value > 0.0 && period.value * f == 1.0
  {
    if f > 0.0 then Some(1.0 / f) else None
  }

  /** The periodogram estimator: sample frequencies and power densities for a signal and rate. */
  type Estimator = (seq<real>, real) -> (seq<real>, seq<real>)

  /** f, Pxx and period_days of one signal. */
  datatype Periodogram = Periodogram(freqs: seq<real>, power: seq<real>, periods: seq<Option<real>>)

  /** compute_periodogram: the estimator's bins with the period of each. */
  function ComputePeriodogram(yNorm: seq<real>, fs: real, periodogram: Estimator): (r: Periodogram)
    ensures r.freqs == periodogram(yNorm, fs).0 && r.power == periodogram(yNorm, fs).1
    ensures |r.periods| == |r.freqs|
    ensures forall i :: 0 <= i < |r.freqs| ==> (r.periods[i].Some? <==> r.freqs[i] > 0.0)
    ensures forall i :: 0 <= i < |r.freqs| && r.periods[i].Some? ==>
      r.periods[i].value > 0.0 && r.periods[i].value * r.freqs[i] == 1.0
  {
    var (f, pxx) := periodogram(yNorm, fs);
    Periodogram(f, pxx, seq(|f|, i requires 0 <= i < |f| => PeriodDays(f[i])))
  }

  /** Every entry of s indexes a sequence of length n. */
  predicate IndicesBelow(s: seq<nat>, n: nat)
  {
    forall j :: 0 <= j < |s| ==> s[j] < n
  }

  predicate Distinct(s: seq<nat>)
  {
    forall j, l :: 0 <= j < l < |s| ==> s[j] != s[l]
  }

  /** The keys of the indices in order do not decrease. */
  predicate SortedBy(keys: seq<real>, order: seq<nat>)
    requires IndicesBelow(order, |keys|)
  {
    forall j, l :: 0 <= j < l < |order| ==> keys[order[j]] <= keys[order[l]]
  }

  /** order is an ascending argsort of keys: a permutation of its indices, sorted by key.
      Equal keys may come in any order. */
  predicate IsArgsort(keys: seq<real>, order: seq<nat>)
  {
    |order| == |keys| && IndicesBelow(order, |keys|) && Distinct(order) &&
    (forall i: nat :: i < |keys| ==> i in order) && SortedBy(keys, order)
  }

  /** Inserts index i into an order sorted by key, before the first index of no smaller key. */
  function Insert(keys: seq<real>, order: seq<nat>, i: nat): (r: seq<nat>)
    requires IndicesBelow(order, |keys|) && i < |keys|
    ensures |r| == |order| + 1
    ensures IndicesBelow(r, |keys|)
    ensures forall x :: x in r <==> x in order || x == i
    decreases |order|
  {
    if |order| == 0 || keys[i] <= keys[order[0]] then [i] + order
    else [order[0]] + Insert(keys, order[1..], i)
  }

  /** Insertion keeps an order sorted. */
  lemma {:induction false} InsertSorted(keys: seq<real>, order: seq<nat>, i: nat)
    requires IndicesBelow(order, |keys|) && i < |keys| && SortedBy(keys, order)
    ensures SortedBy(keys, Insert(keys, order, i))
    decreases |order|
  {
    var r := Insert(keys, order, i);
    if |order| == 0 || keys[i] <= keys[order[0]] {
      forall l | 0 < l < |r| ensures keys[r[0]] <= keys[r[l]] {
        assert r[l] == order[l - 1];
        if l > 1 {
          assert keys[order[0]] <= keys[order[l - 1]];
        }
      }
      SortedCons(keys, i, order);
    } else {
      var rest := Insert(keys, order[1..], i);
      InsertSorted(keys, order[1..], i);
      forall l | 0 <= l < |rest| ensures keys[order[0]] <= keys[rest[l]] {
        assert rest[l] in rest;
        if rest[l] != i {
          var a :| 0 <= a < |order[1..]| && order[1..][a] == rest[l];
          assert order[a + 1] == rest[l];
        }
      }
      SortedCons(keys, order[0], rest);
    }
  }

  /** A head no heavier than anything after it extends a sorted order. */
  lemma SortedCons(keys: seq<real>, x: nat, s: seq<nat>)
    requires x < |keys| && IndicesBelow(s, |keys|) && SortedBy(keys, s)
    requires forall l :: 0 <= l < |s| ==> keys[x] <= keys[s[l]]
    ensures SortedBy(keys, [x] + s)
  {
    var r := [x] + s;
    forall j, l | 0 <= j < l < |r| ensures keys[r[j]] <= keys[r[l]] {
      assert r[l] == s[l - 1];
      if j > 0 {
        assert r[j] == s[j - 1];
      }
    }
  }

  /** Inserting an index not yet present keeps the indices distinct. */
  lemma {:induction false} InsertDistinct(keys: seq<real>, order: seq<nat>, i: nat)
    requires IndicesBelow(order, |keys|) && i < |keys| && Distinct(order) && i !in order
    ensures Distinct(Insert(keys, order, i))
    decreases |order|
  {
    if |order| == 0 || keys[i] <= keys[order[0]] {
      ConsDistinct(i, order);
    } else {
      assert order == [order[0]] + order[1..];
      ConsDistinct(order[0], order[1..]);
      InsertDistinct(keys, order[1..], i);
      ConsDistinct(order[0], Insert(keys, order[1..], i));
    }
  }

  lemma ConsDistinct(x: nat, s: seq<nat>)
    ensures Distinct(s) && x !in s ==> Distinct([x] + s)
    ensures Distinct([x] + s) ==> Distinct(s) && x !in s
  {
    var r := [x] + s;
    if Distinct(s) && x !in s {
      forall j, l | 0 <= j < l < |r| ensures r[j] != r[l] {
        assert r[l] == s[l - 1];
        if j > 0 {
          assert r[j] == s[j - 1];
        }
      }
    }
    if Distinct(r) {
      forall j, l | 0 <= j < l < |s| ensures s[j] != s[l] {
        assert s[j] == r[j + 1] && s[l] == r[l + 1];
      }
      forall j | 0 <= j < |s| ensures s[j] != x {
        assert r[0] == x && s[j] == r[j + 1];
      }
    }
  }

  /** Insertion argsort of the first k keys. */
  function ArgSortPrefix(keys: seq<real>, k: nat): (r: seq<nat>)
    requires k <= |keys|
    ensures |r| == k && IndicesBelow(r, |keys|) && Distinct(r) && SortedBy(keys, r)
    ensures forall x: nat :: x in r <==> x < k
  {
    if k == 0 then []
    else
      var prev := ArgSortPrefix(keys, k - 1);
      InsertSorted(keys, prev, k - 1);
      InsertDistinct(keys, prev, k - 1);
      Insert(keys, prev, k - 1)
  }

  /** An insertion argsort: every key sequence has an ascending argsort. */
  function ArgSort(keys: seq<real>): (order: seq<nat>)
    ensures IsArgsort(keys, order)
  {
    ArgSortPrefix(keys, |keys|)
  }

  /** valid_idx below k: the bins of positive frequency, ascending. */
  function PositiveBinsBelow(freqs: seq<real>, k: nat): (v: seq<nat>)
    requires k <= |freqs|
    ensures IndicesBelow(v, k)
    ensures forall j :: 0 <= j < |v| ==> freqs[v[j]] > 0.0
    ensures forall j, l :: 0 <= j < l < |v| ==> v[j] < v[l]
    ensures forall i: nat :: i < k && freqs[i] > 0.0 ==> i in v
  {
    if k == 0 then []
    else PositiveBinsBelow(freqs, k - 1) + (if freqs[k - 1] > 0.0 then [k - 1] else [])
  }

  /** valid_idx: the ascending indices of the bins with positive frequency. */
  function PositiveBins(freqs: seq<real>): (v: seq<nat>)
    ensures IndicesBelow(v, |freqs|)
    ensures forall j :: 0 <= j < |v| ==> freqs[v[j]] > 0.0
    ensures forall i: nat :: i < |freqs| && freqs[i] > 0.0 ==> i in v
  {
    PositiveBinsBelow(freqs, |freqs|)
  }

  /** Pxx[valid_idx]: the power of each positive bin, the keys np.argsort ranks. */
  function BinPowers(freqs: seq<real>, power: seq<real>): (keys: seq<real>)
    requires |power| == |freqs|
    ensures |keys| == |PositiveBins(freqs)|
    ensures forall j :: 0 <= j < |keys| ==> keys[j] == power[PositiveBins(freqs)[j]]
  {
    var v := PositiveBins(freqs);
    seq(|v|, j requires 0 <= j < |v| => power[v[j]])
  }

  /** valid_idx[order]: the positive bins from weakest to strongest. */
  function Ranked(freqs: seq<real>, order: seq<nat>): (ranked: seq<nat>)
    requires IndicesBelow(order, |PositiveBins(freqs)|)
    ensures |ranked| == |order| && IndicesBelow(ranked, |freqs|)
    ensures forall j :: 0 <= j < |order| ==> ranked[j] == PositiveBins(freqs)[order[j]]
  {
    var v := PositiveBins(freqs);
    seq(|order|, j requires 0 <= j < |order| => v[order[j]])
  }

  /** The number of peaks reported for m positive bins; `[-top_n:]` keeps all of them for top_n = 0. */
  function Kept(m: nat, topN: nat): nat
  {
    if topN == 0 || topN >= m then m else topN
  }

  /** The bins `top_periods` reports, strongest first. */
  function TopIndices(freqs: seq<real>, power: seq<real>, topN: nat, order: seq<nat>): (idx: seq<nat>)
    requires |power| == |freqs| && |order| == |PositiveBins(freqs)|
    requires IndicesBelow(order, |PositiveBins(freqs)|)
    ensures |idx| == Kept(|PositiveBins(freqs)|, topN)
    ensures IndicesBelow(idx, |freqs|)
  {
    var ranked := Ranked(freqs, order);
    var top := Reverse(PyTail(ranked, topN));
    assert forall j :: 0 <= j < |top| ==> top[j] in ranked;
    top
  }

  /** One reported peak: frequency, period and power. */
  datatype Peak = Peak(freq: real, period: Option<real>, power: real)

  /** top_periods: the peaks of the reported bins, strongest first; [] without a positive bin. */
  function TopPeriods(freqs: seq<real>, power: seq<real>, periods: seq<Option<real>>,
                      topN: nat, order: seq<nat>): (peaks: seq<Peak>)
    requires |power| == |freqs| && |periods| == |freqs|
    requires IsArgsort(BinPowers(freqs, power), order)
    ensures |peaks| == Kept(|PositiveBins(freqs)|, topN)
    ensures forall j :: 0 <= j < |peaks| ==>
      peaks[j] == BinPeaks(freqs, power, periods)[TopIndices(freqs, power, topN, order)[j]]
  {
    var idx := TopIndices(freqs, power, topN, order);
    if |PositiveBins(freqs)| > 0 then
      seq(|idx|, j requires 0 <= j < |idx| => Peak(freqs[idx[j]], periods[idx[j]], power[idx[j]]))
    else []
  }

  /** The peak of each bin of the periodogram. */
  function BinPeaks(freqs: seq<real>, power: seq<real>, periods: seq<Option<real>>): (peaks: seq<Peak>)
    requires |power| == |freqs| && |periods| == |freqs|
    ensures |peaks| == |freqs|
  {
    seq(|freqs|, i requires 0 <= i < |freqs| => Peak(freqs[i], periods[i], power[i]))
  }

  // ---------------------------------------------------------------------
  // What the ranking guarantees.
  // ---------------------------------------------------------------------

  lemma PositiveBinsFacts(freqs: seq<real>)
    ensures forall j :: 0 <= j < |PositiveBins(freqs)| ==> freqs[PositiveBins(freqs)[j]] > 0.0
    ensures Distinct(PositiveBins(freqs))
    ensures forall i: nat :: i < |freqs| && freqs[i] > 0.0 ==> i in PositiveBins(freqs)
  {
  }

  /** The ranked bins are distinct. */
  lemma RankedDistinct(freqs: seq<real>, power: seq<real>, order: seq<nat>)
    requires |power| == |freqs| && IsArgsort(BinPowers(freqs, power), order)
    ensures Distinct(Ranked(freqs, order))
  {
    var v := PositiveBins(freqs);
    var ranked := Ranked(freqs, order);
    forall j, l | 0 <= j < l < |order| ensures ranked[j] != ranked[l] {
      assert order[j] != order[l];
      if order[j] < order[l] {
        assert v[order[j]] < v[order[l]];
      } else {
        assert v[order[l]] < v[order[j]];
      }
    }
  }

  /** Every ranked bin has a positive frequency. */
  lemma RankedPositive(freqs: seq<real>, power: seq<real>, order: seq<nat>)
    requires |power| == |freqs| && IsArgsort(BinPowers(freqs, power), order)
    ensures forall j :: 0 <= j < |order| ==> freqs[Ranked(freqs, order)[j]] > 0.0
  {
  }

  /** Every positive bin is ranked. */
  lemma RankedCovers(freqs: seq<real>, power: seq<real>, order: seq<nat>, i: nat)
    requires |power| == |freqs| && IsArgsort(BinPowers(freqs, power), order)
    requires i < |freqs| && freqs[i] > 0.0
    ensures i in Ranked(freqs, order)
  {
    var v := PositiveBins(freqs);
    assert i in v;
    var a :| 0 <= a < |v| && v[a] == i;
    assert a in order;
    var b :| 0 <= b < |order| && order[b] == a;
    assert Ranked(freqs, order)[b] == i;
  }

  /** The ranked bins ascend in power. */
  lemma RankedAscending(freqs: seq<real>, power: seq<real>, order: seq<nat>)
    requires |power| == |freqs| && IsArgsort(BinPowers(freqs, power), order)
    ensures SortedBy(power, Ranked(freqs, order))
  {
    var keys := BinPowers(freqs, power);
    var ranked := Ranked(freqs, order);
    forall j, l | 0 <= j < l < |order| ensures power[ranked[j]] <= power[ranked[l]] {
      assert keys[order[j]] <= keys[order[l]];
    }
  }

  /** Position j of `s[-n:][::-1]` is position |s| - 1 - j of s. */
  lemma ReversedTailAt(s: seq<nat>, n: nat, j: nat)
    requires j < |PyTail(s, n)|
    ensures Reverse(PyTail(s, n))[j] == s[|s| - 1 - j]
  {
    var tail := PyTail(s, n);
    assert Reverse(tail)[j] == tail[|tail| - 1 - j];
  }

  /** Every reported bin has a positive frequency, and none is reported twice. */
  lemma TopIndicesArePositiveBins(freqs: seq<real>, power: seq<real>, topN: nat, order: seq<nat>)
    requires |power| == |freqs| && IsArgsort(BinPowers(freqs, power), order)
    ensures forall j :: 0 <= j < |TopIndices(freqs, power, topN, order)| ==>
      freqs[TopIndices(freqs, power, topN, order)[j]] > 0.0
    ensures Distinct(TopIndices(freqs, power, topN, order))
  {
    var idx := TopIndices(freqs, power, topN, order);
    RankedPositive(freqs, power, order);
    RankedDistinct(freqs, power, order);
    forall j | 0 <= j < |idx| ensures freqs[idx[j]] > 0.0 {
      ReversedTailAt(Ranked(freqs, order), topN, j);
    }
    forall j, l | 0 <= j < l < |idx| ensures idx[j] != idx[l] {
      ReversedTailAt(Ranked(freqs, order), topN, j);
      ReversedTailAt(Ranked(freqs, order), topN, l);
    }
  }

  /** The reported powers do not increase: strongest first. */
  lemma TopPowersDescending(freqs: seq<real>, power: seq<real>, topN: nat, order: seq<nat>)
    requires |power| == |freqs| && IsArgsort(BinPowers(freqs, power), order)
    ensures forall j, l :: 0 <= j < l < |TopIndices(freqs, power, topN, order)| ==>
      power[TopIndices(freqs, power, topN, order)[j]] >= power[TopIndices(freqs, power, topN, order)[l]]
  {
    var idx := TopIndices(freqs, power, topN, order);
    RankedAscending(freqs, power, order);
    forall j, l | 0 <= j < l < |idx| ensures power[idx[j]] >= power[idx[l]] {
      ReversedTailAt(Ranked(freqs, order), topN, j);
      ReversedTailAt(Ranked(freqs, order), topN, l);
    }
  }

  /** A positive bin left out is no stronger than any bin reported. */
  lemma UnreportedBinsNoStronger(freqs: seq<real>, power: seq<real>, topN: nat, order: seq<nat>, i: nat)
    requires |power| == |freqs| && IsArgsort(BinPowers(freqs, power), order)
    requires i < |freqs| && freqs[i] > 0.0 && i !in TopIndices(freqs, power, topN, order)
    ensures forall j :: 0 <= j < |TopIndices(freqs, power, topN, order)| ==>
      power[i] <= power[TopIndices(freqs, power, topN, order)[j]]
  {
    var b := UnreportedRank(freqs, power, topN, order, i);
    EarlyRankNoStronger(freqs, power, topN, order, b);
  }

  /** An unreported positive bin is ranked before the reported tail. */
  lemma UnreportedRank(freqs: seq<real>, power: seq<real>, topN: nat, order: seq<nat>, i: nat)
    returns (b: nat)
    requires |power| == |freqs| && IsArgsort(BinPowers(freqs, power), order)
    requires i < |freqs| && freqs[i] > 0.0 && i !in TopIndices(freqs, power, topN, order)
    ensures b < |order| - |TopIndices(freqs, power, topN, order)| && Ranked(freqs, order)[b] == i
  {
    RankedCovers(freqs, power, order, i);
    b :| 0 <= b < |order| && Ranked(freqs, order)[b] == i;
    TailIsReported(freqs, power, topN, order);
  }

  /** A bin ranked before the reported tail is no stronger than any reported bin. */
  lemma EarlyRankNoStronger(freqs: seq<real>, power: seq<real>, topN: nat, order: seq<nat>, b: nat)
    requires |power| == |freqs| && IsArgsort(BinPowers(freqs, power), order)
    requires b < |order| - |TopIndices(freqs, power, topN, order)|
    ensures forall j :: 0 <= j < |TopIndices(freqs, power, topN, order)| ==>
      power[Ranked(freqs, order)[b]] <= power[TopIndices(freqs, power, topN, order)[j]]
  {
    var idx := TopIndices(freqs, power, topN, order);
    RankedAscending(freqs, power, order);
    forall j | 0 <= j < |idx| ensures power[Ranked(freqs, order)[b]] <= power[idx[j]] {
      ReversedTailAt(Ranked(freqs, order), topN, j);
    }
  }

  /** The last |TopIndices| ranked bins are the ones reported. */
  lemma TailIsReported(freqs: seq<real>, power: seq<real>, topN: nat, order: seq<nat>)
    requires |power| == |freqs| && IsArgsort(BinPowers(freqs, power), order)
    ensures forall b :: |order| - |TopIndices(freqs, power, topN, order)| <= b < |order| ==>
      Ranked(freqs, order)[b] in TopIndices(freqs, power, topN, order)
  {
    var idx := TopIndices(freqs, power, topN, order);
    var m := |order|;
    forall b | m - |idx| <= b < m ensures Ranked(freqs, order)[b] in idx {
      ReversedTailAt(Ranked(freqs, order), topN, m - 1 - b);
    }
  }

  /** With the default top_n, at most eight bins are reported, and all positive bins when
      there are no more than eight. */
  lemma DefaultReportsAtMostEight(freqs: seq<real>, power: seq<real>, periods: seq<Option<real>>,
                                  order: seq<nat>)
    requires |power| == |freqs| && |periods| == |freqs|
    requires IsArgsort(BinPowers(freqs, power), order)
    ensures |TopPeriods(freqs, power, periods, DefaultTopN, order)| <= 8
    ensures |PositiveBins(freqs)| <= 8 ==>
      |TopPeriods(freqs, power, periods, DefaultTopN, order)| == |PositiveBins(freqs)|
  {
  }

  /** top_periods returns [] exactly when no bin has a positive frequency; otherwise it
      returns min(top_n, bins) peaks (all of them for top_n = 0). */
  lemma TopPeriodsEmptyIff(freqs: seq<real>, power: seq<real>, periods: seq<Option<real>>,
                           topN: nat, order: seq<nat>)
    requires |power| == |freqs| && |periods| == |freqs|
    requires IsArgsort(BinPowers(freqs, power), order)
    ensures TopPeriods(freqs, power, periods, topN, order) == [] <==>
      forall i :: 0 <= i < |freqs| ==> freqs[i] <= 0.0
  {
    PositiveBinsFacts(freqs);
    if |PositiveBins(freqs)| > 0 {
      var i := PositiveBins(freqs)[0];
      assert freqs[i] > 0.0;
    }
  }
}
