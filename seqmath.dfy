/**
 * Sums and means over real sequences (numpy's sum and mean, with `real`
 * standing for float), and Python's negative slicing and reversal.
 */
module SeqMath {

  /** np.sum */
  function Sum(s: seq<real>): real
    decreases |s|
  {
    if |s| == 0 then 0.0 else s[0] + Sum(s[1..])
  }

  /** np.mean of a non-empty sequence */
  function Mean(s: seq<real>): real
    requires |s| > 0
  {
    Sum(s) / (|s| as real)
  }

  /** Every element of `s` lies in [lo, hi]. */
  predicate InRange(s: seq<real>, lo: real, hi: real)
  {
    forall i :: 0 <= i < |s| ==> lo <= s[i] <= hi
  }

  /** All elements of `s` are equal. */
  predicate AllEqual(s: seq<real>)
  {
    forall i, j :: 0 <= i < |s| && 0 <= j < |s| ==> s[i] == s[j]
  }

  lemma {:induction false} SumBounds(s: seq<real>, lo: real, hi: real)
    requires InRange(s, lo, hi)
    ensures lo * (|s| as real) <= Sum(s) <= hi * (|s| as real)
    decreases |s|
  {
    if |s| > 0 {
      assert InRange(s[1..], lo, hi) by {
        forall i | 0 <= i < |s[1..]| ensures lo <= s[1..][i] <= hi {
          assert s[1..][i] == s[i + 1];
        }
      }
      SumBounds(s[1..], lo, hi);
      assert (|s| as real) == (|s[1..]| as real) + 1.0;
    }
  }

  /** A mean lies between any lower and upper bound of its samples. */
  lemma MeanBounds(s: seq<real>, lo: real, hi: real)
    requires |s| > 0 && InRange(s, lo, hi)
    ensures lo <= Mean(s) <= hi
  {
    var n := |s| as real;
    SumBounds(s, lo, hi);
    assert lo * n <= Sum(s) <= hi * n;
    DivBounds(Sum(s), n, lo, hi);
  }

  lemma DivBounds(x: real, n: real, lo: real, hi: real)
    requires n > 0.0 && lo * n <= x <= hi * n
    ensures lo <= x / n <= hi
  {
    assert x / n * n == x;
  }

  /** The mean of a constant sequence is that constant. */
  lemma MeanConstant(s: seq<real>, c: real)
    requires |s| > 0 && InRange(s, c, c)
    ensures Mean(s) == c
  {
    MeanBounds(s, c, c);
  }

  /** A sum of non-negative terms is zero only if every term is zero. */
  lemma {:induction false} SumZeroOfNonnegative(s: seq<real>)
    requires forall i :: 0 <= i < |s| ==> s[i] >= 0.0
    ensures Sum(s) >= 0.0
    ensures Sum(s) == 0.0 ==> forall i :: 0 <= i < |s| ==> s[i] == 0.0
    decreases |s|
  {
    if |s| > 0 {
      assert forall i :: 0 <= i < |s[1..]| ==> s[1..][i] == s[i + 1];
      SumZeroOfNonnegative(s[1..]);
      if Sum(s) == 0.0 {
        assert s[0] == 0.0 && Sum(s[1..]) == 0.0;
        forall i | 0 <= i < |s| ensures s[i] == 0.0 {
          if i > 0 {
            assert s[i] == s[1..][i - 1];
          }
        }
      }
    }
  }

  /** Python's `s[-n:]` for n >= 0: with n == 0 the slice is `s[0:]`, the whole sequence. */
  function PyTail<T>(s: seq<T>, n: nat): (r: seq<T>)
    ensures |r| == (if n == 0 || n >= |s| then |s| else n)
    ensures r == s[|s| - |r|..]
  {
    if n == 0 || n >= |s| then s else s[|s| - n..]
  }

  /** Python's `s[::-1]` */
  function Reverse<T>(s: seq<T>): (r: seq<T>)
    ensures |r| == |s|
  {
    seq(|s|, i requires 0 <= i < |s| => s[|s| - 1 - i])
  }

  /** np.full(n, x) */
  function Repeat<T>(x: T, n: nat): (r: seq<T>)
    ensures |r| == n
    ensures forall i :: 0 <= i < n ==> r[i] == x
  {
    seq(n, _ => x)
  }
}
