/**
 * The statistics `finishCalibration` computes over its sample buffers: a
 * left-to-right sum, the mean, and the per-axis variance with an `N - 1`
 * divisor (the diagonal of the accumulated covariance).  Each axis is
 * independent, so a NaN in one axis leaves the others' results alone.
 */
module CalibrationStats {
  import opened Doubles

  /** The accumulation loop: `sum += x` from the front. */
  function Sum(xs: seq<Double>): Double {
    if |xs| == 0 then Zero else Plus(Sum(xs[..|xs| - 1]), xs[|xs| - 1])
  }

  /** The same sum over exact reals, the reference for `Sum`. */
  function RealSum(rs: seq<real>): real {
    if |rs| == 0 then 0.0 else RealSum(rs[..|rs| - 1]) + rs[|rs| - 1]
  }

  predicate AllFiniteSeq(xs: seq<Double>) {
    forall i :: 0 <= i < |xs| ==> xs[i].Finite?
  }

  function Values(xs: seq<Double>): (rs: seq<real>)
    requires AllFiniteSeq(xs)
    ensures |rs| == |xs| && forall i :: 0 <= i < |xs| ==> xs[i] == Finite(rs[i])
  {
    seq(|xs|, i requires 0 <= i < |xs| => xs[i].value)
  }

  /** `mean /= size`. */
  function Mean(xs: seq<Double>): Double
    requires |xs| > 0
  {
    Over(Sum(xs), |xs| as real)
  }

  /** `(x - mean)^2` for every sample. */
  function SquaredDeviations(xs: seq<Double>, m: Double): (ds: seq<Double>)
    ensures |ds| == |xs|
  {
    seq(|xs|, i requires 0 <= i < |xs| => Times(Minus(xs[i], m), Minus(xs[i], m)))
  }

  /** `covariance /= size - 1`, one diagonal entry. */
  function Variance(xs: seq<Double>): Double
    requires |xs| > 1
  {
    Over(Sum(SquaredDeviations(xs, Mean(xs))), (|xs| - 1) as real)
  }

  /** The exact real mean, the reference for `Mean`. */
  function RealMean(rs: seq<real>): real
    requires |rs| > 0
  {
    RealSum(rs) / |rs| as real
  }

  /** The exact real sample variance with an `N - 1` divisor, the reference for `Variance`. */
  function RealVariance(rs: seq<real>): real
    requires |rs| > 1
  {
    var m := RealMean(rs);
    RealSum(seq(|rs|, i requires 0 <= i < |rs| => (rs[i] - m) * (rs[i] - m))) / (|rs| - 1) as real
  }

  /** Over finite samples the accumulated double is the exact real sum. */
  lemma {:induction false} SumOfFinite(xs: seq<Double>)
    requires AllFiniteSeq(xs)
    ensures Sum(xs) == Finite(RealSum(Values(xs)))
  {
    if |xs| > 0 {
      var init := xs[..|xs| - 1];
      SumOfFinite(init);
      assert Values(init) == Values(xs)[..|xs| - 1];
    }
  }

  /** One non-finite sample makes the sum non-finite. */
  lemma {:induction false} SumOfNonFinite(xs: seq<Double>, k: nat)
    requires k < |xs| && xs[k] == NonFinite
    ensures Sum(xs) == NonFinite
  {
    if k < |xs| - 1 {
      SumOfNonFinite(xs[..|xs| - 1], k);
    }
  }

  /** Sums of a constant. */
  lemma {:induction false} RealSumConstant(n: nat, v: real)
    ensures RealSum(seq(n, _ => v)) == n as real * v
  {
    if n > 0 {
      assert seq(n, _ => v)[..n - 1] == seq(n - 1, _ => v);
      RealSumConstant(n - 1, v);
    }
  }

  /** A sum of non-negative reals is non-negative. */
  lemma {:induction false} RealSumNonNegative(rs: seq<real>)
    requires forall i :: 0 <= i < |rs| ==> 0.0 <= rs[i]
    ensures 0.0 <= RealSum(rs)
  {
    if |rs| > 0 {
      RealSumNonNegative(rs[..|rs| - 1]);
    }
  }

  /** The mean of finite samples is their exact real average. */
  lemma MeanOfFinite(xs: seq<Double>)
    requires |xs| > 0 && AllFiniteSeq(xs)
    ensures Mean(xs) == Finite(RealSum(Values(xs)) / |xs| as real)
  {
    SumOfFinite(xs);
  }

  /** `n` copies of one finite value average to that value. */
  lemma MeanOfConstant(n: nat, v: real)
    requires n > 0
    ensures Mean(seq(n, _ => Finite(v))) == Finite(v)
  {
    var xs := seq(n, _ => Finite(v));
    SumOfFinite(xs);
    assert Values(xs) == seq(n, _ => v);
    RealSumConstant(n, v);
    assert (n as real * v) / n as real == v;
  }

  /** `n` copies of one finite value have variance exactly zero. */
  lemma VarianceOfConstant(n: nat, v: real)
    requires n > 1
    ensures Variance(seq(n, _ => Finite(v))) == Zero
  {
    var xs := seq(n, _ => Finite(v));
    MeanOfConstant(n, v);
    var ds := SquaredDeviations(xs, Finite(v));
    assert ds == seq(n, _ => Zero);
    SumOfFinite(ds);
    assert Values(ds) == seq(n, _ => 0.0);
    RealSumConstant(n, 0.0);
  }

  /** The variance of finite samples is finite and non-negative. */
  lemma VarianceNonNegative(xs: seq<Double>)
    requires |xs| > 1 && AllFiniteSeq(xs)
    ensures Variance(xs).Finite? && 0.0 <= Variance(xs).value
  {
    MeanOfFinite(xs);
    var ds := SquaredDeviations(xs, Mean(xs));
    assert AllFiniteSeq(ds);
    SumOfFinite(ds);
    var rs := Values(ds);
    forall i | 0 <= i < |rs|
      ensures 0.0 <= rs[i]
    {
      var d := xs[i].value - Mean(xs).value;
      assert rs[i] == d * d;
    }
    RealSumNonNegative(rs);
  }

  /**
   * Over finite samples the double mean and variance are the exact real
   * ones, and the variance is never negative.
   */
  lemma StatsOfFinite(xs: seq<Double>)
    requires |xs| > 1 && AllFiniteSeq(xs)
    ensures Mean(xs) == Finite(RealMean(Values(xs)))
    ensures Variance(xs) == Finite(RealVariance(Values(xs)))
    ensures 0.0 <= RealVariance(Values(xs))
  {
    MeanOfFinite(xs);
    VarianceNonNegative(xs);
    var rs := Values(xs);
    var m := RealMean(rs);
    var ds := SquaredDeviations(xs, Mean(xs));
    assert AllFiniteSeq(ds);
    SumOfFinite(ds);
    assert Mean(xs) == Finite(m);
    var sq := seq(|rs|, i requires 0 <= i < |rs| => (rs[i] - m) * (rs[i] - m));
    forall i | 0 <= i < |rs|
      ensures Values(ds)[i] == sq[i]
    {
      assert xs[i] == Finite(rs[i]);
    }
    assert Values(ds) == sq;
  }

  /** A non-finite sample makes both the mean and the variance non-finite. */
  lemma StatsOfNonFinite(xs: seq<Double>, k: nat)
    requires 1 < |xs| && k < |xs| && xs[k] == NonFinite
    ensures Mean(xs) == NonFinite && Variance(xs) == NonFinite
  {
    SumOfNonFinite(xs, k);
    SumOfNonFinite(SquaredDeviations(xs, Mean(xs)), k);
  }
}
