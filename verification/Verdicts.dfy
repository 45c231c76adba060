/**
 When the three detectors give a signal, both ways: with d for the standard deviation of the baseline, the
 deviation is measured in multiples of d (backend/app/detection/strategies).
 */
module Verdicts {
  import opened Wrappers
  import opened Reals
  import opened Detectors

  /** d is the standard deviation of the baseline: positive, and its square the population variance. */
  ghost predicate Deviation(baseline: seq<real>, d: real) {
    baseline != [] && d > 0.0 && Sq(d) == Variance(baseline)
  }

  /** Comparing squares is comparing with the multiple of the deviation. */
  lemma ReachesIff(x: real, t: real, d: real)
    requires d > 0.0
    ensures ReachesDeviations(x, t, Sq(d)) <==> x >= Mul(t, d)
  {
    hide Sq, Mul;
    SqOfProduct(t, d);
    MulSign(t, d);
    MulSign(d, t);
    MulAdd(t, d, 0.0);
    SqSign(Mul(t, d));
    SqSign(x);
    if t >= 0.0 {
      if x >= 0.0 { SqOrder(Mul(t, d), x); }
    } else if x < 0.0 {
      SqOrder(-x, -Mul(t, d));
    }
  }

  // ----- Mean and variance -----

  lemma {:induction false} DeviationsDot(s: seq<real>, m: real)
    ensures Dot(Deviations(s, m), Deviations(s, m)) == Dot(s, s) - 2.0 * Mul(m, Sum(s)) + Mul(|s| as real, Sq(m))
  {
    if s == [] {
      MulSign(m, 0.0);
      MulSign(0.0, Sq(m));
    } else {
      var d := Deviations(s, m);
      DeviationsDot(s[1..], m);
      assert d[1..] == Deviations(s[1..], m) && d[0] == s[0] - m;
      hide Mul;
      SqOfSum(s[0], -m);
      SqSign(m);
      MulAdd(s[0], 0.0, m);
      MulAdd(m, s[0], Sum(s[1..]));
      MulAdd(Sq(m), (|s| - 1) as real, 1.0);
      MulAdd(|s| as real, Sq(m), 0.0);
      MulAdd((|s| - 1) as real, Sq(m), 0.0);
      MulOne(Sq(m));
    }
  }

  /** The variance is the mean of the squares less the square of the mean. */
  lemma VarianceOfSquares(s: seq<real>, n: real)
    requires s != [] && n == |s| as real
    ensures Mul(n, Mean(s)) == Sum(s)
    ensures Mul(n, Variance(s)) == Dot(s, s) - Mul(n, Sq(Mean(s)))
  {
    hide Mul, Dot, Sum;
    var m := Mean(s);
    DeviationsDot(s, m);
    VarianceTimesSize(s);
    Quotient(Sum(s), n);
    MulAssoc(n, m, m);
    MulAdd(m, Sum(s), 0.0);
  }

  // ----- The verdicts -----

  /** Enough samples that vary: a z-score signal is given exactly from mean plus threshold deviations on. */
  lemma ZScoreVerdict(threshold: real, minSamples: int, baseline: seq<real>, current: real, d: real)
    requires Deviation(baseline, d)
    ensures ZScoreDetect(threshold, minSamples, baseline, current).Some? <==>
            |baseline| >= minSamples && current - Mean(baseline) >= Mul(threshold, d)
  {
    hide Mean, Variance, ReachesDeviations;
    ReachesIff(current - Mean(baseline), threshold, d);
    SqSign(d);
  }

  /** A drift signal is given exactly from the weighted mean plus threshold deviations on. */
  lemma EwmaVerdict(alpha: real, threshold: real, minSamples: int, baseline: seq<real>, current: real, d: real)
    requires Deviation(baseline, d)
    ensures EwmaSignal(alpha, threshold, minSamples, baseline, current).Some? <==>
            && |baseline| >= minSamples
            && current - Dot(Weights(alpha, |baseline|), baseline) >= Mul(threshold, d)
  {
    hide Variance, ReachesDeviations, Smoothed, Weights, Dot;
    SmoothedIsWeighted(alpha, baseline);
    ReachesIff(current - Smoothed(alpha, baseline), threshold, d);
    SqSign(d);
  }

  /** The newest sample weighs alpha, an older one 1 - alpha times the next; the oldest has the rest. */
  lemma NewestWeighsMost(alpha: real, n: nat)
    requires n > 1
    ensures var w := Weights(alpha, n);
            && w[n - 1] == alpha
            && (forall i :: 0 < i < n - 1 ==> w[i] == Mul(1.0 - alpha, w[i + 1]))
            && Mul(alpha, w[0]) == Mul(1.0 - alpha, w[1])
  {
    LastWeight(alpha, n);
    hide Mul;
    var w, b := Weights(alpha, n), 1.0 - alpha;
    forall i | 0 < i < n - 1 ensures w[i] == Mul(b, w[i + 1]) {
      assert w[i] == Mul(alpha, Mul(b, Power(b, n - 2 - i))) && w[i + 1] == Mul(alpha, Power(b, n - 2 - i));
      MulAssoc(alpha, b, Power(b, n - 2 - i));
    }
    assert w[0] == Mul(b, Power(b, n - 2)) && w[1] == Mul(alpha, Power(b, n - 2));
    MulAssoc(alpha, b, Power(b, n - 2));
  }

  /** A baseline that does not vary has no deviation, and neither detector says anything. */
  lemma SteadyIsQuiet(alpha: real, threshold: real, minSamples: int, baseline: seq<real>, current: real, x: real)
    requires forall i :: 0 <= i < |baseline| ==> baseline[i] == x
    ensures ZScoreDetect(threshold, minSamples, baseline, current).None?
    ensures EwmaSignal(alpha, threshold, minSamples, baseline, current).None?
  {
    if baseline != [] { SteadyVariance(baseline, x); }
  }

  lemma {:induction false} SteadyIsConstant(s: seq<real>, x: real)
    requires forall i :: 0 <= i < |s| ==> s[i] == x
    ensures s == Constant(x, |s|)
  {
    if s != [] { SteadyIsConstant(s[1..], x); }
  }

  lemma SteadyVariance(s: seq<real>, x: real)
    requires s != [] && forall i :: 0 <= i < |s| ==> s[i] == x
    ensures Variance(s) == 0.0
  {
    hide Mul, Sum, Dot;
    var n := |s| as real;
    SteadyIsConstant(s, x);
    ConstantSums(x, |s|);
    MeanFromSum(s, x);
    ConstantDeviations(x, |s|, x);
    ConstantSums(0.0, |s|);
    SqOfZero();
    MulSign(n, 0.0);
    VarianceTimesSize(s);
    CancelFactor(n, Variance(s), 0.0);
  }

  /** A deviation exists only for a baseline that varies, and then it is unique. */
  lemma DeviationIsUnique(baseline: seq<real>, d: real, e: real)
    requires Deviation(baseline, d) && Deviation(baseline, e)
    ensures Variance(baseline) > 0.0 && d == e
  {
    hide Variance, Sq;
    SqSign(d);
    SqOrder(d, e);
    SqOrder(e, d);
  }

  /** A burst is signalled exactly from the floor and the multiple of the mean on; no baseline counts as mean 0. */
  lemma SignatureVerdict(multiplier: real, floor: int, baseline: seq<real>, current: real)
    ensures SignatureDetect(multiplier, floor, baseline, current).Some? <==>
            && current >= floor as real
            && (baseline == [] ==> current >= 0.0)
            && (baseline != [] ==> current >= Mul(multiplier, Mean(baseline)))
  {
    MulSign(multiplier, 0.0);
  }

  /** What a signal says: the value, what it was compared with, and by how many deviations or times it exceeds that. */
  lemma SignalsTell(alpha: real, threshold: real, minSamples: int, floor: int, baseline: seq<real>, current: real)
    requires baseline != []
    ensures var z := ZScoreDetect(threshold, minSamples, baseline, current);
            z.Some? ==> z.value == AnomalySignal(ZScore, Standardised(current - Mean(baseline), Variance(baseline)),
                                                 Mean(baseline), current)
    ensures var e, w := EwmaSignal(alpha, threshold, minSamples, baseline, current),
                        Dot(Weights(alpha, |baseline|), baseline);
            e.Some? ==> e.value == AnomalySignal(Ewma, Standardised(current - w, Variance(baseline)), w, current)
    ensures var b, m := SignatureDetect(threshold, floor, baseline, current), Mean(baseline);
            b.Some? ==> b.value.strategy == SignatureFrequency && b.value.score.Ratio? && b.value.baselineValue == m
                        && b.value.currentValue == current
                        && (m > 0.0 ==> Mul(m, b.value.score.value) == current)
                        && (m <= 0.0 ==> b.value.score.value == current)
  {
    hide Mean, Variance, ReachesDeviations, Smoothed, Weights, Dot;
    SmoothedIsWeighted(alpha, baseline);
    if Mean(baseline) > 0.0 { Quotient(current, Mean(baseline)); }
  }

  // ----- Units do not matter -----

  lemma {:induction false} DotScaled(c: real, a: seq<real>, b: seq<real>)
    requires |a| == |b|
    ensures Dot(a, Scale(c, b)) == Mul(c, Dot(a, b))
  {
    if a == [] {
      MulSign(c, 0.0);
    } else {
      DotScaled(c, a[1..], b[1..]);
      assert Scale(c, b)[1..] == Scale(c, b[1..]);
      hide Mul;
      MulAssoc(a[0], c, b[0]);
      MulAdd(c, Mul(a[0], b[0]), Dot(a[1..], b[1..]));
    }
  }

  lemma ScaledMoments(c: real, s: seq<real>)
    requires s != []
    ensures Mean(Scale(c, s)) == Mul(c, Mean(s)) && Variance(Scale(c, s)) == Mul(Sq(c), Variance(s))
  {
    hide Mul, Dot, Sum, Scale, Sq, Mean, Variance;
    var n, t, m := |s| as real, Scale(c, s), Mean(s);
    VarianceOfSquares(s, n);
    VarianceOfSquares(t, n);
    DotScale(c, s, s);
    DotScale(c, s, t);
    DotScaled(c, s, s);
    MulAssoc(n, c, m);
    CancelFactor(n, Mean(t), Mul(c, m));
    SquaredScale(c, s);
    SqOfProduct(c, m);
    MulAssoc(n, Sq(c), Sq(m));
    MulAssoc(n, Sq(c), Variance(s));
    MulAdd(Sq(c), Dot(s, s), Mul(n, Sq(m)));
    CancelFactor(n, Variance(t), Mul(Sq(c), Variance(s)));
  }

  lemma SquaredScale(c: real, s: seq<real>)
    ensures Dot(Scale(c, s), Scale(c, s)) == Mul(Sq(c), Dot(s, s))
  {
    hide Mul, Dot, Scale;
    DotScale(c, s, Scale(c, s));
    DotScaled(c, s, s);
    MulAssoc(c, c, Dot(s, s));
  }

  lemma ScaledSmoothed(c: real, alpha: real, s: seq<real>)
    requires s != []
    ensures Smoothed(alpha, Scale(c, s)) == Mul(c, Smoothed(alpha, s))
  {
    hide Smoothed, Weights, Dot, Scale;
    SmoothedIsWeighted(alpha, s);
    SmoothedIsWeighted(alpha, Scale(c, s));
    DotScaled(c, Weights(alpha, |s|), s);
  }

  lemma ScaledReach(c: real, x: real, t: real, v: real)
    requires c > 0.0
    ensures ReachesDeviations(Mul(c, x), t, Mul(Sq(c), v)) <==> ReachesDeviations(x, t, v)
  {
    hide Mul, Sq;
    MulSign(c, x);
    SqPositive(c);
    SqOfProduct(c, x);
    MulAssoc(Sq(t), Sq(c), v);
    CancelFactor(Sq(c), Mul(Sq(t), v), Sq(x));
    CancelFactor(Sq(c), Sq(x), Mul(Sq(t), v));
  }

  lemma SqPositive(c: real)
    requires c > 0.0
    ensures Sq(c) > 0.0
  {
    MulSign(c, c);
  }

  lemma ScaledGap(c: real, x: real, y: real)
    ensures Mul(c, x) - Mul(c, y) == Mul(c, x - y)
  {
    MulAdd(c, x, y);
  }

  lemma ScaledZero(c: real, v: real)
    requires c > 0.0
    ensures Mul(Sq(c), v) == 0.0 <==> v == 0.0
  {
    hide Mul, Sq;
    SqPositive(c);
    MulSign(Sq(c), v);
    MulSign(Sq(c), 0.0);
    CancelFactor(Sq(c), v, 0.0);
  }

  /** Counting in other units changes no verdict of the two rate detectors. */
  lemma UnitsDoNotMatter(c: real, alpha: real, threshold: real, minSamples: int, baseline: seq<real>, current: real)
    requires c > 0.0
    ensures ZScoreDetect(threshold, minSamples, Scale(c, baseline), Mul(c, current)).Some? <==>
            ZScoreDetect(threshold, minSamples, baseline, current).Some?
    ensures EwmaSignal(alpha, threshold, minSamples, Scale(c, baseline), Mul(c, current)).Some? <==>
            EwmaSignal(alpha, threshold, minSamples, baseline, current).Some?
  {
    if baseline != [] {
      hide Mul, Sq, Mean, Variance, Smoothed, Scale, ReachesDeviations;
      var m, v, e := Mean(baseline), Variance(baseline), Smoothed(alpha, baseline);
      ScaledMoments(c, baseline);
      ScaledSmoothed(c, alpha, baseline);
      ScaledGap(c, current, m);
      ScaledGap(c, current, e);
      ScaledReach(c, current - m, threshold, v);
      ScaledReach(c, current - e, threshold, v);
      ScaledZero(c, v);
    }
  }
}
