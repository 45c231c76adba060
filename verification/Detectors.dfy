/**
 The three detectors (backend/app/detection/strategies): z-score, exponentially weighted mean
 and signature frequency.

 The deviation of a baseline is the square root of its population variance. Comparisons with a
 multiple of it are stated on squares, so that no root is taken.
 */
module Detectors {
  import opened Wrappers
  import opened Reals

  datatype Strategy = ZScore | Ewma | SignatureFrequency

  /** A plain ratio, or a deviation divided by the root of a variance. */
  datatype Score = Ratio(value: real) | Standardised(deviation: real, variance: real)

  datatype AnomalySignal = AnomalySignal(strategy: Strategy, score: Score, baselineValue: real, currentValue: real)

  function Mean(s: seq<real>): real
    requires s != []
  {
    Sum(s) / |s| as real
  }

  /** The distances of s from m. */
  function Deviations(s: seq<real>, m: real): (d: seq<real>)
    ensures |d| == |s|
  {
    if s == [] then [] else [s[0] - m] + Deviations(s[1..], m)
  }

  lemma {:induction false} DeviationAt(s: seq<real>, m: real, i: nat)
    requires i < |s|
    ensures Deviations(s, m)[i] == s[i] - m
  {
    if i > 0 { DeviationAt(s[1..], m, i - 1); }
  }

  /** The population variance. */
  function Variance(s: seq<real>): real
    requires s != []
  {
    Dot(Deviations(s, Mean(s)), Deviations(s, Mean(s))) / |s| as real
  }

  /** x >= t * sqrt(v), for v > 0. */
  predicate ReachesDeviations(x: real, t: real, v: real) {
    if t >= 0.0 then x >= 0.0 && Sq(x) >= Mul(Sq(t), v) else x >= 0.0 || Sq(x) <= Mul(Sq(t), v)
  }

  // ----- Z-score -----

  function ZScoreDetect(threshold: real, minSamples: int, baseline: seq<real>, current: real): Option<AnomalySignal> {
    if |baseline| < minSamples || baseline == [] then None
    else
      var mean, variance := Mean(baseline), Variance(baseline);
      if variance == 0.0 then None
      else if ReachesDeviations(current - mean, threshold, variance)
      then Some(AnomalySignal(ZScore, Standardised(current - mean, variance), mean, current))
      else None
  }

  lemma {:induction false} DeviationsSum(s: seq<real>, m: real)
    ensures Sum(Deviations(s, m)) == Sum(s) - Mul(|s| as real, m)
  {
    if s != [] {
      DeviationsSum(s[1..], m);
      assert Deviations(s, m)[1..] == Deviations(s[1..], m);
    }
  }

  lemma DeviationsCancel(s: seq<real>)
    requires s != []
    ensures Sum(Deviations(s, Mean(s))) == 0.0
  {
    DeviationsSum(s, Mean(s));
    Quotient(Sum(s), |s| as real);
  }

  lemma VarianceTimesSize(s: seq<real>)
    requires s != []
    ensures var d := Deviations(s, Mean(s)); Mul(|s| as real, Variance(s)) == Dot(d, d)
    ensures Variance(s) >= 0.0
  {
    var d, n := Deviations(s, Mean(s)), |s| as real;
    NormNonNegative(d);
    Quotient(Dot(d, d), n);
    MulSign(n, Variance(s));
  }

  // A deviation is minus the sum of the others, so Cauchy-Schwarz bounds its square.
  lemma DeviationShare(d: seq<real>, k: nat, n: real)
    requires k < |d| && Sum(d) == 0.0 && n == |d| as real
    ensures Mul(n, Sq(d[k])) <= Mul(n - 1.0, Dot(d, d))
  {
    hide Sum, Dot, Without, Sq;
    var rest, xx, q := Without(d, k), Sq(d[k]), Dot(d, d);
    WithoutSums(d, k);
    SquareOfSum(rest);
    SqSign(d[k]);
    assert Sum(rest) == -d[k] && |rest| as real == n - 1.0;
    assert xx <= Mul(n - 1.0, q - xx);
    assert Mul(n - 1.0, q - xx) == Mul(n - 1.0, q) - (Mul(n, xx) - xx);
  }

  /** Samuelson: no element is more than sqrt(n - 1) deviations away from the mean. */
  lemma Samuelson(s: seq<real>, k: nat, n: real)
    requires k < |s| && n == |s| as real
    ensures Sq(s[k] - Mean(s)) <= Mul(n - 1.0, Variance(s))
  {
    hide Sq, Dot, Sum, Mean, Variance, Mul;
    var d, v := Deviations(s, Mean(s)), Variance(s);
    DeviationsCancel(s);
    DeviationAt(s, Mean(s), k);
    DeviationShare(d, k, n);
    VarianceTimesSize(s);
    MulAssoc(n - 1.0, n, v);
    CancelFactor(n, Sq(d[k]), Mul(n - 1.0, v));
  }

  /** Enough deviations above the mean is at least every element; more than enough is above it. */
  lemma BeyondSamuelson(s: seq<real>, k: nat, current: real, t: real, n: real)
    requires k < |s| && n == |s| as real && t >= 0.0 && Variance(s) > 0.0
    requires ReachesDeviations(current - Mean(s), t, Variance(s))
    ensures Sq(t) >= n - 1.0 ==> current >= s[k]
    ensures Sq(t) > n - 1.0 ==> current > s[k]
  {
    hide Sq, Mul, Mean, Variance;
    var v, x, y, gap := Variance(s), current - Mean(s), s[k] - Mean(s), Sq(t) - (n - 1.0);
    Samuelson(s, k, n);
    MulSign(v, gap);
    MulAdd(v, Sq(t), n - 1.0);
    MulAdd(Sq(t), v, v);
    MulAdd(n - 1.0, v, v);
    if y >= 0.0 { SqOrder(y, x); }
    SqSign(x);
    if x == 0.0 { MulSign(x, x); SqOfZero(); }
    SqSign(y);
  }

  lemma SqOfZero()
    ensures Sq(0.0) == 0.0
  {
  }

  // ----- A baseline with one spike -----

  /** The number n * m and n - 1 zeros: mean m, variance m * m * (n - 1). */
  function Spike(n: nat, m: real): (s: seq<real>)
    requires n > 0
    ensures |s| == n
  {
    [Mul(n as real, m)] + Constant(0.0, n - 1)
  }

  lemma {:induction false} ConstantDeviations(c: real, n: nat, m: real)
    ensures Deviations(Constant(c, n), m) == Constant(c - m, n)
  {
    if n > 0 {
      ConstantDeviations(c, n - 1, m);
      assert Constant(c, n)[1..] == Constant(c, n - 1);
    }
  }

  lemma MeanFromSum(s: seq<real>, m: real)
    requires s != [] && Sum(s) == Mul(|s| as real, m)
    ensures Mean(s) == m
  {
    Quotient(Sum(s), |s| as real);
    CancelFactor(|s| as real, Mean(s), m);
  }

  lemma SpikeMean(n: nat, m: real)
    requires n > 0
    ensures Mean(Spike(n, m)) == m
  {
    var s, zeros := Spike(n, m), Constant(0.0, n - 1);
    MulSign((n - 1) as real, 0.0);
    hide Mean, Mul, Sum, Constant;
    SumSplit([Mul(n as real, m)], zeros);
    SingletonSums(Mul(n as real, m));
    ConstantSums(0.0, n - 1);
    MeanFromSum(s, m);
  }

  lemma SpikeShape(n: nat, m: real)
    requires n > 0
    ensures Deviations(Spike(n, m), m) == [Mul(n as real - 1.0, m)] + Constant(-m, n - 1)
  {
    var s := Spike(n, m);
    ConstantDeviations(0.0, n - 1, m);
    assert n as real * m - m == (n as real - 1.0) * m;
    hide Constant;
    assert s[1..] == Constant(0.0, n - 1);
  }

  // (r - 1)^2 m^2 + (r - 1) m^2 is r times (r - 1) m^2.
  lemma SpikeSquares(r: real, m: real)
    ensures Sq(Mul(r - 1.0, m)) + Mul(r - 1.0, Sq(-m)) == Mul(r, Mul(r - 1.0, Sq(m)))
  {
    var q, k := Sq(m), r - 1.0;
    var z := Mul(k, q);
    SqSign(m);
    SqOfProduct(k, m);
    MulAssoc(k, k, q);
    MulAdd(z, k, 1.0);
    assert Mul(z, 1.0) == z;
    MulAdd(r, z, 0.0);
    MulAdd(k, z, 0.0);
  }

  lemma SpikeVariance(n: nat, m: real)
    requires n > 0
    ensures Variance(Spike(n, m)) == Mul(n as real - 1.0, Sq(m))
  {
    var s, tail, r := Spike(n, m), Constant(-m, n - 1), n as real;
    hide *;
    SpikeMean(n, m);
    SpikeShape(n, m);
    DotSplit([Mul(r - 1.0, m)], tail, [Mul(r - 1.0, m)], tail);
    SingletonSums(Mul(r - 1.0, m));
    ConstantSums(-m, n - 1);
    SpikeSquares(r, m);
    VarianceTimesSize(s);
    CancelFactor(r, Variance(s), Mul(r - 1.0, Sq(m)));
  }

  // Half of a + b lies between the root of ab and the larger of the two.
  lemma MidpointSquare(a: real, b: real)
    ensures Sq((a + b) / 2.0) >= Mul(a, b)
  {
    SqSign((a - b) / 2.0);
    SqDifference((a - b) / 2.0, (a + b) / 2.0);
  }

  // ----- Exponentially weighted mean -----

  /** The value of the smoothing loop after the whole of s. */
  function Smoothed(alpha: real, s: seq<real>): real
    requires s != []
  {
    if |s| == 1 then s[0]
    else Mul(alpha, s[|s| - 1]) + Mul(1.0 - alpha, Smoothed(alpha, s[..|s| - 1]))
  }

  function Scale(c: real, s: seq<real>): (t: seq<real>)
    ensures |t| == |s|
  {
    if s == [] then [] else [Mul(c, s[0])] + Scale(c, s[1..])
  }

  function Power(x: real, n: nat): real {
    if n == 0 then 1.0 else Mul(x, Power(x, n - 1))
  }

  /** The closed form: the last of n samples weighs alpha, each one before it (1 - alpha) times less. */
  function Weight(alpha: real, n: nat, i: nat): real
    requires i < n
  {
    if i == 0 then Power(1.0 - alpha, n - 1) else Mul(alpha, Power(1.0 - alpha, n - 1 - i))
  }

  function Weights(alpha: real, n: nat): (w: seq<real>)
    ensures |w| == n
    ensures forall i :: 0 <= i < n ==> w[i] == Weight(alpha, n, i)
  {
    seq(n, i requires 0 <= i < n => Weight(alpha, n, i))
  }

  lemma WeightGrows(alpha: real, n: nat, i: nat)
    requires i < n
    ensures Weight(alpha, n + 1, i) == Mul(1.0 - alpha, Weight(alpha, n, i))
  {
    MulAssoc(alpha, 1.0 - alpha, Power(1.0 - alpha, n - 1 - i));
    assert Power(1.0 - alpha, n - i) == Mul(1.0 - alpha, Power(1.0 - alpha, n - 1 - i));
  }

  lemma LastWeight(alpha: real, n: nat)
    requires n > 1
    ensures Weight(alpha, n, n - 1) == alpha
  {
    assert Power(1.0 - alpha, 0) == 1.0;
  }

  lemma {:induction false} ScaleAt(c: real, s: seq<real>, i: nat)
    requires i < |s|
    ensures Scale(c, s)[i] == Mul(c, s[i])
  {
    if i > 0 { ScaleAt(c, s[1..], i - 1); }
  }

  lemma WeightsGrow(alpha: real, n: nat)
    requires n > 0
    ensures Weights(alpha, n + 1) == Scale(1.0 - alpha, Weights(alpha, n)) + [alpha]
  {
    var w, v := Weights(alpha, n + 1), Scale(1.0 - alpha, Weights(alpha, n)) + [alpha];
    LastWeight(alpha, n + 1);
    hide Weight, Scale, Mul;
    forall i | 0 <= i < n ensures w[i] == v[i] {
      WeightGrows(alpha, n, i);
      ScaleAt(1.0 - alpha, Weights(alpha, n), i);
    }
  }

  lemma {:induction false} DotScale(c: real, a: seq<real>, b: seq<real>)
    requires |a| == |b|
    ensures Dot(Scale(c, a), b) == Mul(c, Dot(a, b))
    ensures Sum(Scale(c, a)) == Mul(c, Sum(a))
  {
    if a == [] {
      MulSign(c, 0.0);
    } else {
      DotScale(c, a[1..], b[1..]);
      assert Scale(c, a)[1..] == Scale(c, a[1..]);
      hide Mul;
      MulAssoc(c, a[0], b[0]);
      MulAdd(c, Mul(a[0], b[0]), Dot(a[1..], b[1..]));
      MulAdd(c, a[0], Sum(a[1..]));
    }
  }

  /** The loop computes the weighted sum of its samples. */
  lemma {:induction false} SmoothedIsWeighted(alpha: real, s: seq<real>)
    requires s != []
    ensures Smoothed(alpha, s) == Dot(Weights(alpha, |s|), s)
  {
    var n := |s| - 1;
    if n == 0 {
      assert Weights(alpha, 1)[0] == Weight(alpha, 1, 0) == 1.0;
    } else {
      SmoothedIsWeighted(alpha, s[..n]);
      WeightsGrow(alpha, n);
      WeightedStep(alpha, Weights(alpha, n), s[..n], s[n]);
      assert s == s[..n] + [s[n]];
    }
  }

  lemma DotSingle(x: real, y: real)
    ensures Dot([x], [y]) == Mul(x, y)
  {
  }

  lemma WeightedStep(alpha: real, w: seq<real>, init: seq<real>, last: real)
    requires |w| == |init|
    ensures Dot(Scale(1.0 - alpha, w) + [alpha], init + [last]) ==
            Mul(alpha, last) + Mul(1.0 - alpha, Dot(w, init))
  {
    hide *;
    DotSingle(alpha, last);
    DotSplit(Scale(1.0 - alpha, w), [alpha], init, [last]);
    DotScale(1.0 - alpha, w, init);
  }

  /** For alpha in [0, 1] the weights are non-negative and add up to 1. */
  lemma {:induction false} WeightsAreConvex(alpha: real, n: nat)
    requires 0.0 <= alpha <= 1.0 && n > 0
    ensures Sum(Weights(alpha, n)) == 1.0
    ensures NonNegative(Weights(alpha, n))
  {
    if n == 1 {
      assert Weights(alpha, 1) == [1.0];
      SingletonSums(1.0);
    } else {
      WeightsAreConvex(alpha, n - 1);
      WeightsGrow(alpha, n - 1);
      ConvexStep(alpha, Weights(alpha, n - 1));
    }
  }

  lemma ConvexStep(alpha: real, w: seq<real>)
    requires 0.0 <= alpha <= 1.0 && Sum(w) == 1.0 && NonNegative(w)
    ensures Sum(Scale(1.0 - alpha, w) + [alpha]) == 1.0 && NonNegative(Scale(1.0 - alpha, w) + [alpha])
  {
    hide Sum, Dot, Scale, Mul;
    var b := 1.0 - alpha;
    MulOne(b);
    DotScale(b, w, w);
    SumSplit(Scale(b, w), [alpha]);
    SingletonSums(alpha);
    forall i | 0 <= i < |w| ensures Scale(b, w)[i] >= 0.0 {
      ScaleAt(b, w, i);
      MulSign(b, w[i]);
    }
  }

  lemma MulOne(x: real)
    ensures Mul(x, 1.0) == x
  {
  }

  ghost predicate NonNegative(w: seq<real>) {
    forall i :: 0 <= i < |w| ==> w[i] >= 0.0
  }

  ghost predicate Bounded(s: seq<real>, lo: real, hi: real) {
    forall i :: 0 <= i < |s| ==> lo <= s[i] <= hi
  }

  lemma WeightedBounds(x: real, y: real, lo: real, hi: real)
    requires x >= 0.0 && lo <= y <= hi
    ensures Mul(lo, x) <= Mul(x, y) <= Mul(hi, x)
  {
    MulSign(x, y - lo);
    MulSign(x, hi - y);
    MulAdd(x, y, lo);
    MulAdd(x, hi, y);
    MulAdd(lo, x, x);
    MulAdd(hi, x, x);
  }

  lemma {:induction false} ConvexBounds(w: seq<real>, s: seq<real>, lo: real, hi: real)
    requires |w| == |s| && NonNegative(w) && Bounded(s, lo, hi)
    ensures Mul(lo, Sum(w)) <= Dot(w, s) <= Mul(hi, Sum(w))
  {
    if s == [] {
      MulSign(lo, 0.0);
      MulSign(hi, 0.0);
    } else {
      ConvexBounds(w[1..], s[1..], lo, hi);
      WeightedBounds(w[0], s[0], lo, hi);
      hide Mul;
      MulAdd(lo, w[0], Sum(w[1..]));
      MulAdd(hi, w[0], Sum(w[1..]));
    }
  }

  /** The smoothed value stays within the bounds of the baseline. */
  lemma SmoothedWithinBaseline(alpha: real, s: seq<real>, lo: real, hi: real)
    requires s != [] && 0.0 <= alpha <= 1.0
    requires Bounded(s, lo, hi)
    ensures lo <= Smoothed(alpha, s) <= hi
  {
    SmoothedIsWeighted(alpha, s);
    WeightsAreConvex(alpha, |s|);
    ConvexBounds(Weights(alpha, |s|), s, lo, hi);
    assert Mul(lo, 1.0) == lo && Mul(hi, 1.0) == hi;
  }

  function EwmaSignal(alpha: real, driftThreshold: real, minSamples: int, baseline: seq<real>,
                      current: real): Option<AnomalySignal> {
    if |baseline| < minSamples || baseline == [] || Variance(baseline) == 0.0 then None
    else
      var ewma := Smoothed(alpha, baseline);
      if ReachesDeviations(current - ewma, driftThreshold, Variance(baseline))
      then Some(AnomalySignal(Ewma, Standardised(current - ewma, Variance(baseline)), ewma, current))
      else None
  }

  /** The source fails on an empty baseline, which it meets only when minSamples is not positive. */
  method EwmaDetect(alpha: real, driftThreshold: real, minSamples: int, baseline: seq<real>, current: real)
    returns (signal: Option<AnomalySignal>)
    requires baseline == [] ==> minSamples > 0
    ensures signal == EwmaSignal(alpha, driftThreshold, minSamples, baseline, current)
  {
    if |baseline| < minSamples { return None; }
    var variance := Variance(baseline);
    if variance == 0.0 { return None; }
    var ewma := baseline[0];
    for i := 1 to |baseline|
      invariant ewma == Smoothed(alpha, baseline[..i])
    {
      assert baseline[..i + 1][..i] == baseline[..i];
      ewma := Mul(alpha, baseline[i]) + Mul(1.0 - alpha, ewma);
    }
    assert baseline[..|baseline|] == baseline;
    if ReachesDeviations(current - ewma, driftThreshold, variance) {
      return Some(AnomalySignal(Ewma, Standardised(current - ewma, variance), ewma, current));
    }
    return None;
  }

  /** With a positive threshold a drift signal is above the smoothed value, hence above some sample. */
  lemma EwmaSignalIsAbove(alpha: real, threshold: real, minSamples: int, baseline: seq<real>, current: real)
    requires 0.0 <= alpha <= 1.0 && threshold > 0.0
    requires EwmaSignal(alpha, threshold, minSamples, baseline, current).Some?
    ensures current > Smoothed(alpha, baseline)
    ensures exists i :: 0 <= i < |baseline| && baseline[i] < current
  {
    var e, v := Smoothed(alpha, baseline), Variance(baseline);
    VarianceTimesSize(baseline);
    SqSign(threshold);
    MulSign(Sq(threshold), v);
    SqOfZero();
    if forall i :: 0 <= i < |baseline| ==> baseline[i] >= current {
      var hi := UpperBound(baseline);
      SmoothedWithinBaseline(alpha, baseline, current, hi);
    }
  }

  lemma {:induction false} UpperBound(s: seq<real>) returns (hi: real)
    ensures forall i :: 0 <= i < |s| ==> s[i] <= hi
  {
    if s == [] { hi := 0.0; }
    else {
      hi := UpperBound(s[1..]);
      if hi < s[0] { hi := s[0]; }
      assert forall i :: 1 <= i < |s| ==> s[i] == s[1..][i - 1];
    }
  }

  // ----- Signature frequency -----

  function SignatureDetect(multiplier: real, floor: int, baseline: seq<real>, current: real): Option<AnomalySignal> {
    var mean := if baseline == [] then 0.0 else Mean(baseline);
    var threshold := if Mul(multiplier, mean) >= floor as real then Mul(multiplier, mean) else floor as real;
    if current >= threshold
    then Some(AnomalySignal(SignatureFrequency, Ratio(if mean > 0.0 then current / mean else current), mean, current))
    else None
  }

  /** A burst is at least the floor, and its score at least the multiplier when there is a mean to compare with. */
  lemma SignatureBurst(multiplier: real, floor: int, baseline: seq<real>, current: real)
    requires SignatureDetect(multiplier, floor, baseline, current).Some?
    ensures var signal := SignatureDetect(multiplier, floor, baseline, current).value;
            && signal.currentValue >= floor as real
            && (signal.baselineValue > 0.0 ==> signal.score.value >= multiplier)
  {
    var signal := SignatureDetect(multiplier, floor, baseline, current).value;
    var mean := signal.baselineValue;
    if mean > 0.0 {
      Quotient(current, mean);
      MulAdd(mean, multiplier, 0.0);
      CancelFactor(mean, multiplier, current / mean);
    }
  }
}
