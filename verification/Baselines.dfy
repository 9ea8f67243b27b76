/** Running means and variances, the learning clock, and the store of per-name norms. */
module Baselines {
  import opened Models
  import opened Streams
  import opened Algebra

  // -------------------------------------------------------------- running stats

  datatype Stats = Stats(samples: nat, mean: real, variance: real)

  const UNLEARNED := Stats(0, 0.0, 0.0)

  function Alpha(samples: nat): (a: real)
    requires samples >= 1
    ensures 0.0 < a <= 1.0
  {
    if samples < 30 then 1.0 / samples as real else 0.05
  }

  function Observe(s: Stats, value: real): Stats {
    var samples := s.samples + 1;
    if samples == 1 then Stats(1, value, s.variance)
    else
      var alpha, delta := Alpha(samples), value - s.mean;
      Stats(samples, s.mean + alpha * delta, (1.0 - alpha) * (s.variance + alpha * delta * delta))
  }

  /**
   * Whether `gap` exceeds `sigma` standard deviations, without taking a root; see BeyondIsBeyondTheRoot.
   */
  predicate Beyond(gap: real, sigma: real, variance: real) {
    if sigma >= 0.0 then gap > 0.0 && gap * gap > sigma * sigma * variance
    else gap > 0.0 || gap * gap < sigma * sigma * variance
  }

  predicate Deviates(s: Stats, value: real, sigma: real, minimumDelta: real) {
    || s.samples < 15
    || (value - s.mean > minimumDelta
        && Beyond(value - s.mean, sigma, if s.variance < 0.0 then 0.0 else s.variance))
  }

  /** The root-free comparison is the comparison with the root, for every sign of sigma and of the gap. */
  lemma BeyondIsBeyondTheRoot(gap: real, sigma: real, variance: real, root: real)
    requires 0.0 <= root && root * root == variance
    ensures Beyond(gap, sigma, variance) <==> gap > sigma * root
  {
    var reach := sigma * root;
    SquareOfProduct(sigma, root);
    Scale(sigma * sigma, root * root, variance);
    if sigma >= 0.0 {
      NonNegativeProduct(sigma, root);
      if gap > reach {
        SquareStrict(reach, gap);
      } else if gap > 0.0 {
        SquareMonotone(gap, reach);
      }
    } else {
      NonNegativeProduct(-sigma, root);
      if gap <= 0.0 && gap > reach {
        SquareStrict(-gap, -reach);
      } else if gap <= 0.0 {
        SquareMonotone(-reach, -gap);
      }
    }
  }

  class RunningStats {
    var samples: nat
    var mean: real
    var variance: real

    function View(): Stats
      reads this
    {
      Stats(samples, mean, variance)
    }

    constructor ()
      ensures View() == UNLEARNED
    {
      samples, mean, variance := 0, 0.0, 0.0;
    }

    method Fold(value: real)
      modifies this
      ensures View() == Observe(old(View()), value)
    {
      samples := samples + 1;
      if samples == 1 {
        mean := value;
        return;
      }
      var alpha := if samples < 30 then 1.0 / samples as real else 0.05;
      var delta := value - mean;
      mean := mean + alpha * delta;
      variance := (1.0 - alpha) * (variance + alpha * delta * delta);
    }
  }

  /** The stats after a whole stream. */
  function Learned(xs: seq<real>): (s: Stats)
    ensures s.samples == |xs|
  {
    if xs == [] then UNLEARNED else Observe(Learned(xs[..|xs| - 1]), xs[|xs| - 1])
  }

  lemma BlendStaysBetween(mean: real, value: real, alpha: real)
    requires 0.0 <= alpha <= 1.0
    ensures RMin(mean, value) <= mean + alpha * (value - mean) <= RMax(mean, value)
  {
    if mean <= value {
      NonNegativeProduct(alpha, value - mean);
      NonNegativeProduct(1.0 - alpha, value - mean);
    } else {
      NonNegativeProduct(alpha, mean - value);
      NonNegativeProduct(1.0 - alpha, mean - value);
    }
  }

  lemma VarianceStaysNonNegative(variance: real, alpha: real, delta: real)
    requires 0.0 <= alpha <= 1.0 && 0.0 <= variance
    ensures 0.0 <= (1.0 - alpha) * (variance + alpha * delta * delta)
  {
    SquareNonNegative(delta);
    NonNegativeProduct(alpha, delta * delta);
    NonNegativeProduct(1.0 - alpha, variance + alpha * delta * delta);
  }

  lemma ObserveStaysInRange(s: Stats, value: real)
    requires s.samples >= 1 && 0.0 <= s.variance
    ensures RMin(s.mean, value) <= Observe(s, value).mean <= RMax(s.mean, value)
    ensures 0.0 <= Observe(s, value).variance
  {
    var alpha := Alpha(s.samples + 1);
    BlendStaysBetween(s.mean, value, alpha);
    VarianceStaysNonNegative(s.variance, alpha, value - s.mean);
  }

  /** For every stream the mean stays within the extremes seen, and the variance is never negative. */
  lemma {:induction false} LearnedStaysInRange(xs: seq<real>)
    requires xs != []
    ensures Least(xs) <= Learned(xs).mean <= Greatest(xs)
    ensures 0.0 <= Learned(xs).variance
  {
    var n := |xs| - 1;
    if n > 0 {
      LearnedStaysInRange(xs[..n]);
      ObserveStaysInRange(Learned(xs[..n]), xs[n]);
    }
  }

  // ------------------------------------------------------- exactness while warm

  function Sum(xs: seq<real>): real {
    if xs == [] then 0.0 else Sum(xs[..|xs| - 1]) + xs[|xs| - 1]
  }

  /** The sum of squared distances from a centre. */
  function Spread(xs: seq<real>, centre: real): real {
    if xs == [] then 0.0
    else
      var d := xs[|xs| - 1] - centre;
      Spread(xs[..|xs| - 1], centre) + d * d
  }

  function SumOfSquares(xs: seq<real>): real {
    if xs == [] then 0.0 else SumOfSquares(xs[..|xs| - 1]) + xs[|xs| - 1] * xs[|xs| - 1]
  }

  /** The spread about any centre, expanded. */
  function Expanded(squares: real, sum: real, c: real, centre: real): real {
    squares - 2.0 * (centre * sum) + c * (centre * centre)
  }

  lemma {:induction false} SpreadExpands(xs: seq<real>, centre: real)
    ensures Spread(xs, centre) == Expanded(SumOfSquares(xs), Sum(xs), |xs| as real, centre)
  {
    if xs != [] {
      var n := |xs| - 1;
      SpreadExpands(xs[..n], centre);
      ExpandedStep(SumOfSquares(xs[..n]), Sum(xs[..n]), n as real, centre, xs[n]);
    }
  }

  lemma ExpandedStep(squares: real, sum: real, c: real, centre: real, x: real)
    ensures Expanded(squares + x * x, sum + x, c + 1.0, centre)
            == Expanded(squares, sum, c, centre) + (x - centre) * (x - centre)
  {
    assert (x - centre) * (x - centre) == x * x - 2.0 * (centre * x) + centre * centre;
    assert centre * (sum + x) == centre * sum + centre * x;
    assert (c + 1.0) * (centre * centre) == c * (centre * centre) + centre * centre;
  }

  /** What the warm-up keeps, on plain numbers: the mean is exact and so is the variance. */
  predicate Exact(c: real, mean: real, variance: real, sum: real, squares: real) {
    c * mean == sum && c * variance == squares - c * (mean * mean)
  }

  /** One warm-up step, with `alpha` the reciprocal of the new count and `delta` the new value's distance. */
  lemma WelfordStep(c: real, mean: real, variance: real, sum: real, squares: real, delta: real, alpha: real)
    requires Exact(c, mean, variance, sum, squares) && alpha * (c + 1.0) == 1.0
    ensures var x := mean + delta;
            Exact(c + 1.0, mean + alpha * delta, (1.0 - alpha) * (variance + alpha * delta * delta),
                  sum + x, squares + x * x)
  {
    Scale(delta, alpha * (c + 1.0), 1.0);
    Scale(mean * delta, alpha * (c + 1.0), 1.0);
    Scale(delta * delta, alpha * (c + 1.0), 1.0);
    Scale(alpha * delta * delta, alpha * (c + 1.0), 1.0);
    Scale(variance, alpha * (c + 1.0), 1.0);
  }

  lemma ExactObserve(n: nat, s: Stats, r: Stats, sum: real, squares: real, x: real, sum': real, squares': real)
    requires 1 <= n <= 28 && s.samples == n && r == Observe(s, x)
    requires sum' == sum + x && squares' == squares + x * x
    requires Exact(n as real, s.mean, s.variance, sum, squares)
    ensures Exact((n + 1) as real, r.mean, r.variance, sum', squares')
  {
    assert (n + 1) as real == n as real + 1.0;
    Quotient(1.0, n as real + 1.0);
    WelfordStep(n as real, s.mean, s.variance, sum, squares, x - s.mean, Alpha(n + 1));
  }

  lemma ExactStart(xs: seq<real>, s: Stats)
    requires |xs| == 1 && s.mean == xs[0] && s.variance == 0.0
    ensures Exact(1.0, s.mean, s.variance, Sum(xs), SumOfSquares(xs))
  {
    assert xs[..0] == [];
  }

  lemma {:induction false} WarmUpKeepsExact(xs: seq<real>, s: Stats)
    requires 1 <= |xs| <= 29 && s == Learned(xs)
    ensures Exact(|xs| as real, s.mean, s.variance, Sum(xs), SumOfSquares(xs))
  {
    var prefix := xs[..|xs| - 1];
    if prefix == [] {
      ExactStart(xs, s);
    } else {
      WarmUpKeepsExact(prefix, Learned(prefix));
      ExactObserve(|prefix|, Learned(prefix), s, Sum(prefix), SumOfSquares(prefix), xs[|prefix|],
                   Sum(xs), SumOfSquares(xs));
    }
  }

  /** `s` holds the arithmetic mean and the population variance of `xs`. */
  predicate Describes(s: Stats, xs: seq<real>) {
    |xs| as real * s.mean == Sum(xs) && |xs| as real * s.variance == Spread(xs, s.mean)
  }

  lemma ExactDescribes(xs: seq<real>, s: Stats)
    requires Exact(|xs| as real, s.mean, s.variance, Sum(xs), SumOfSquares(xs))
    ensures Describes(s, xs)
  {
    SpreadExpands(xs, s.mean);
    CentreAtMean(|xs| as real, s.mean, Sum(xs), SumOfSquares(xs));
  }

  lemma CentreAtMean(c: real, mean: real, sum: real, squares: real)
    requires c * mean == sum
    ensures Expanded(squares, sum, c, mean) == squares - c * (mean * mean)
  {
    Scale(mean, c * mean, sum);
  }

  /**
   * For the first 29 samples the running mean is the arithmetic mean of everything seen and the running
   * variance is its population variance.
   */
  lemma WarmUpIsExact(xs: seq<real>)
    requires 1 <= |xs| <= 29
    ensures Describes(Learned(xs), xs)
  {
    WarmUpKeepsExact(xs, Learned(xs));
    ExactDescribes(xs, Learned(xs));
  }

  // ----------------------------------------------------- the self-hiding ramp

  /** The reading of a steady climb after `n` steps, each a slope above the last. */
  function Reading(start: real, slope: real, n: nat): real {
    if n == 0 then start else Reading(start, slope, n - 1) + slope
  }

  lemma {:induction false} ReadingIsLinear(start: real, slope: real, n: nat)
    ensures Reading(start, slope, n) == start + slope * n as real
  {
    if n > 0 {
      ReadingIsLinear(start, slope, n - 1);
      assert slope * n as real == slope * (n - 1) as real + slope;
    }
  }

  /** A steady climb: `n` readings a fixed slope apart. */
  function Ramp(start: real, slope: real, n: nat): (xs: seq<real>)
    ensures |xs| == n
  {
    if n == 0 then [] else Ramp(start, slope, n - 1) + [Reading(start, slope, n - 1)]
  }

  /** How far the next reading of the ramp stands above what `n` readings of it have taught. */
  function Gap(start: real, slope: real, n: nat): real {
    Reading(start, slope, n) - Learned(Ramp(start, slope, n)).mean
  }

  lemma LearnRamp(start: real, slope: real, n: nat)
    requires n >= 1
    ensures Learned(Ramp(start, slope, n + 1))
            == Observe(Learned(Ramp(start, slope, n)), Reading(start, slope, n))
  {
    assert Ramp(start, slope, n + 1)[..n] == Ramp(start, slope, n);
  }

  /** One observation in terms of the gap it closes, when the next reading stands `slope` higher. */
  lemma ObserveByGap(s: Stats, r: Stats, x: real, slope: real, alpha: real)
    requires s.samples >= 1 && alpha == Alpha(s.samples + 1) && r == Observe(s, x)
    ensures var gap := x - s.mean;
            && x + slope - r.mean == gap + slope - alpha * gap
            && r.variance == (1.0 - alpha) * (s.variance + alpha * gap * gap)
  {
  }

  /** A warm ramp in closed form: twice the gap and twelve times the variance. */
  predicate WarmRamp(slope: real, n: real, gap: real, variance: real) {
    2.0 * gap == slope * (n + 1.0) && 12.0 * variance == slope * slope * (n * n - 1.0)
  }

  /** One warm step of the ramp, with `alpha` the reciprocal of the new count. */
  lemma WarmRampStep(slope: real, n: real, gap: real, variance: real, alpha: real)
    requires WarmRamp(slope, n, gap, variance) && alpha * (n + 1.0) == 1.0
    ensures WarmRamp(slope, n + 1.0, gap + slope - alpha * gap, (1.0 - alpha) * (variance + alpha * gap * gap))
  {
    var square := slope * slope;
    Scale(alpha, 2.0 * gap, slope * (n + 1.0));
    Scale(slope, alpha * (n + 1.0), 1.0);
    assert 2.0 * (alpha * gap) == slope;
    Scale(2.0 * gap, 2.0 * (alpha * gap), slope);
    Scale(slope, 2.0 * gap, slope * (n + 1.0));
    assert 4.0 * (alpha * gap * gap) == square * (n + 1.0);
    var inner := variance + alpha * gap * gap;
    assert 12.0 * inner == square * ((n + 1.0) * (n + 2.0));
    Scale(1.0 - alpha, 12.0 * inner, square * ((n + 1.0) * (n + 2.0)));
    Scale(square * (n + 2.0), alpha * (n + 1.0), 1.0);
  }

  lemma {:induction false} WarmRampClosedForm(start: real, slope: real, n: nat, s: Stats, gap: real)
    requires 1 <= n <= 29 && s == Learned(Ramp(start, slope, n)) && gap == Reading(start, slope, n) - s.mean
    ensures WarmRamp(slope, n as real, gap, s.variance)
  {
    if n == 1 {
      RampOfOne(start, slope);
    } else {
      var was, x := Learned(Ramp(start, slope, n - 1)), Reading(start, slope, n - 1);
      WarmRampClosedForm(start, slope, n - 1, was, x - was.mean);
      LearnRamp(start, slope, n - 1);
      WarmRampNext(slope, n - 1, was, s, x);
    }
  }

  lemma WarmRampNext(slope: real, n: nat, s: Stats, r: Stats, x: real)
    requires 1 <= n <= 28 && s.samples == n && r == Observe(s, x)
    requires WarmRamp(slope, n as real, x - s.mean, s.variance)
    ensures WarmRamp(slope, (n + 1) as real, x + slope - r.mean, r.variance)
  {
    assert (n + 1) as real == n as real + 1.0;
    Quotient(1.0, n as real + 1.0);
    ObserveByGap(s, r, x, slope, Alpha(n + 1));
    WarmRampStep(slope, n as real, x - s.mean, s.variance, Alpha(n + 1));
  }

  lemma RampOfOne(start: real, slope: real)
    ensures Gap(start, slope, 1) == slope && Learned(Ramp(start, slope, 1)) == Stats(1, start, 0.0)
  {
    assert Ramp(start, slope, 0) == [];
    assert Ramp(start, slope, 1) == [start];
    assert [start][..0] == [];
  }

  /** What a climbing ramp keeps from the warm-up's end on; the variance is never short of 7/24 of the gap squared. */
  predicate HiddenRamp(slope: real, gap: real, variance: real) {
    15.0 * slope <= gap <= 20.0 * slope && 7.0 * (gap * gap) <= 24.0 * variance
  }

  lemma HiddenRampStep(slope: real, gap: real, variance: real)
    requires slope > 0.0 && HiddenRamp(slope, gap, variance)
    ensures HiddenRamp(slope, gap + slope - 0.05 * gap, 0.95 * (variance + 0.05 * gap * gap))
  {
    SquareNonNegative(gap);
    SquareMonotone(gap + slope - 0.05 * gap, 61.0 / 60.0 * gap);
  }

  lemma HiddenAtWarmUpEnd(slope: real, gap: real, variance: real)
    requires slope > 0.0 && WarmRamp(slope, 29.0, gap, variance)
    ensures HiddenRamp(slope, gap, variance)
  {
    WarmSpread(slope, 29.0, gap, variance);
  }

  lemma {:induction false} RampStaysHidden(start: real, slope: real, n: nat, s: Stats, gap: real)
    requires slope > 0.0 && n >= 29
    requires s == Learned(Ramp(start, slope, n)) && gap == Reading(start, slope, n) - s.mean
    ensures HiddenRamp(slope, gap, s.variance)
  {
    if n == 29 {
      WarmRampClosedForm(start, slope, 29, s, gap);
      HiddenAtWarmUpEnd(slope, gap, s.variance);
    } else {
      var was, x := Learned(Ramp(start, slope, n - 1)), Reading(start, slope, n - 1);
      RampStaysHidden(start, slope, n - 1, was, x - was.mean);
      LearnRamp(start, slope, n - 1);
      HiddenRampNext(slope, was, s, x);
    }
  }

  lemma HiddenRampNext(slope: real, s: Stats, r: Stats, x: real)
    requires slope > 0.0 && s.samples >= 29 && r == Observe(s, x)
    requires HiddenRamp(slope, x - s.mean, s.variance)
    ensures HiddenRamp(slope, x + slope - r.mean, r.variance)
  {
    ObserveByGap(s, r, x, slope, 0.05);
    HiddenRampStep(slope, x - s.mean, s.variance);
  }

  /** The gap between a climbing ramp's next reading and the norm it teaches never exceeds twenty slopes. */
  lemma RampGapBounded(start: real, slope: real, n: nat)
    requires slope > 0.0 && n >= 1
    ensures 0.0 < Gap(start, slope, n) <= 20.0 * slope
  {
    var s := Learned(Ramp(start, slope, n));
    if n < 29 {
      WarmRampClosedForm(start, slope, n, s, Gap(start, slope, n));
      PositiveProduct(slope, n as real + 1.0);
      NonNegativeProduct(slope, 29.0 - n as real);
    } else {
      RampStaysHidden(start, slope, n, s, Gap(start, slope, n));
    }
  }

  /** From fifteen samples on, the gap squared is at most 24/7 of the variance. */
  lemma RampWithinItsOwnSpread(start: real, slope: real, n: nat, s: Stats, gap: real)
    requires slope > 0.0 && n >= 15
    requires s == Learned(Ramp(start, slope, n)) && gap == Reading(start, slope, n) - s.mean
    ensures 7.0 * (gap * gap) <= 24.0 * s.variance
  {
    if n < 29 {
      WarmRampClosedForm(start, slope, n, s, gap);
      WarmSpread(slope, n as real, gap, s.variance);
    } else {
      RampStaysHidden(start, slope, n, s, gap);
    }
  }

  lemma WarmSpread(slope: real, n: real, gap: real, variance: real)
    requires n >= 15.0 && WarmRamp(slope, n, gap, variance)
    ensures 7.0 * (gap * gap) <= 24.0 * variance
  {
    var square := slope * slope;
    Scale(2.0 * gap, 2.0 * gap, slope * (n + 1.0));
    Scale(slope * (n + 1.0), 2.0 * gap, slope * (n + 1.0));
    assert 4.0 * (gap * gap) == square * ((n + 1.0) * (n + 1.0));
    SquareNonNegative(slope);
    NonNegativeProduct(n + 1.0, n - 15.0);
    NonNegativeProduct(square, (n + 1.0) * (n - 15.0));
  }

  lemma NotBeyond(gap: real, sigma: real, variance: real)
    requires sigma >= 0.0 && 7.0 * (sigma * sigma) >= 24.0
    requires 0.0 <= variance && 7.0 * (gap * gap) <= 24.0 * variance
    ensures !Beyond(gap, sigma, variance)
  {
    NonNegativeProduct(7.0 * (sigma * sigma) - 24.0, variance);
  }

  /** At a strict enough sigma a climbing ramp is never flagged once fifteen samples are in, at any slope. */
  lemma RampHidesItself(start: real, slope: real, n: nat, sigma: real, minimumDelta: real)
    requires slope > 0.0 && n >= 15 && sigma >= 0.0 && 7.0 * (sigma * sigma) >= 24.0
    ensures !Deviates(Learned(Ramp(start, slope, n)), Reading(start, slope, n), sigma, minimumDelta)
  {
    var s := Learned(Ramp(start, slope, n));
    var gap := Reading(start, slope, n) - s.mean;
    LearnedStaysInRange(Ramp(start, slope, n));
    RampWithinItsOwnSpread(start, slope, n, s, gap);
    NotBeyond(gap, sigma, s.variance);
  }

  /** The shipped sigma of three is strict enough. */
  lemma ThreeSigmaIsBlindToRamps(start: real, slope: real, n: nat, sigma: real, minimumDelta: real)
    requires slope > 0.0 && n >= 15 && sigma >= 3.0
    ensures !Deviates(Learned(Ramp(start, slope, n)), Reading(start, slope, n), sigma, minimumDelta)
  {
    SquareMonotone(3.0, sigma);
    RampHidesItself(start, slope, n, sigma, minimumDelta);
  }

  predicate Unflagged(start: real, slope: real, n: nat, sigma: real, minimumDelta: real) {
    !Deviates(Learned(Ramp(start, slope, n)), Reading(start, slope, n), sigma, minimumDelta)
  }

  /** Exactly which sigmas are blind to every ramp: those with `sigma * sigma >= 24/7`. */
  lemma BlindSigmas(sigma: real, minimumDelta: real)
    requires sigma >= 0.0
    ensures (forall start, slope, n: nat :: slope > 0.0 && n >= 15 ==> Unflagged(start, slope, n, sigma, minimumDelta))
            <==> 7.0 * (sigma * sigma) >= 24.0
  {
    if 7.0 * (sigma * sigma) >= 24.0 {
      forall start, slope, n: nat | slope > 0.0 && n >= 15
        ensures Unflagged(start, slope, n, sigma, minimumDelta)
      {
        RampHidesItself(start, slope, n, sigma, minimumDelta);
      }
    } else {
      var slope := if minimumDelta > 0.0 then minimumDelta else 1.0;
      SharpRampIsFlagged(slope, sigma, minimumDelta);
      assert !Unflagged(0.0, slope, 15, sigma, minimumDelta);
    }
  }

  lemma SharpRampIsFlagged(slope: real, sigma: real, minimumDelta: real)
    requires slope > 0.0 && slope >= minimumDelta && sigma >= 0.0 && 7.0 * (sigma * sigma) < 24.0
    ensures Deviates(Learned(Ramp(0.0, slope, 15)), Reading(0.0, slope, 15), sigma, minimumDelta)
  {
    var s := Learned(Ramp(0.0, slope, 15));
    var gap := Reading(0.0, slope, 15) - s.mean;
    WarmRampClosedForm(0.0, slope, 15, s, gap);
    WarmRampAtFifteen(slope, gap, s.variance);
    SharpSpread(slope, sigma, gap, s.variance, slope * slope);
    assert gap > minimumDelta && s.variance >= 0.0;
  }

  lemma WarmRampAtFifteen(slope: real, gap: real, variance: real)
    requires WarmRamp(slope, 15.0, gap, variance)
    ensures gap == 8.0 * slope && 3.0 * variance == 56.0 * (slope * slope)
  {
  }

  lemma SharpSpread(slope: real, sigma: real, gap: real, variance: real, square: real)
    requires slope > 0.0 && sigma >= 0.0 && 7.0 * (sigma * sigma) < 24.0 && square == slope * slope
    requires gap == 8.0 * slope && 3.0 * variance == 56.0 * square
    ensures variance >= 0.0 && Beyond(gap, sigma, variance)
  {
    ProductIsPositive(slope, slope, square);
    ScaledSquare(slope, gap);
    BelowCriticalSigma(sigma * sigma, square, variance);
  }

  lemma ScaledSquare(slope: real, gap: real)
    requires gap == 8.0 * slope
    ensures gap * gap == 64.0 * (slope * slope)
  {
    Scale(gap, gap, 8.0 * slope);
    Scale(slope, gap, 8.0 * slope);
  }

  lemma BelowCriticalSigma(ss: real, square: real, variance: real)
    requires 7.0 * ss < 24.0 && square > 0.0 && 3.0 * variance == 56.0 * square
    ensures ss * variance < 64.0 * square
  {
    PositiveProduct(24.0 - 7.0 * ss, square);
    Scale(ss, 3.0 * variance, 56.0 * square);
  }

  /** The reading from which the ramp stands more than `reach` above `mean`, for good. */
  lemma RampOutruns(start: real, slope: real, level: real) returns (from: nat)
    requires slope > 0.0
    ensures forall n: nat :: n >= from ==> Reading(start, slope, n) > level
  {
    var steps := (level - start) / slope;
    Quotient(level - start, slope);
    from := if steps < 0.0 then 0 else steps.Floor + 1;
    forall n: nat | n >= from
      ensures Reading(start, slope, n) > level
    {
      ReadingIsLinear(start, slope, n);
      PositiveProduct(n as real - steps, slope);
    }
  }

  /** Against a norm that no longer learns, the same ramp is flagged from some reading on, for good. */
  lemma FrozenNormCatchesTheRamp(s: Stats, start: real, slope: real, sigma: real, minimumDelta: real)
      returns (from: nat)
    requires slope > 0.0 && sigma >= 0.0
    ensures forall n: nat :: n >= from ==> Deviates(s, Reading(start, slope, n), sigma, minimumDelta)
  {
    var variance := if s.variance < 0.0 then 0.0 else s.variance;
    from := RampOutruns(start, slope, s.mean + RMax(minimumDelta, sigma * (1.0 + variance)));
    forall n: nat | n >= from
      ensures Deviates(s, Reading(start, slope, n), sigma, minimumDelta)
    {
      ClearOfTheBand(Reading(start, slope, n) - s.mean, sigma, variance);
    }
  }

  lemma ClearOfTheBand(gap: real, sigma: real, variance: real)
    requires sigma >= 0.0 && variance >= 0.0 && gap > sigma * (1.0 + variance)
    ensures Beyond(gap, sigma, variance)
  {
    NonNegativeProduct(sigma, 1.0 + variance);
    SquareStrict(sigma * (1.0 + variance), gap);
    SquareNonNegative(sigma);
    SquareNonNegative(variance);
    NonNegativeProduct(sigma * sigma, 1.0 + variance + variance * variance);
  }
}
