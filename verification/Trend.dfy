/** The shape of a time-ordered series, judged by comparing the means of its three equal thirds of time. */
module Trend {
  import opened Models

  datatype TrendPoint = TrendPoint(atMs: int, value: real)

  datatype TrendShape =
    | Monotonic(totalGrowth: real)
    | Plateau
    | Returning
    | PartialRelease(remaining: real)
    | Inconclusive

  const RETURNING_TOLERANCE_FRACTION := 0.25

  /** A half-open stretch of time: after `from`, when there is one, up to and including `to`. */
  datatype Segment = Segment(from: Option<int>, to: int)

  predicate Within(p: TrendPoint, s: Segment) {
    (s.from.Some? ==> s.from.value < p.atMs) && p.atMs <= s.to
  }

  function Total(points: seq<TrendPoint>, s: Segment): real {
    if points == [] then 0.0
    else
      var n := |points| - 1;
      Total(points[..n], s) + if Within(points[n], s) then points[n].value else 0.0
  }

  function Count(points: seq<TrendPoint>, s: Segment): nat {
    if points == [] then 0
    else
      var n := |points| - 1;
      Count(points[..n], s) + if Within(points[n], s) then 1 else 0
  }

  /** The mean over a segment; an empty segment has mean zero. */
  function Mean(points: seq<TrendPoint>, s: Segment): real {
    if Count(points, s) == 0 then 0.0 else Total(points, s) / Count(points, s) as real
  }

  method SegmentMean(points: seq<TrendPoint>, s: Segment) returns (mean: real)
    ensures mean == Mean(points, s)
  {
    var sum, count := 0.0, 0;
    for i := 0 to |points|
      invariant sum == Total(points[..i], s) && count == Count(points[..i], s)
    {
      assert points[..i + 1][..i] == points[..i];
      if Within(points[i], s) {
        sum, count := sum + points[i].value, count + 1;
      }
    }
    assert points[..|points|] == points;
    mean := if count == 0 then 0.0 else sum / count as real;
  }

  function Earliest(points: seq<TrendPoint>): int
    requires points != []
  {
    var n := |points| - 1;
    if n == 0 then points[0].atMs
    else
      var t := Earliest(points[..n]);
      if points[n].atMs < t then points[n].atMs else t
  }

  function Latest(points: seq<TrendPoint>): int
    requires points != []
  {
    var n := |points| - 1;
    if n == 0 then points[0].atMs
    else
      var t := Latest(points[..n]);
      if points[n].atMs > t then points[n].atMs else t
  }

  /** The span really is the span: both ends are attained and nothing lies outside. */
  lemma {:induction false} SpanIsExact(points: seq<TrendPoint>) returns (first: TrendPoint, last: TrendPoint)
    requires points != []
    ensures first in points && first.atMs == Earliest(points)
    ensures last in points && last.atMs == Latest(points)
    ensures forall p :: p in points ==> Earliest(points) <= p.atMs <= Latest(points)
  {
    var n := |points| - 1;
    first, last := points[n], points[n];
    if n > 0 {
      var prefix := points[..n];
      var f, l := SpanIsExact(prefix);
      if f.atMs <= points[n].atMs { first := f; }
      if l.atMs >= points[n].atMs { last := l; }
      forall p | p in points
        ensures Earliest(points) <= p.atMs <= Latest(points)
      {
        assert p in prefix || p == points[n];
      }
    }
  }

  function FirstThird(points: seq<TrendPoint>): Segment
    requires points != []
  {
    var (first, third) := (Earliest(points), (Latest(points) - Earliest(points)) / 3);
    Segment(None, first + third)
  }

  function MiddleThird(points: seq<TrendPoint>): Segment
    requires points != []
  {
    var (first, third) := (Earliest(points), (Latest(points) - Earliest(points)) / 3);
    Segment(Some(first + third), first + 2 * third)
  }

  function LastThird(points: seq<TrendPoint>): Segment
    requires points != []
  {
    var (first, third) := (Earliest(points), (Latest(points) - Earliest(points)) / 3);
    Segment(Some(first + 2 * third), Latest(points))
  }

  /** The room around its start within which an excursion counts as over. */
  function Tolerance(first: real, middle: real, minStep: real): real {
    var share := RETURNING_TOLERANCE_FRACTION * (middle - first);
    if minStep < share then share else minStep
  }

  /** What the three means say. */
  function ShapeOf(first: real, middle: real, last: real, minStep: real): TrendShape {
    var firstStep, secondStep := middle - first, last - middle;
    if firstStep >= minStep && secondStep >= minStep then
      Monotonic(last - first)
    else if firstStep >= minStep && -minStep <= secondStep <= minStep then
      Plateau
    else if firstStep >= minStep && secondStep <= -minStep then
      var tolerance, remaining := Tolerance(first, middle, minStep), last - first;
      if -tolerance <= remaining <= tolerance then Returning else PartialRelease(remaining)
    else
      Inconclusive
  }

  predicate Pronounceable(points: seq<TrendPoint>, minSpanMs: int) {
    |points| >= 6 && Latest(points) - Earliest(points) >= minSpanMs
  }

  function ClassifyTrend(points: seq<TrendPoint>, minSpanMs: int, minStep: real): TrendShape {
    if !Pronounceable(points, minSpanMs) then Inconclusive
    else ShapeOf(Mean(points, FirstThird(points)), Mean(points, MiddleThird(points)),
                 Mean(points, LastThird(points)), minStep)
  }

  // -------------------------------------------------------------- partition

  lemma {:induction false} PartitionOfPrefix(points: seq<TrendPoint>, a: int, b: int, c: int)
    requires a <= b <= c
    requires forall p :: p in points ==> p.atMs <= c
    ensures Count(points, Segment(None, a)) + Count(points, Segment(Some(a), b)) + Count(points, Segment(Some(b), c))
            == |points|
    ensures Total(points, Segment(None, a)) + Total(points, Segment(Some(a), b)) + Total(points, Segment(Some(b), c))
            == Total(points, Segment(None, c))
  {
    if points != [] {
      var n := |points| - 1;
      assert forall p :: p in points[..n] ==> p in points;
      assert points[n] in points;
      PartitionOfPrefix(points[..n], a, b, c);
    }
  }

  lemma ThirdsAreOrdered(first: int, last: int)
    requires first <= last
    ensures first <= first + (last - first) / 3 <= first + 2 * ((last - first) / 3) <= last
  {
  }

  /** Every point is counted in exactly one third, and no value is lost or counted twice. */
  lemma ThirdsPartition(points: seq<TrendPoint>)
    requires points != []
    ensures Count(points, FirstThird(points)) + Count(points, MiddleThird(points)) + Count(points, LastThird(points))
            == |points|
    ensures Total(points, FirstThird(points)) + Total(points, MiddleThird(points)) + Total(points, LastThird(points))
            == Total(points, Segment(None, Latest(points)))
  {
    var first, last := SpanIsExact(points);
    ThirdsAreOrdered(first.atMs, last.atMs);
    PartitionOfPrefix(points, FirstThird(points).to, MiddleThird(points).to, last.atMs);
  }

  // ---------------------------------------------------------- mean and order

  lemma {:induction false} CountedMember(points: seq<TrendPoint>, s: Segment, p: TrendPoint)
    requires p in points && Within(p, s)
    ensures Count(points, s) > 0
  {
    var n := |points| - 1;
    if points[n] != p {
      assert points == points[..n] + [points[n]];
      CountedMember(points[..n], s, p);
    }
  }

  lemma {:induction false} TotalAtMost(points: seq<TrendPoint>, s: Segment, bound: real)
    requires forall p :: p in points && Within(p, s) ==> p.value <= bound
    ensures Total(points, s) <= bound * Count(points, s) as real
  {
    if points != [] {
      var n := |points| - 1;
      assert forall p :: p in points[..n] ==> p in points;
      assert points[n] in points;
      TotalAtMost(points[..n], s, bound);
    }
  }

  lemma {:induction false} TotalAtLeast(points: seq<TrendPoint>, s: Segment, bound: real)
    requires forall p :: p in points && Within(p, s) ==> bound <= p.value
    ensures bound * Count(points, s) as real <= Total(points, s)
  {
    if points != [] {
      var n := |points| - 1;
      assert forall p :: p in points[..n] ==> p in points;
      assert points[n] in points;
      TotalAtLeast(points[..n], s, bound);
    }
  }

  lemma QuotientBound(total: real, count: real, bound: real)
    requires count > 0.0
    ensures total <= bound * count ==> total / count <= bound
    ensures bound * count <= total ==> bound <= total / count
  {
    assert total / count * count == total;
  }

  lemma MeanAtMost(points: seq<TrendPoint>, s: Segment, bound: real)
    requires Count(points, s) > 0
    requires forall p :: p in points && Within(p, s) ==> p.value <= bound
    ensures Mean(points, s) <= bound
  {
    TotalAtMost(points, s, bound);
    QuotientBound(Total(points, s), Count(points, s) as real, bound);
  }

  lemma MeanAtLeast(points: seq<TrendPoint>, s: Segment, bound: real)
    requires Count(points, s) > 0
    requires forall p :: p in points && Within(p, s) ==> bound <= p.value
    ensures bound <= Mean(points, s)
  {
    TotalAtLeast(points, s, bound);
    QuotientBound(Total(points, s), Count(points, s) as real, bound);
  }

  predicate NonDecreasing(points: seq<TrendPoint>) {
    forall p, q :: p in points && q in points && p.atMs < q.atMs ==> p.value <= q.value
  }

  lemma MeansFollowTime(points: seq<TrendPoint>, early: Segment, late: Segment)
    requires NonDecreasing(points) && late.from.Some? && early.to <= late.from.value
    requires Count(points, early) > 0 && Count(points, late) > 0
    ensures Mean(points, early) <= Mean(points, late)
  {
    forall q | q in points && Within(q, late)
      ensures Mean(points, early) <= q.value
    {
      MeanAtMost(points, early, q.value);
    }
    MeanAtLeast(points, late, Mean(points, early));
  }

  lemma LastThirdPopulated(points: seq<TrendPoint>)
    requires points != [] && Earliest(points) + 3 <= Latest(points)
    ensures Count(points, LastThird(points)) > 0
  {
    var _, p := SpanIsExact(points);
    CountedMember(points, LastThird(points), p);
  }

  lemma PopulatedMiddleHasSpan(points: seq<TrendPoint>)
    requires points != [] && Count(points, MiddleThird(points)) > 0
    ensures Earliest(points) + 3 <= Latest(points)
  {
    if Latest(points) - Earliest(points) < 3 {
      EmptyStretch(points, MiddleThird(points));
    }
  }

  lemma {:induction false} EmptyStretch(points: seq<TrendPoint>, s: Segment)
    requires s.from.Some? && s.to <= s.from.value
    ensures Count(points, s) == 0
  {
    if points != [] {
      EmptyStretch(points[..|points| - 1], s);
    }
  }

  /**
   * A series that never falls is never read as a release, whatever its sampling: not even an empty
   * middle third, whose mean is zero, can fake one.
   */
  lemma NoReleaseWithoutAFall(points: seq<TrendPoint>, minSpanMs: int, minStep: real)
    requires minStep > 0.0 && NonDecreasing(points)
    requires forall p :: p in points ==> 0.0 <= p.value
    ensures var shape := ClassifyTrend(points, minSpanMs, minStep);
            !shape.Returning? && !shape.PartialRelease?
    ensures var shape := ClassifyTrend(points, minSpanMs, minStep);
            shape.Monotonic? ==> 2.0 * minStep <= shape.totalGrowth
  {
    if Pronounceable(points, minSpanMs) {
      var first, middle, last := FirstThird(points), MiddleThird(points), LastThird(points);
      if Count(points, middle) > 0 {
        PopulatedMiddleHasSpan(points);
        LastThirdPopulated(points);
        MeansFollowTime(points, middle, last);
      } else {
        var p, _ := SpanIsExact(points);
        CountedMember(points, first, p);
        MeanAtLeast(points, first, 0.0);
      }
    }
  }

  // ----------------------------------------------------- translation of values

  /** A point raised by an amount. */
  function Raise(p: TrendPoint, lift: real): TrendPoint {
    TrendPoint(p.atMs, p.value + lift)
  }

  /** The same series with every value raised by the same amount. */
  function Raised(points: seq<TrendPoint>, lift: real): seq<TrendPoint> {
    if points == [] then [] else Raised(points[..|points| - 1], lift) + [Raise(points[|points| - 1], lift)]
  }

  lemma {:induction false} RaisedStep(points: seq<TrendPoint>, lift: real)
    ensures |Raised(points, lift)| == |points|
    ensures points != [] ==>
              var n := |points| - 1;
              Raised(points, lift)[..n] == Raised(points[..n], lift)
              && Raised(points, lift)[n] == Raise(points[n], lift)
  {
    if points != [] {
      RaisedStep(points[..|points| - 1], lift);
    }
  }

  lemma {:induction false} RaisedCount(points: seq<TrendPoint>, s: Segment, lift: real)
    ensures Count(Raised(points, lift), s) == Count(points, s)
  {
    RaisedStep(points, lift);
    if points != [] {
      RaisedCount(points[..|points| - 1], s, lift);
    }
  }

  function Repeated(x: real, n: nat): real {
    if n == 0 then 0.0 else Repeated(x, n - 1) + x
  }

  lemma {:induction false} RepeatedIsProduct(x: real, n: nat)
    ensures Repeated(x, n) == x * n as real
  {
    if n > 0 {
      RepeatedIsProduct(x, n - 1);
    }
  }

  lemma {:induction false} RaisedTotal(points: seq<TrendPoint>, s: Segment, lift: real)
    ensures Total(Raised(points, lift), s) == Total(points, s) + Repeated(lift, Count(points, s))
  {
    RaisedStep(points, lift);
    if points != [] {
      RaisedTotal(points[..|points| - 1], s, lift);
    }
  }

  lemma QuotientShift(total: real, count: real, lift: real)
    requires count > 0.0
    ensures (total + lift * count) / count == total / count + lift
  {
  }

  lemma RaisedMean(points: seq<TrendPoint>, s: Segment, lift: real)
    requires Count(points, s) > 0
    ensures Mean(Raised(points, lift), s) == Mean(points, s) + lift
  {
    RaisedCount(points, s, lift);
    RaisedTotal(points, s, lift);
    RepeatedIsProduct(lift, Count(points, s));
    QuotientShift(Total(points, s), Count(points, s) as real, lift);
  }

  lemma {:induction false} RaisedSpan(points: seq<TrendPoint>, lift: real)
    requires points != []
    ensures Raised(points, lift) != []
    ensures Earliest(Raised(points, lift)) == Earliest(points) && Latest(Raised(points, lift)) == Latest(points)
  {
    RaisedStep(points, lift);
    if |points| > 1 {
      RaisedSpan(points[..|points| - 1], lift);
    }
  }

  lemma MeansShape(first: real, middle: real, last: real, minStep: real, lift: real)
    ensures ShapeOf(first + lift, middle + lift, last + lift, minStep) == ShapeOf(first, middle, last, minStep)
  {
  }

  /** The shape depends on movement, not level, as soon as the middle third holds a point. */
  lemma ShapeIgnoresLevel(points: seq<TrendPoint>, minSpanMs: int, minStep: real, lift: real)
    requires points != [] ==> Count(points, MiddleThird(points)) > 0
    ensures ClassifyTrend(Raised(points, lift), minSpanMs, minStep) == ClassifyTrend(points, minSpanMs, minStep)
  {
    if points != [] {
      RaisedSpan(points, lift);
      PopulatedMiddleHasSpan(points);
      LastThirdPopulated(points);
      var p, _ := SpanIsExact(points);
      CountedMember(points, FirstThird(points), p);
      RaisedMean(points, FirstThird(points), lift);
      RaisedMean(points, MiddleThird(points), lift);
      RaisedMean(points, LastThird(points), lift);
      MeansShape(Mean(points, FirstThird(points)), Mean(points, MiddleThird(points)),
                 Mean(points, LastThird(points)), minStep, lift);
      RaisedStep(points, lift);
    }
  }

  // ---------------------------------------------------------------- the release

  /**
   * `PartialRelease` is documented as a series still sitting above where it started. A series that rose by a step and
   * came back by more than one is reported so when its last third stays above the first by more than the tolerance, and
   * just the same when it has fallen below the first by more than that.
   */
  lemma ReleaseIsElevatedUnlessUndershot(points: seq<TrendPoint>, minSpanMs: int, minStep: real)
    requires minStep > 0.0 && points != []
    ensures var shape := ClassifyTrend(points, minSpanMs, minStep);
            var (first, middle, last) :=
              (Mean(points, FirstThird(points)), Mean(points, MiddleThird(points)), Mean(points, LastThird(points)));
            var tolerance := Tolerance(first, middle, minStep);
            && (shape.PartialRelease? && shape.remaining > 0.0 <==>
                  Pronounceable(points, minSpanMs)
                  && middle - first >= minStep && middle - last > minStep && last - first > tolerance)
            && (shape.PartialRelease? && shape.remaining < 0.0 <==>
                  Pronounceable(points, minSpanMs) && middle - first >= minStep && first - last > tolerance)
            && (shape.PartialRelease? ==> shape.remaining != 0.0)
  {
  }

  /** Means further apart than a bound come of two points further apart than it. */
  lemma FallBetween(points: seq<TrendPoint>, early: Segment, late: Segment, bound: real)
    requires Count(points, early) > 0 && Count(points, late) > 0
    requires Mean(points, early) - Mean(points, late) > bound
    ensures exists p, q ::
              p in points && q in points && Within(p, early) && Within(q, late) && p.value - q.value > bound
  {
    if forall p, q :: p in points && q in points && Within(p, early) && Within(q, late) ==> p.value - q.value <= bound {
      forall q | q in points && Within(q, late)
        ensures Mean(points, early) - bound <= q.value
      {
        MeanAtMost(points, early, q.value + bound);
      }
      MeanAtLeast(points, late, Mean(points, early) - bound);
    }
  }

  /**
   * What a caller can read off the points themselves: an undershoot takes some value of the last third that lies
   * below some value of the first by more than the tolerance. A series whose last third holds nothing below its first
   * is never reported with a negative remainder.
   */
  lemma UndershootTakesAFall(points: seq<TrendPoint>, minSpanMs: int, minStep: real)
    requires minStep > 0.0
    requires ClassifyTrend(points, minSpanMs, minStep).PartialRelease?
    requires ClassifyTrend(points, minSpanMs, minStep).remaining < 0.0
    ensures var tolerance :=
              Tolerance(Mean(points, FirstThird(points)), Mean(points, MiddleThird(points)), minStep);
            exists p, q :: p in points && q in points && Within(p, FirstThird(points)) && Within(q, LastThird(points))
                           && p.value - q.value > tolerance
  {
    var first, middle, last := FirstThird(points), MiddleThird(points), LastThird(points);
    var p, _ := SpanIsExact(points);
    CountedMember(points, first, p);
    if Earliest(points) == Latest(points) {
      EmptyStretch(points, middle);
      EmptyStretch(points, last);
    }
    LastPointIsLate(points);
    FallBetween(points, first, last, Tolerance(Mean(points, first), Mean(points, middle), minStep));
  }

  lemma LastPointIsLate(points: seq<TrendPoint>)
    requires points != [] && Earliest(points) < Latest(points)
    ensures Count(points, LastThird(points)) > 0
  {
    var _, p := SpanIsExact(points);
    CountedMember(points, LastThird(points), p);
  }

  lemma OneMorePoint(points: seq<TrendPoint>, p: TrendPoint, s: Segment)
    ensures Total(points + [p], s) == Total(points, s) + if Within(p, s) then p.value else 0.0
    ensures Count(points + [p], s) == Count(points, s) + if Within(p, s) then 1 else 0
    ensures Earliest(points + [p]) == if points != [] && Earliest(points) <= p.atMs then Earliest(points) else p.atMs
    ensures Latest(points + [p]) == if points != [] && Latest(points) >= p.atMs then Latest(points) else p.atMs
  {
    assert (points + [p])[..|points|] == points;
  }

  const MINUTE := 60_000

  /** Six minutes of a count that rises from ten to twenty and ends at nothing. */
  function Undershoot(): seq<TrendPoint> {
    [TrendPoint(0, 10.0)] + [TrendPoint(1 * MINUTE, 10.0)] + [TrendPoint(3 * MINUTE, 20.0)]
    + [TrendPoint(4 * MINUTE, 20.0)] + [TrendPoint(5 * MINUTE, 0.0)] + [TrendPoint(6 * MINUTE, 0.0)]
  }

  lemma UndershootMeans(s: Segment)
    ensures |Undershoot()| == 6 && Earliest(Undershoot()) == 0 && Latest(Undershoot()) == 6 * MINUTE
    ensures s == Segment(None, 2 * MINUTE) ==> Mean(Undershoot(), s) == 10.0
    ensures s == Segment(Some(2 * MINUTE), 4 * MINUTE) ==> Mean(Undershoot(), s) == 20.0
    ensures s == Segment(Some(4 * MINUTE), 6 * MINUTE) ==> Mean(Undershoot(), s) == 0.0
  {
    var one := [] + [TrendPoint(0, 10.0)];
    var two := one + [TrendPoint(1 * MINUTE, 10.0)];
    var three := two + [TrendPoint(3 * MINUTE, 20.0)];
    var four := three + [TrendPoint(4 * MINUTE, 20.0)];
    var five := four + [TrendPoint(5 * MINUTE, 0.0)];
    OneMorePoint([], TrendPoint(0, 10.0), s);
    OneMorePoint(one, TrendPoint(1 * MINUTE, 10.0), s);
    OneMorePoint(two, TrendPoint(3 * MINUTE, 20.0), s);
    OneMorePoint(three, TrendPoint(4 * MINUTE, 20.0), s);
    OneMorePoint(four, TrendPoint(5 * MINUTE, 0.0), s);
    OneMorePoint(five, TrendPoint(6 * MINUTE, 0.0), s);
    assert one == [TrendPoint(0, 10.0)] && Undershoot() == five + [TrendPoint(6 * MINUTE, 0.0)];
    assert Count([], s) == 0 && Total([], s) == 0.0;
  }

  /**
   * Nothing is left of this excursion, and yet it is classified as partly released, with less than nothing remaining.
   */
  lemma AnUndershootIsAPartialRelease()
    ensures ClassifyTrend(Undershoot(), 5 * MINUTE, 1.0) == PartialRelease(-10.0)
  {
    UndershootMeans(Segment(None, 2 * MINUTE));
    UndershootMeans(Segment(Some(2 * MINUTE), 4 * MINUTE));
    UndershootMeans(Segment(Some(4 * MINUTE), 6 * MINUTE));
    hide Mean, Undershoot;
  }
}
