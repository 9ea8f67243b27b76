/** A streaming quantile estimator: five markers whose heights and positions follow an unbounded stream. */
module Quantiles {
  import opened Models
  import opened Streams
  import opened Algebra

  predicate Whole(x: real) { x == x.Floor as real }

  predicate Sorted(s: seq<real>) {
    forall i, j :: 0 <= i < j < |s| ==> s[i] <= s[j]
  }

  // ------------------------------------------------------- seeding the markers

  function Insert(x: real, s: seq<real>): (r: seq<real>)
    requires Sorted(s)
    ensures Sorted(r) && multiset(r) == multiset(s) + multiset{x}
    decreases |s|, 1
  {
    var n := |s| - 1;
    if s == [] then [x]
    else if s[n] <= x then s + [x]
    else
      InsertBelow(x, s);
      Insert(x, s[..n]) + [s[n]]
  }

  lemma InsertBelow(x: real, s: seq<real>)
    requires Sorted(s) && s != [] && x < s[|s| - 1]
    requires var r := Insert(x, s[..|s| - 1]); Sorted(r) && multiset(r) == multiset(s[..|s| - 1]) + multiset{x}
    ensures var r := Insert(x, s[..|s| - 1]) + [s[|s| - 1]]; Sorted(r) && multiset(r) == multiset(s) + multiset{x}
    decreases |s|, 0
  {
    var n := |s| - 1;
    var low, r := s[..n], Insert(x, s[..n]);
    assert s == low + [s[n]];
    forall i | 0 <= i < |r|
      ensures r[i] <= s[n]
    {
      assert r[i] in multiset(r);
      assert r[i] == x || r[i] in low;
    }
  }

  function Sort(s: seq<real>): (r: seq<real>)
    ensures Sorted(r) && multiset(r) == multiset(s) && |r| == |s|
  {
    if s == [] then []
    else
      var n := |s| - 1;
      assert s == s[..n] + [s[n]];
      var r := Insert(s[n], Sort(s[..n]));
      assert |multiset(r)| == |multiset(s)|;
      r
  }

  lemma {:induction false} ExtremesBound(xs: seq<real>)
    requires xs != []
    ensures Least(xs) in xs && Greatest(xs) in xs
    ensures forall x :: x in xs ==> Least(xs) <= x <= Greatest(xs)
  {
    var n := |xs| - 1;
    if n > 0 {
      ExtremesBound(xs[..n]);
      assert xs == xs[..n] + [xs[n]];
    }
  }

  lemma SortedEnds(xs: seq<real>)
    requires xs != []
    ensures var s := Sort(xs); s[0] == Least(xs) && s[|s| - 1] == Greatest(xs)
  {
    var s := Sort(xs);
    ExtremesBound(xs);
    assert s[0] in multiset(xs) && s[|s| - 1] in multiset(xs);
    assert Least(xs) in multiset(s) && Greatest(xs) in multiset(s);
  }

  // -------------------------------------------------------------- the markers

  /** Heights, positions and desired positions of the five markers once they are seeded. */
  datatype Track = Track(heights: seq<real>, positions: seq<real>, desired: seq<real>)

  predicate Shaped(t: Track) {
    |t.heights| == |t.positions| == |t.desired| == 5
  }

  /** Positions climb by at least one whole observation per marker, and heights never go down. */
  predicate Ordered(t: Track) {
    && Shaped(t)
    && (forall i :: 0 <= i < 5 ==> Whole(t.positions[i]))
    && (forall i, j :: 0 <= i < j < 5 ==> t.positions[i] + 1.0 <= t.positions[j])
    && Sorted(t.heights)
  }

  function Increments(p: real): (r: seq<real>)
    ensures |r| == 5
  {
    [0.0, p / 2.0, p, (1.0 + p) / 2.0, 1.0]
  }

  function Seed(p: real, init: seq<real>): Track
    requires |init| == 5
  {
    Track(Sort(init), [1.0, 2.0, 3.0, 4.0, 5.0],
          [1.0, 1.0 + 2.0 * p, 1.0 + 4.0 * p, 3.0 + 2.0 * p, 5.0])
  }

  /** The first cell from `i` on that holds the value; 4 when none does. */
  function FindCell(h: seq<real>, x: real, i: nat): (k: nat)
    requires |h| == 5 && i <= 4
    ensures i <= k <= 4
    decreases 4 - i
  {
    if i == 4 then 4 else if h[i] <= x < h[i + 1] then i else FindCell(h, x, i + 1)
  }

  /** The cell a value falls into, its fallback of 3 included. */
  function Cell(h: seq<real>, x: real): (k: nat)
    requires |h| == 5
    ensures k <= 3
  {
    if x < h[0] then 0
    else if x >= h[4] then 3
    else
      var k := FindCell(h, x, 0);
      if k < 4 then k else 3
  }

  lemma {:induction false} SomeCellHolds(h: seq<real>, x: real, i: nat)
    requires |h| == 5 && i <= 4 && h[i] <= x < h[4]
    ensures FindCell(h, x, i) < 4
    decreases 4 - i
  {
    if x >= h[i + 1] {
      SomeCellHolds(h, x, i + 1);
    }
  }

  function Stretch(h: seq<real>, x: real): (r: seq<real>)
    requires |h| == 5
    ensures |r| == 5
  {
    if x < h[0] then h[0 := x] else if x >= h[4] then h[4 := x] else h
  }

  function Shift(n: seq<real>, k: nat): (r: seq<real>)
    requires |n| == 5 && k <= 3
    ensures |r| == 5
    ensures forall i :: 0 <= i < 5 ==> r[i] == if i > k then n[i] + 1.0 else n[i]
  {
    seq(5, i requires 0 <= i < 5 => if i > k then n[i] + 1.0 else n[i])
  }

  function Advance(d: seq<real>, p: real): (r: seq<real>)
    requires |d| == 5
    ensures |r| == 5
    ensures forall i :: 0 <= i < 5 ==> r[i] == d[i] + Increments(p)[i]
  {
    seq(5, i requires 0 <= i < 5 => d[i] + Increments(p)[i])
  }

  /** The parabolic formula in terms of a marker's rises and gaps on either side. */
  function Curve(mid: real, rise: real, fall: real, left: real, right: real, whole: real, d: real): real
    requires left >= 1.0 && right >= 1.0 && whole >= 1.0
  {
    mid + d / whole * ((left + d) * rise / right + (right - d) * fall / left)
  }

  function Parabolic(t: Track, i: nat, d: real): real
    requires Ordered(t) && 1 <= i <= 3
  {
    var (q, n) := (t.heights, t.positions);
    Curve(q[i], q[i + 1] - q[i], q[i] - q[i - 1], n[i] - n[i - 1], n[i + 1] - n[i], n[i + 1] - n[i - 1], d)
  }

  function Linear(t: Track, i: nat, d: real): real
    requires Ordered(t) && 1 <= i <= 3 && (d == 1.0 || d == -1.0)
  {
    var j := i + if d > 0.0 then 1 else -1;
    t.heights[i] + d * (t.heights[j] - t.heights[i]) / (t.positions[j] - t.positions[i])
  }

  predicate Lags(t: Track, i: nat)
    requires Shaped(t) && 1 <= i <= 3
  {
    var d := t.desired[i] - t.positions[i];
    || (d >= 1.0 && t.positions[i + 1] - t.positions[i] > 1.0)
    || (d <= -1.0 && t.positions[i - 1] - t.positions[i] < -1.0)
  }

  /** Move a lagging marker one observation towards where it should be. */
  function Adjust(t: Track, i: nat): (r: Track)
    requires Ordered(t) && 1 <= i <= 3
    ensures Shaped(r)
  {
    if !Lags(t, i) then t
    else
      var sign := if t.desired[i] - t.positions[i] >= 0.0 then 1.0 else -1.0;
      var curved := Parabolic(t, i, sign);
      var height := if t.heights[i - 1] < curved < t.heights[i + 1] then curved else Linear(t, i, sign);
      t.(heights := t.heights[i := height], positions := t.positions[i := t.positions[i] + sign])
  }

  /** A parabola, as its three coefficients. */
  datatype Parabola = Parabola(a: real, b: real, c: real) {
    function At(x: real): real {
      a + b * x + c * x * x
    }
  }

  lemma Cancels(k: real, r: real, s: real, product: real)
    requires r != 0.0 && product == r * s
    ensures k * product / r == k * s
  {
    Quotient(k * product, r);
    Scale(k, product, r * s);
    assert k * (r * s) == k * s * r;
    SameFactor(k * product / r, k * s, r);
  }

  lemma SameFactor(x: real, y: real, r: real)
    requires r != 0.0 && x * r == y * r
    ensures x == y
  {
    assert (x - y) * r == x * r - y * r;
    if x - y > 0.0 && r > 0.0 {
      PositiveProduct(x - y, r);
    } else if x - y > 0.0 {
      PositiveProduct(x - y, -r);
    } else if x - y < 0.0 && r > 0.0 {
      PositiveProduct(y - x, r);
    } else if x - y < 0.0 {
      PositiveProduct(y - x, -r);
    }
  }

  /** Between two points of a parabola the rise is the run times the mean slope. */
  lemma Rise(f: Parabola, x: real, run: real, slope: real)
    requires slope == f.b + 2.0 * f.c * x
    ensures f.At(x + run) - f.At(x) == run * (slope + f.c * run)
  {
    assert (x + run) * (x + run) == x * x + 2.0 * x * run + run * run;
    assert f.c * (x + run) * (x + run) == f.c * x * x + 2.0 * f.c * x * run + f.c * run * run;
    assert run * (slope + f.c * run) == f.b * run + 2.0 * f.c * x * run + f.c * run * run;
  }

  /** The two slopes, weighted the way the formula weights them. */
  lemma WeightedSlopes(left: real, right: real, d: real, slope: real, c: real)
    ensures (left + d) * (slope + c * right) + (right - d) * (slope - c * left) == (right + left) * (slope + c * d)
  {
    assert (left + d) * (slope + c * right) == left * slope + d * slope + c * left * right + c * d * right;
    assert (right - d) * (slope - c * left) == right * slope - d * slope - c * left * right + c * d * left;
    assert (right + left) * (slope + c * d) == right * slope + left * slope + c * d * right + c * d * left;
  }

  lemma ShareOfWhole(d: real, whole: real, s: real)
    requires whole != 0.0
    ensures d / whole * (whole * s) == d * s
  {
    Quotient(d, whole);
    assert d / whole * (whole * s) == d / whole * whole * s;
  }

  /** The rises on either side of a marker, when all three markers lie on one parabola. */
  lemma MarkerRises(f: Parabola, x: real, left: real, right: real, slope: real, low: real, mid: real, high: real)
    requires low == f.At(x - left) && mid == f.At(x) && high == f.At(x + right) && slope == f.b + 2.0 * f.c * x
    ensures high - mid == right * (slope + f.c * right)
    ensures mid - low == left * (slope - f.c * left)
  {
    Rise(f, x, right, slope);
    Rise(f, x, -left, slope);
    hide Parabola.At;
    assert x + -left == x - left;
    LeftRise(left, slope, f.c, mid - low);
  }

  lemma WeightedSum(left: real, right: real, d: real, up: real, down: real, rise: real, fall: real, total: real)
    requires left >= 1.0 && right >= 1.0 && rise == right * up && fall == left * down
    requires (left + d) * up + (right - d) * down == total
    ensures (left + d) * rise / right + (right - d) * fall / left == total
  {
    Cancels(left + d, right, up, rise);
    Cancels(right - d, left, down, fall);
  }

  lemma StepOfShare(d: real, whole: real, s: real, sum: real)
    requires whole != 0.0 && sum == whole * s
    ensures d / whole * sum == d * s
  {
    Scale(d / whole, sum, whole * s);
    ShareOfWhole(d, whole, s);
  }

  /** The parabolic step is interpolation: it lands on any parabola that passes through the three markers. */
  lemma ParabolicInterpolates(t: Track, i: nat, d: real, f: Parabola)
    requires Ordered(t) && 1 <= i <= 3
    requires forall j :: i - 1 <= j <= i + 1 ==> t.heights[j] == f.At(t.positions[j])
    ensures Parabolic(t, i, d) == f.At(t.positions[i] + d)
  {
    var (low, mid, high) := (t.heights[i - 1], t.heights[i], t.heights[i + 1]);
    var (x, left) := (t.positions[i], t.positions[i] - t.positions[i - 1]);
    var right := t.positions[i + 1] - x;
    Interpolates(t, i, d, f, x, left, right, f.b + 2.0 * f.c * x);
  }

  lemma Interpolates(t: Track, i: nat, d: real, f: Parabola, x: real, left: real, right: real, slope: real)
    requires Ordered(t) && 1 <= i <= 3 && x == t.positions[i] && slope == f.b + 2.0 * f.c * x
    requires left == t.positions[i] - t.positions[i - 1] && right == t.positions[i + 1] - t.positions[i]
    requires t.heights[i - 1] == f.At(x - left) && t.heights[i] == f.At(x) && t.heights[i + 1] == f.At(x + right)
    ensures Parabolic(t, i, d) == f.At(x + d)
  {
    var (q, n) := (t.heights, t.positions);
    Rise(f, x, d, slope);
    MarkerRises(f, x, left, right, slope, q[i - 1], q[i], q[i + 1]);
    assert Ordered(t) && n[i + 1] - n[i - 1] == right + left && left >= 1.0 && right >= 1.0;
    hide Parabola.At, Curve, Ordered;
    Slopes(left, right, n[i + 1] - n[i - 1], d, slope, f.c);
    CurveFollows(q[i], q[i + 1] - q[i], q[i] - q[i - 1], n[i] - n[i - 1], n[i + 1] - n[i], n[i + 1] - n[i - 1], d,
                 slope + f.c * right, slope - f.c * left, slope + f.c * d);
  }

  lemma Slopes(left: real, right: real, whole: real, d: real, slope: real, c: real)
    requires whole == right + left
    ensures (left + d) * (slope + c * right) + (right - d) * (slope - c * left) == whole * (slope + c * d)
  {
    WeightedSlopes(left, right, d, slope, c);
  }

  lemma LeftRise(left: real, slope: real, c: real, rise: real)
    requires -rise == -left * (slope + c * -left)
    ensures rise == left * (slope - c * left)
  {
    assert -left * (slope + c * -left) == -(left * (slope - c * left));
  }

  lemma CurveFollows(mid: real, rise: real, fall: real, left: real, right: real, whole: real, d: real, up: real,
                     down: real, ahead: real)
    requires left >= 1.0 && right >= 1.0 && whole >= 1.0 && rise == right * up && fall == left * down
    requires (left + d) * up + (right - d) * down == whole * ahead
    ensures Curve(mid, rise, fall, left, right, whole, d) == mid + d * ahead
  {
    var sum := (left + d) * rise / right + (right - d) * fall / left;
    assert sum == whole * ahead by {
      WeightedSum(left, right, d, up, down, rise, fall, whole * ahead);
    }
    StepOfShare(d, whole, ahead, sum);
  }

  /** Moving by the slope over a gap of at least one moves by no more than the rise over that gap. */
  lemma ShareOfGap(rise: real, run: real)
    requires 0.0 <= rise && 1.0 <= run
    ensures 0.0 <= rise / run <= rise
  {
    var share := rise / run;
    Quotient(rise, run);
    if share < 0.0 {
      PositiveProduct(-share, run);
    } else {
      NonNegativeProduct(share, run - 1.0);
    }
  }

  lemma ShareOfGapDown(fall: real, run: real)
    requires fall <= 0.0 && run <= -1.0
    ensures fall <= -fall / run <= 0.0
  {
    var share := -fall / run;
    Quotient(-fall, run);
    if share > 0.0 {
      PositiveProduct(share, -run);
    } else {
      NonNegativeProduct(-share, -run - 1.0);
    }
  }

  lemma LinearStaysBetween(t: Track, i: nat, d: real)
    requires Ordered(t) && 1 <= i <= 3 && (d == 1.0 || d == -1.0)
    ensures t.heights[i - 1] <= Linear(t, i, d) <= t.heights[i + 1]
  {
    var (q, n) := (t.heights, t.positions);
    assert q[i - 1] <= q[i] <= q[i + 1];
    assert n[i - 1] + 1.0 <= n[i] && n[i] + 1.0 <= n[i + 1];
    if d > 0.0 {
      ShareOfGap(q[i + 1] - q[i], n[i + 1] - n[i]);
    } else {
      ShareOfGapDown(q[i - 1] - q[i], n[i - 1] - n[i]);
    }
  }

  lemma WholeStep(x: real)
    requires Whole(x)
    ensures Whole(x + 1.0) && Whole(x - 1.0)
  {
  }

  lemma WholeGap(x: real, y: real)
    requires Whole(x) && Whole(y) && x + 1.0 < y
    ensures x + 2.0 <= y
  {
    var a, b := x.Floor, y.Floor;
    assert (a + 1) as real < b as real;
    assert a + 2 <= b;
  }

  /** An adjusted marker set is still a marker set, and only marker `i` can have moved. */
  lemma AdjustKeepsOrder(t: Track, i: nat)
    requires Ordered(t) && 1 <= i <= 3
    ensures var r := Adjust(t, i);
            && Ordered(r) && r.desired == t.desired
            && forall j :: 0 <= j < 5 && j != i ==> r.heights[j] == t.heights[j] && r.positions[j] == t.positions[j]
  {
    if Lags(t, i) {
      var sign := if t.desired[i] - t.positions[i] >= 0.0 then 1.0 else -1.0;
      LinearStaysBetween(t, i, sign);
      WholeStep(t.positions[i]);
      if sign > 0.0 {
        WholeGap(t.positions[i], t.positions[i + 1]);
      } else {
        WholeGap(t.positions[i - 1], t.positions[i]);
      }
    }
  }

  /** What a new value does to the markers before any of them is adjusted. */
  function Absorb(t: Track, p: real, x: real): (r: Track)
    requires Shaped(t)
    ensures Shaped(r)
  {
    Track(Stretch(t.heights, x), Shift(t.positions, Cell(t.heights, x)), Advance(t.desired, p))
  }

  lemma AbsorbKeepsOrder(t: Track, p: real, x: real)
    requires Ordered(t)
    ensures var r := Absorb(t, p, x);
            && Ordered(r)
            && r.positions[0] == t.positions[0] && r.positions[4] == t.positions[4] + 1.0
            && r.heights[0] == RMin(t.heights[0], x) && r.heights[4] == RMax(t.heights[4], x)
  {
    forall i | 0 <= i < 5
      ensures Whole(Absorb(t, p, x).positions[i])
    {
      WholeStep(t.positions[i]);
    }
  }

  function Settle(t: Track, p: real, x: real): (r: Track)
    requires Ordered(t)
    ensures Ordered(r)
    ensures r.positions[0] == t.positions[0] && r.positions[4] == t.positions[4] + 1.0
    ensures r.heights[0] == RMin(t.heights[0], x) && r.heights[4] == RMax(t.heights[4], x)
    ensures r.desired == Advance(t.desired, p)
  {
    AbsorbKeepsOrder(t, p, x);
    var a := Absorb(t, p, x);
    AdjustKeepsOrder(a, 1);
    var b := Adjust(a, 1);
    AdjustKeepsOrder(b, 2);
    var c := Adjust(b, 2);
    AdjustKeepsOrder(c, 3);
    Adjust(c, 3)
  }

  // ------------------------------------------------------------ whole streams

  datatype Marker = Filling(init: seq<real>) | Seeded(track: Track)

  /** The desired positions after `n` observations, one increment at a time. */
  function Ideal(p: real, n: nat): (d: seq<real>)
    requires n >= 5
    ensures |d| == 5
  {
    if n == 5 then [1.0, 1.0 + 2.0 * p, 1.0 + 4.0 * p, 3.0 + 2.0 * p, 5.0] else Advance(Ideal(p, n - 1), p)
  }

  /**
   * The marker after a stream: the first five values seed it, the rest settle in. From then on the outer
   * markers stand on the least and greatest values seen and on positions 1 and `count`.
   */
  function After(p: real, xs: seq<real>): (m: Marker)
    ensures m.Seeded? <==> |xs| >= 5
    ensures m.Filling? ==> m.init == xs
    ensures m.Seeded? ==> Ordered(m.track) && m.track.desired == Ideal(p, |xs|)
    ensures m.Seeded? ==> m.track.positions[0] == 1.0 && m.track.positions[4] == |xs| as real
    ensures m.Seeded? ==> m.track.heights[0] == Least(xs) && m.track.heights[4] == Greatest(xs)
  {
    if |xs| < 5 then Filling(xs)
    else if |xs| == 5 then SeedIsOrdered(p, xs); Seeded(Seed(p, xs))
    else
      var t := After(p, xs[..|xs| - 1]).track;
      SettleFollows(p, xs, t);
      Seeded(Settle(t, p, xs[|xs| - 1]))
  }

  lemma SettleFollows(p: real, xs: seq<real>, t: Track)
    requires |xs| > 5 && Ordered(t)
    requires t.desired == Ideal(p, |xs| - 1) && t.positions[4] == (|xs| - 1) as real
    requires t.heights[0] == Least(xs[..|xs| - 1]) && t.heights[4] == Greatest(xs[..|xs| - 1])
    ensures var r := Settle(t, p, xs[|xs| - 1]);
            && r.desired == Ideal(p, |xs|) && r.positions[4] == |xs| as real
            && r.heights[0] == Least(xs) && r.heights[4] == Greatest(xs)
  {
  }

  lemma SeedIsOrdered(p: real, init: seq<real>)
    requires |init| == 5
    ensures var t := Seed(p, init);
            Ordered(t) && t.desired == Ideal(p, 5) && t.heights[0] == Least(init) && t.heights[4] == Greatest(init)
  {
    SortedEnds(init);
  }

  /** Where a desired position stands after `n` increments. */
  function Climb(inc: real, n: nat): real {
    if n == 0 then 1.0 else Climb(inc, n - 1) + inc
  }

  lemma {:induction false} ClimbClosedForm(inc: real, n: nat)
    ensures Climb(inc, n) == 1.0 + n as real * inc
  {
    if n > 0 {
      ClimbClosedForm(inc, n - 1);
      Scale(inc, n as real, (n - 1) as real + 1.0);
    }
  }

  lemma SeedClimb(p: real, i: nat)
    requires i < 5
    ensures Ideal(p, 5)[i] == Climb(Increments(p)[i], 4)
  {
    var inc := Increments(p)[i];
    assert Climb(inc, 1) == 1.0 + inc;
    assert Climb(inc, 2) == 1.0 + inc + inc;
    assert Climb(inc, 3) == Climb(inc, 2) + inc;
    assert Climb(inc, 4) == Climb(inc, 2) + inc + inc;
  }

  lemma {:induction false} IdealClimbs(p: real, n: nat, i: nat)
    requires n >= 5 && i < 5
    ensures Ideal(p, n)[i] == Climb(Increments(p)[i], n - 1)
  {
    if n == 5 {
      SeedClimb(p, i);
    } else {
      IdealClimbs(p, n - 1, i);
    }
  }

  /** Every desired position is where its own increment puts it, `n - 1` steps from one. */
  lemma IdealIsProportional(p: real, n: nat, i: nat, inc: real)
    requires n >= 5 && i < 5 && inc == Increments(p)[i]
    ensures Ideal(p, n)[i] == 1.0 + (n - 1) as real * inc
  {
    hide Ideal, Climb, Increments;
    IdealClimbs(p, n, i);
    ClimbClosedForm(inc, n - 1);
  }

  /** Whatever the stream, every marker height (so every reported quantile) lies between its extremes. */
  lemma QuantileWithinExtremes(p: real, xs: seq<real>, i: nat)
    requires |xs| >= 5 && i < 5
    ensures Least(xs) <= After(p, xs).track.heights[i] <= Greatest(xs)
  {
    var h := After(p, xs).track.heights;
    assert h[0] <= h[i] <= h[4];
  }

  // ---------------------------------------------------------------- the class

  class P2Marker {
    const p: real
    const heights: array<real>
    const positions: array<real>
    const desired: array<real>
    var init: seq<real>
    var initialized: bool
    /** The stream so far; nothing but specifications reads it. */
    ghost var seen: seq<real>

    ghost function Markers(): Track
      reads this, heights, positions, desired
    {
      Track(heights[..], positions[..], desired[..])
    }

    predicate Separate() {
      && heights.Length == positions.Length == desired.Length == 5
      && heights != positions && positions != desired && heights != desired
    }

    ghost function Repr(): set<object> {
      {this, heights, positions, desired}
    }

    ghost predicate Valid()
      reads this, heights, positions, desired
    {
      && Separate()
      && initialized == (|seen| >= 5)
      && (!initialized ==> init == seen)
      && (initialized ==> init == [] && After(p, seen) == Seeded(Markers()))
    }

    constructor (p: real)
      ensures Valid() && seen == [] && this.p == p
      ensures fresh(heights) && fresh(positions) && fresh(desired)
    {
      this.p := p;
      heights := new real[5](_ => 0.0);
      positions := new real[5](_ => 0.0);
      desired := new real[5](_ => 0.0);
      init, initialized, seen := [], false, [];
    }

    method Observe(value: real)
      requires Valid()
      modifies this, heights, positions, desired
      ensures Valid() && seen == old(seen) + [value]
    {
      ghost var was := seen;
      seen := seen + [value];
      assert seen[..|was|] == was;
      if !initialized {
        init := init + [value];
        if |init| == 5 {
          SeedFrom(init);
          initialized := true;
          init := [];
        }
        return;
      }
      SettleIn(value);
    }

    method SeedFrom(sample: seq<real>)
      requires Separate() && |sample| == 5
      modifies heights, positions, desired
      ensures Markers() == Seed(p, sample)
    {
      var sorted := Sort(sample);
      for i := 0 to 5
        modifies heights, positions
        invariant forall j :: 0 <= j < i ==> heights[j] == sorted[j] && positions[j] == (j + 1) as real
      {
        heights[i], positions[i] := sorted[i], (i + 1) as real;
      }
      desired[0], desired[1], desired[2] := 1.0, 1.0 + 2.0 * p, 1.0 + 4.0 * p;
      desired[3], desired[4] := 3.0 + 2.0 * p, 5.0;
      assert heights[..] == sorted;
      assert positions[..] == [1.0, 2.0, 3.0, 4.0, 5.0];
      assert desired[..] == [1.0, 1.0 + 2.0 * p, 1.0 + 4.0 * p, 3.0 + 2.0 * p, 5.0];
    }

    /** The body of an observation once the markers are seeded. */
    method SettleIn(value: real)
      requires Separate() && Ordered(Markers())
      modifies heights, positions, desired
      ensures Markers() == Settle(old(Markers()), p, value)
    {
      ghost var t := Markers();
      AbsorbKeepsOrder(t, p, value);
      AbsorbValue(value);
      AdjustMarker(1);
      AdjustMarker(2);
      AdjustMarker(3);
    }

    /** Stretch the outer markers, count the value into its cell, and move every desired position on. */
    method AbsorbValue(value: real)
      requires Separate() && Ordered(Markers())
      modifies heights, positions, desired
      ensures Markers() == Absorb(old(Markers()), p, value)
    {
      ghost var t := Markers();
      var k := 0;
      if value < heights[0] {
        heights[0] := value;
      } else if value >= heights[4] {
        heights[4] := value;
        k := 3;
      } else {
        while k < 4 && !(heights[k] <= value < heights[k + 1])
          invariant k <= 4 && FindCell(t.heights, value, 0) == FindCell(t.heights, value, k)
        {
          k := k + 1;
        }
        SomeCellHolds(t.heights, value, 0);
        assert k < 4;  // the fallback cell is never needed
      }
      assert k == Cell(t.heights, value);
      assert heights[..] == Stretch(t.heights, value);
      for i := k + 1 to 5
        modifies positions
        invariant forall j :: 0 <= j < 5 ==> positions[j] == if k < j < i then t.positions[j] + 1.0 else t.positions[j]
      {
        positions[i] := positions[i] + 1.0;
      }
      assert positions[..] == Shift(t.positions, k);
      for i := 0 to 5
        modifies desired
        invariant forall j :: 0 <= j < 5 ==>
                    desired[j] == if j < i then t.desired[j] + Increments(p)[j] else t.desired[j]
      {
        desired[i] := desired[i] + Increments(p)[i];
      }
      assert desired[..] == Advance(t.desired, p);
    }

    method AdjustMarker(i: nat)
      requires Separate() && 1 <= i <= 3 && Ordered(Markers())
      modifies heights, positions
      ensures Markers() == Adjust(old(Markers()), i) && Ordered(Markers())
    {
      var t := Track(heights[..], positions[..], desired[..]);
      AdjustKeepsOrder(t, i);
      var d := desired[i] - positions[i];
      var rightGap := positions[i + 1] - positions[i];
      var leftGap := positions[i - 1] - positions[i];
      if (d >= 1.0 && rightGap > 1.0) || (d <= -1.0 && leftGap < -1.0) {
        var sign := if d >= 0.0 then 1.0 else -1.0;
        var curved := Parabolic(t, i, sign);
        var height := curved;
        if !(heights[i - 1] < curved < heights[i + 1]) {
          height := Linear(t, i, sign);
        }
        heights[i] := height;
        positions[i] := positions[i] + sign;
        assert heights[..] == t.heights[i := height];
        assert positions[..] == t.positions[i := t.positions[i] + sign];
      }
    }

    method Quantile() returns (q: Option<real>)
      requires Valid()
      ensures q.Some? <==> |seen| >= 5
      ensures q.Some? ==> q.value == After(p, seen).track.heights[2] && Least(seen) <= q.value <= Greatest(seen)
    {
      if !initialized {
        return None;
      }
      QuantileWithinExtremes(p, seen, 2);
      assert After(p, seen).track.heights[2] == heights[2];
      return Some(heights[2]);
    }
  }

  // ---------------------------------------------------------------- the sketch

  const EPSILON := 0.000000001

  predicate Near(q: real, p: real) {
    -EPSILON < q - p < EPSILON
  }

  /** The marker that answers for a quantile, if one does. */
  function MarkerFor(q: real): Option<real> {
    if Near(q, 0.5) then Some(0.5)
    else if Near(q, 0.95) then Some(0.95)
    else if Near(q, 0.99) then Some(0.99)
    else None
  }

  /** Three markers fed the same stream. */
  class PercentileSketch {
    var count: nat
    const p50: P2Marker
    const p95: P2Marker
    const p99: P2Marker

    ghost function Repr(): set<object> {
      {this} + p50.Repr() + p95.Repr() + p99.Repr()
    }

    ghost predicate Apart() {
      && p50.Repr() !! p95.Repr() && p50.Repr() !! p99.Repr() && p95.Repr() !! p99.Repr()
      && this !in p50.Repr() + p95.Repr() + p99.Repr()
    }

    ghost predicate Valid()
      reads Repr()
    {
      && Apart() && p50.Valid() && p95.Valid() && p99.Valid()
      && p50.p == 0.5 && p95.p == 0.95 && p99.p == 0.99
      && p50.seen == p95.seen == p99.seen && count == |p50.seen|
    }

    ghost function Seen(): seq<real>
      reads p50
    {
      p50.seen
    }

    constructor ()
      ensures Valid() && Seen() == [] && fresh(Repr())
    {
      hide After, Sorted, Ordered, P2Marker.Valid;
      count := 0;
      p50 := new P2Marker(0.5);
      p95 := new P2Marker(0.95);
      p99 := new P2Marker(0.99);
    }

    method Observe(value: real)
      requires Valid()
      modifies Repr()
      ensures Valid() && Seen() == old(Seen()) + [value]
    {
      hide After, Sorted, Ordered, P2Marker.Valid;
      count := count + 1;
      p50.Observe(value);
      p95.Observe(value);
      p99.Observe(value);
    }

    /** From five observations on, the quantiles it keeps a marker for, each within the extremes seen; and no others. */
    method Quantile(q: real) returns (r: Option<real>)
      requires Valid()
      ensures r.Some? <==> |Seen()| >= 5 && MarkerFor(q).Some?
      ensures r.Some? ==>
                && r.value == After(MarkerFor(q).value, Seen()).track.heights[2]
                && Least(Seen()) <= r.value <= Greatest(Seen())
    {
      if count < 5 {
        return None;
      }
      if Near(q, 0.5) {
        r := p50.Quantile();
      } else if Near(q, 0.95) {
        r := p95.Quantile();
      } else if Near(q, 0.99) {
        r := p99.Quantile();
      } else {
        r := None;
      }
    }
  }
}
