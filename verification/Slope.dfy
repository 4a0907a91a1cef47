/**
 * The least-squares growth of a series with gaps, before rounding: it is defined as soon as two points
 * are reported, and lies between the least and the greatest growth between two points.
 */
module Slope {
  import opened Wrappers

  datatype Point = Point(x: int, y: real)

  /** The reported points of a series: position and value. */
  function Points(series: seq<Option<real>>): seq<Point> {
    if series == [] then []
    else Points(series[..|series| - 1]) +
         if series[|series| - 1].Some? then [Point(|series| - 1, series[|series| - 1].value)] else []
  }

  function SumX(points: seq<Point>): real {
    if points == [] then 0.0 else SumX(points[..|points| - 1]) + points[|points| - 1].x as real
  }

  function SumY(points: seq<Point>): real {
    if points == [] then 0.0 else SumY(points[..|points| - 1]) + points[|points| - 1].y
  }

  /** A product, named so that sums of products stay sums. */
  function Times(r: real, s: real): real {
    r * s
  }

  /** The sum of the products of both distances, from `a` and from `b`. */
  function Products(points: seq<Point>, a: real, b: real): real {
    if points == [] then 0.0
    else Products(points[..|points| - 1], a, b) +
         Times(points[|points| - 1].x as real - a, points[|points| - 1].y - b)
  }

  /** The sum of the squared distances from `a`. */
  function Spread(points: seq<Point>, a: real): real {
    if points == [] then 0.0
    else Spread(points[..|points| - 1], a) + Times(points[|points| - 1].x as real - a, points[|points| - 1].x as real - a)
  }

  function MeanX(points: seq<Point>): real
    requires points != []
  {
    SumX(points) / |points| as real
  }

  function MeanY(points: seq<Point>): real
    requires points != []
  {
    SumY(points) / |points| as real
  }

  /** The slope of the series, or none below two reported points. */
  function SlopeOf(series: seq<Option<real>>): Option<real> {
    var points := Points(series);
    if |points| < 2 then None
    else
      SeriesSpread(series);
      Some(Products(points, MeanX(points), MeanY(points)) / Spread(points, MeanX(points)))
  }

  // ---------------------------------------------------------------- the spread

  ghost predicate Increasing(points: seq<Point>) {
    forall i, j :: 0 <= i < j < |points| ==> points[i].x < points[j].x
  }

  lemma {:induction false} PointsIncrease(series: seq<Option<real>>)
    ensures Increasing(Points(series))
    ensures forall k :: 0 <= k < |Points(series)| ==> IsPoint(series, Points(series)[k])
  {
    if series != [] {
      var init, points := series[..|series| - 1], Points(series);
      PointsIncrease(init);
      forall k | 0 <= k < |points| ensures IsPoint(series, points[k]) {
        if k < |Points(init)| {
          assert IsPoint(init, points[k]);
        }
      }
      forall i, j | 0 <= i < j < |points| ensures points[i].x < points[j].x {
        assert IsPoint(init, Points(init)[i]);
      }
    }
  }

  predicate IsPoint(series: seq<Option<real>>, p: Point) {
    0 <= p.x < |series| && series[p.x] == Some(p.y)
  }

  lemma TimesPositive(r: real, s: real)
    requires r > 0.0 && s > 0.0
    ensures Times(r, s) > 0.0
  {
  }

  lemma Square(r: real)
    ensures Times(r, r) >= 0.0
    ensures r != 0.0 ==> Times(r, r) > 0.0
  {
    if r > 0.0 {
      TimesPositive(r, r);
    } else if r < 0.0 {
      TimesPositive(-r, -r);
      assert Times(r, r) == Times(-r, -r);
    }
  }

  lemma {:induction false} SpreadNonNegative(points: seq<Point>, a: real)
    ensures Spread(points, a) >= 0.0
  {
    if points != [] {
      SpreadNonNegative(points[..|points| - 1], a);
      Square(points[|points| - 1].x as real - a);
    }
  }

  lemma {:induction false} SpreadPositive(points: seq<Point>, a: real, i: nat)
    requires i < |points| && points[i].x as real != a
    ensures Spread(points, a) > 0.0
  {
    var init := points[..|points| - 1];
    Square(points[|points| - 1].x as real - a);
    SpreadNonNegative(init, a);
    if i < |init| {
      SpreadPositive(init, a, i);
    }
  }

  /** Two points at different positions are enough: the division is by a positive number. */
  lemma SeriesSpread(series: seq<Option<real>>)
    requires |Points(series)| >= 2
    ensures Spread(Points(series), MeanX(Points(series))) > 0.0
  {
    var points := Points(series);
    PointsIncrease(series);
    assert points[0].x < points[1].x;
    SpreadPositive(points, MeanX(points), if points[0].x as real != MeanX(points) then 0 else 1);
  }

  // ---------------------------------------------------------------- sums of products

  /** Moving the second reference point changes nothing when the first is the mean. */
  lemma {:induction false} ProductsShift(points: seq<Point>, a: real, b: real, c: real)
    ensures Products(points, a, b) == Products(points, a, c) + Times(c - b, SumX(points) - Times(|points| as real, a))
  {
    if points != [] {
      var init, last := points[..|points| - 1], points[|points| - 1];
      ProductsShift(init, a, b, c);
      ShiftTerm(last.x as real - a, last.y, b, c);
      CountTerm(SumX(init), last.x as real, |init| as real, a);
      assert |points| as real == |init| as real + 1.0;
      Distribute(c - b, SumX(init) - Times(|init| as real, a), last.x as real - a);
    }
  }

  lemma ShiftTerm(d: real, y: real, b: real, c: real)
    ensures Times(d, y - b) == Times(d, y - c) + Times(c - b, d)
  {
  }

  lemma CountTerm(sum: real, x: real, n: real, a: real)
    ensures (sum + x) - Times(n + 1.0, a) == (sum - Times(n, a)) + (x - a)
  {
  }

  lemma Distribute(k: real, r: real, s: real)
    ensures Times(k, r + s) == Times(k, r) + Times(k, s)
  {
  }

  lemma ProductsAtMean(points: seq<Point>, b: real, c: real)
    requires points != []
    ensures Products(points, MeanX(points), b) == Products(points, MeanX(points), c)
  {
    ProductsShift(points, MeanX(points), b, c);
    MeanTimesCount(SumX(points), |points| as real);
    assert Times(c - b, 0.0) == 0.0;
  }

  lemma MeanTimesCount(sum: real, n: real)
    requires n > 0.0
    ensures Times(n, sum / n) == sum
  {
  }

  function Tilt(sign: real, k: real, y: real, x: real): real {
    sign * y - k * x
  }

  function TiltedPoint(p: Point, sign: real, k: real): (t: Point)
    ensures t.x == p.x
  {
    Point(p.x, Tilt(sign, k, p.y, p.x as real))
  }

  /** The points with the line of slope `k` taken away, or turned round. */
  function Tilted(points: seq<Point>, sign: real, k: real): seq<Point> {
    seq(|points|, i requires 0 <= i < |points| => TiltedPoint(points[i], sign, k))
  }

  lemma TiltedInit(points: seq<Point>, sign: real, k: real)
    requires points != []
    ensures Tilted(points, sign, k)[..|points| - 1] == Tilted(points[..|points| - 1], sign, k)
  {
    var all, init := Tilted(points, sign, k), points[..|points| - 1];
    forall i | 0 <= i < |init| ensures all[i] == Tilted(init, sign, k)[i] {
      assert points[i] == init[i];
    }
  }

  lemma {:induction false} ProductsTilted(points: seq<Point>, sign: real, k: real, a: real, b: real)
    ensures Products(Tilted(points, sign, k), a, Tilt(sign, k, b, a)) == Tilt(sign, k, Products(points, a, b), Spread(points, a))
  {
    hide Tilt, Times, TiltedPoint;
    if points != [] {
      var init, last, c := points[..|points| - 1], points[|points| - 1], Tilt(sign, k, b, a);
      ProductsTilted(init, sign, k, a, b);
      TiltedNext(points, sign, k, a, c);
      TiltedLast(last, sign, k, a, b);
      var p, d := Products(init, a, b), Times(last.x as real - a, last.y - b);
      var s, q := Spread(init, a), Times(last.x as real - a, last.x as real - a);
      TiltAdds(sign, k, p, d, s, q);
    } else {
      assert Tilted(points, sign, k) == [];
      TiltZero(sign, k);
    }
  }

  lemma TiltedNext(points: seq<Point>, sign: real, k: real, a: real, c: real)
    requires points != []
    ensures var init, last := points[..|points| - 1], points[|points| - 1];
            Products(Tilted(points, sign, k), a, c) ==
            Products(Tilted(init, sign, k), a, c) + Times(last.x as real - a, TiltedPoint(last, sign, k).y - c)
  {
    TiltedInit(points, sign, k);
    hide Times, TiltedPoint;
    var all := Tilted(points, sign, k);
    assert all[|all| - 1] == TiltedPoint(points[|points| - 1], sign, k);
    hide Tilted;
    assert Products(all, a, c) ==
      Products(all[..|all| - 1], a, c) + Times(all[|all| - 1].x as real - a, all[|all| - 1].y - c);
  }

  lemma TiltZero(sign: real, k: real)
    ensures Tilt(sign, k, 0.0, 0.0) == 0.0
  {
  }

  lemma TiltAdds(sign: real, k: real, p: real, d: real, s: real, q: real)
    ensures Tilt(sign, k, p + d, s + q) == Tilt(sign, k, p, s) + Tilt(sign, k, d, q)
  {
  }

  lemma TiltedLast(p: Point, sign: real, k: real, a: real, b: real)
    ensures Times(p.x as real - a, TiltedPoint(p, sign, k).y - Tilt(sign, k, b, a)) ==
            Tilt(sign, k, Times(p.x as real - a, p.y - b), Times(p.x as real - a, p.x as real - a))
  {
    hide Times, Tilt;
    TiltedTerm(p.x as real, p.y, sign, k, a, b);
  }

  lemma TiltedTerm(x: real, y: real, sign: real, k: real, a: real, b: real)
    ensures Times(x - a, Tilt(sign, k, y, x) - Tilt(sign, k, b, a)) == Tilt(sign, k, Times(x - a, y - b), Times(x - a, x - a))
  {
    var d, e := x - a, y - b;
    assert Tilt(sign, k, y, x) - Tilt(sign, k, b, a) == sign * e - k * d;
    assert d * (sign * e - k * d) == d * (sign * e) - d * (k * d);
    assert d * (sign * e) == sign * (d * e);
    assert d * (k * d) == k * (d * d);
  }

  /** With values that never fall, distances from a point and its value never disagree in sign. */
  lemma {:induction false} ProductsFromPivot(points: seq<Point>, a: real, pivot: Point, n: nat)
    requires n <= |points|
    requires forall i :: 0 <= i < |points| ==>
               (points[i].x as real <= a && points[i].y <= pivot.y) || (points[i].x as real >= a && points[i].y >= pivot.y)
    ensures Products(points[..n], a, pivot.y) >= 0.0
  {
    if n > 0 {
      ProductsFromPivot(points, a, pivot, n - 1);
      assert points[..n][..n - 1] == points[..n - 1];
      SameSign(points[n - 1].x as real - a, points[n - 1].y - pivot.y);
    } else {
      assert points[..0] == [];
    }
  }

  lemma SameSign(r: real, s: real)
    requires (r <= 0.0 && s <= 0.0) || (r >= 0.0 && s >= 0.0)
    ensures Times(r, s) >= 0.0
  {
  }

  ghost predicate NeverFalls(points: seq<Point>) {
    forall i, j :: 0 <= i <= j < |points| ==> points[i].x <= points[j].x && points[i].y <= points[j].y
  }

  /** Values that never fall over positions that never fall have a sum of products that is not negative. */
  lemma RisingProducts(points: seq<Point>, b: real)
    requires points != [] && NeverFalls(points)
    ensures Products(points, MeanX(points), b) >= 0.0
  {
    var a := MeanX(points);
    var k := 0;
    while k < |points| && points[k].x as real <= a
      invariant k <= |points| && forall i :: 0 <= i < k ==> points[i].x as real <= a
    {
      k := k + 1;
    }
    var pivot := if k == 0 then points[0] else points[k - 1];
    forall i | 0 <= i < |points|
      ensures (points[i].x as real <= a && points[i].y <= pivot.y) || (points[i].x as real >= a && points[i].y >= pivot.y)
    {
      if i >= k {
        assert points[k].x <= points[i].x;
      }
    }
    ProductsFromPivot(points, a, pivot, |points|);
    assert points[..|points|] == points;
    ProductsAtMean(points, b, pivot.y);
  }

  // ---------------------------------------------------------------- the theorems

  ghost predicate GrowsAtLeast(series: seq<Option<real>>, k: real) {
    forall i, j :: 0 <= i < j < |series| && series[i].Some? && series[j].Some? ==>
      k * (j - i) as real <= series[j].value - series[i].value
  }

  ghost predicate GrowsAtMost(series: seq<Option<real>>, k: real) {
    forall i, j :: 0 <= i < j < |series| && series[i].Some? && series[j].Some? ==>
      series[j].value - series[i].value <= k * (j - i) as real
  }

  /** Tilting by a bound on the growth leaves values that never fall. */
  lemma LowerTilt(series: seq<Option<real>>, k: real)
    requires GrowsAtLeast(series, k)
    ensures NeverFalls(Tilted(Points(series), 1.0, k))
  {
    var points := Points(series);
    PointsIncrease(series);
    hide Points, GrowsAtLeast, TiltedPoint;
    forall i, j | 0 <= i <= j < |points|
      ensures points[i].x <= points[j].x && Tilted(points, 1.0, k)[i].y <= Tilted(points, 1.0, k)[j].y
    {
      if i < j {
        var p, q := points[i], points[j];
        assert IsPoint(series, p) && IsPoint(series, q);
        LowerPair(series, k, p, q);
      }
    }
  }

  lemma UpperTilt(series: seq<Option<real>>, k: real)
    requires GrowsAtMost(series, k)
    ensures NeverFalls(Tilted(Points(series), -1.0, -k))
  {
    var points := Points(series);
    PointsIncrease(series);
    hide Points, GrowsAtMost, TiltedPoint;
    forall i, j | 0 <= i <= j < |points|
      ensures points[i].x <= points[j].x && Tilted(points, -1.0, -k)[i].y <= Tilted(points, -1.0, -k)[j].y
    {
      if i < j {
        var p, q := points[i], points[j];
        assert IsPoint(series, p) && IsPoint(series, q);
        UpperPair(series, k, p, q);
      }
    }
  }

  lemma LowerPair(series: seq<Option<real>>, k: real, p: Point, q: Point)
    requires GrowsAtLeast(series, k) && IsPoint(series, p) && IsPoint(series, q) && p.x < q.x
    ensures TiltedPoint(p, 1.0, k).y <= TiltedPoint(q, 1.0, k).y
  {
    LowerStep(k, p.x, q.x, p.y, q.y);
  }

  lemma UpperPair(series: seq<Option<real>>, k: real, p: Point, q: Point)
    requires GrowsAtMost(series, k) && IsPoint(series, p) && IsPoint(series, q) && p.x < q.x
    ensures TiltedPoint(p, -1.0, -k).y <= TiltedPoint(q, -1.0, -k).y
  {
    UpperStep(k, p.x, q.x, p.y, q.y);
  }

  lemma LowerStep(k: real, i: int, j: int, y: real, z: real)
    requires k * (j - i) as real <= z - y
    ensures 1.0 * y - k * i as real <= 1.0 * z - k * j as real
  {
    Steps(k, i, j);
  }

  lemma UpperStep(k: real, i: int, j: int, y: real, z: real)
    requires z - y <= k * (j - i) as real
    ensures (-1.0) * y - (-k) * i as real <= (-1.0) * z - (-k) * j as real
  {
    Steps(k, i, j);
    Negated(k, i as real);
    Negated(k, j as real);
  }

  lemma Negated(k: real, x: real)
    ensures (-k) * x == -(k * x)
  {
  }

  lemma Steps(k: real, i: int, j: int)
    ensures k * (j - i) as real == k * j as real - k * i as real
  {
    assert (j - i) as real == j as real - i as real;
  }

  lemma TiltedSums(points: seq<Point>, sign: real, k: real)
    requires points != []
    ensures MeanX(Tilted(points, sign, k)) == MeanX(points)
  {
    TiltedSumX(points, sign, k);
  }

  lemma {:induction false} TiltedSumX(points: seq<Point>, sign: real, k: real)
    ensures SumX(Tilted(points, sign, k)) == SumX(points)
  {
    if points != [] {
      var init := points[..|points| - 1];
      TiltedSumX(init, sign, k);
      TiltedInit(points, sign, k);
    } else {
      assert Tilted(points, sign, k) == [];
    }
  }

  lemma TiltedProducts(points: seq<Point>, sign: real, k: real)
    requires points != [] && NeverFalls(Tilted(points, sign, k))
    ensures Tilt(sign, k, Products(points, MeanX(points), MeanY(points)), Spread(points, MeanX(points))) >= 0.0
  {
    hide Spread, NeverFalls, Tilt;
    var a, b := MeanX(points), MeanY(points);
    TiltedSums(points, sign, k);
    RisingProducts(Tilted(points, sign, k), Tilt(sign, k, b, a));
    ProductsTilted(points, sign, k, a, b);
  }

  lemma Quotient(p: real, q: real, k: real)
    requires q > 0.0
    ensures p >= k * q ==> p / q >= k
    ensures p <= k * q ==> p / q <= k
  {
    var r := p / q;
    assert r * q == p;
    assert (r - k) * q == p - k * q;
    PositiveFactor(r - k, q);
  }

  lemma PositiveFactor(d: real, q: real)
    requires q > 0.0
    ensures d * q >= 0.0 ==> d >= 0.0
    ensures d * q <= 0.0 ==> d <= 0.0
  {
    if d < 0.0 {
      assert (-d) * q > 0.0;
    } else if d > 0.0 {
      assert d * q > 0.0;
    }
  }

  /** A bound on the growth between any two reported points is a bound on the slope. */
  lemma SlopeWithinBounds(series: seq<Option<real>>, k: real)
    requires |Points(series)| >= 2
    ensures GrowsAtLeast(series, k) ==> SlopeOf(series).Some? && k <= SlopeOf(series).value
    ensures GrowsAtMost(series, k) ==> SlopeOf(series).Some? && SlopeOf(series).value <= k
  {
    SeriesSpread(series);
    if GrowsAtLeast(series, k) {
      LowerBound(series, k);
    }
    if GrowsAtMost(series, k) {
      UpperBound(series, k);
    }
  }

  lemma LowerBound(series: seq<Option<real>>, k: real)
    requires |Points(series)| >= 2 && GrowsAtLeast(series, k)
    ensures k <= SlopeOf(series).value
  {
    hide Products, Spread, MeanX, MeanY, Points, GrowsAtLeast, NeverFalls, Tilted, Tilt;
    var points := Points(series);
    SeriesSpread(series);
    LowerTilt(series, k);
    TiltedProducts(points, 1.0, k);
    StraightQuotient(Products(points, MeanX(points), MeanY(points)), Spread(points, MeanX(points)), k);
  }

  lemma StraightQuotient(p: real, q: real, k: real)
    requires q > 0.0 && Tilt(1.0, k, p, q) >= 0.0
    ensures p / q >= k
  {
    Quotient(p, q, k);
  }

  lemma UpperBound(series: seq<Option<real>>, k: real)
    requires |Points(series)| >= 2 && GrowsAtMost(series, k)
    ensures SlopeOf(series).value <= k
  {
    UpperTilt(series, k);
    UpperFromTilt(series, k);
  }

  lemma UpperFromTilt(series: seq<Option<real>>, k: real)
    requires |Points(series)| >= 2 && NeverFalls(Tilted(Points(series), -1.0, -k))
    ensures SlopeOf(series).value <= k
  {
    hide Products, Spread, MeanX, MeanY, Points, NeverFalls, Tilted, Tilt;
    var points := Points(series);
    SeriesSpread(series);
    TiltedProducts(points, -1.0, -k);
    TurnedQuotient(Products(points, MeanX(points), MeanY(points)), Spread(points, MeanX(points)), k);
  }

  lemma TurnedQuotient(p: real, q: real, k: real)
    requires q > 0.0 && Tilt(-1.0, -k, p, q) >= 0.0
    ensures p / q <= k
  {
    assert (-k) * q == -(k * q);
    Quotient(p, q, k);
  }

  /** A series that never falls has no negative slope, whatever gaps it has. */
  lemma RisingSeries(series: seq<Option<real>>)
    requires |Points(series)| >= 2
    requires forall i, j :: 0 <= i < j < |series| && series[i].Some? && series[j].Some? ==> series[i].value <= series[j].value
    ensures SlopeOf(series).value >= 0.0
  {
    SlopeWithinBounds(series, 0.0);
  }

  /** A linear series gets exactly its coefficient. */
  lemma LinearSeries(series: seq<Option<real>>, k: real, c: real)
    requires |Points(series)| >= 2
    requires forall i :: 0 <= i < |series| && series[i].Some? ==> series[i].value == k * i as real + c
    ensures SlopeOf(series) == Some(k)
  {
    LinearGrowth(series, k, c);
    hide SlopeOf, GrowsAtLeast, GrowsAtMost, Points;
    SlopeWithinBounds(series, k);
  }

  lemma LinearGrowth(series: seq<Option<real>>, k: real, c: real)
    requires forall i :: 0 <= i < |series| && series[i].Some? ==> series[i].value == k * i as real + c
    ensures GrowsAtLeast(series, k) && GrowsAtMost(series, k)
  {
    forall i, j | 0 <= i < j < |series| && series[i].Some? && series[j].Some?
      ensures series[j].value - series[i].value == k * (j - i) as real
    {
      LinearStep(k, c, i, j);
    }
  }

  lemma LinearStep(k: real, c: real, i: int, j: int)
    ensures (k * j as real + c) - (k * i as real + c) == k * (j - i) as real
  {
    assert (j - i) as real == j as real - i as real;
    assert k * (j as real - i as real) == k * j as real - k * i as real;
  }

  // ---------------------------------------------------------------- least squares

  /** The reported positions are all there, each once and in order. */
  lemma {:induction false} PointsAreAll(series: seq<Option<real>>)
    ensures forall i :: 0 <= i < |series| && series[i].Some? ==> Point(i, series[i].value) in Points(series)
  {
    if series != [] {
      var init, last := series[..|series| - 1], |series| - 1;
      PointsAreAll(init);
      forall i | 0 <= i < |series| && series[i].Some? ensures Point(i, series[i].value) in Points(series) {
        if i < last {
          assert init[i] == series[i];
        } else {
          assert Points(series)[|Points(series)| - 1] == Point(i, series[i].value);
        }
      }
    }
  }

  /** The sum of the squared distances of the points from the line of slope `k` through (0, c). */
  function Residuals(points: seq<Point>, k: real, c: real): real {
    if points == [] then 0.0 else Residuals(points[..|points| - 1], k, c) + Squared(Height(points[|points| - 1].x as real, points[|points| - 1].y, k, c))
  }

  /** How far (x, y) is above the line. */
  function Height(x: real, y: real, k: real, c: real): real {
    y - (k * x + c)
  }

  function Squared(r: real): real {
    r * r
  }

  /** The sum of the squared distances of the values from `b`. */
  function SpreadY(points: seq<Point>, b: real): real {
    if points == [] then 0.0
    else SpreadY(points[..|points| - 1], b) + Times(points[|points| - 1].y - b, points[|points| - 1].y - b)
  }

  /** Sums over points, weighed as in a squared residual. */
  datatype Sums = Sums(yy: real, xy: real, xx: real, y: real, x: real, n: real) {
    function Plus(t: Sums): Sums {
      Sums(yy + t.yy, xy + t.xy, xx + t.xx, y + t.y, x + t.x, n + t.n)
    }

    function Weighed(k: real, e: real): real {
      yy - 2.0 * k * xy + k * k * xx + 2.0 * e * y - 2.0 * e * k * x + e * e * n
    }
  }

  function SumsOf(points: seq<Point>, a: real, b: real): Sums {
    Sums(SpreadY(points, b), Products(points, a, b), Spread(points, a), SumY(points) - Times(|points| as real, b),
         SumX(points) - Times(|points| as real, a), |points| as real)
  }

  function SumsAt(p: Point, a: real, b: real): Sums {
    var dx, dy := p.x as real - a, p.y - b;
    Sums(Times(dy, dy), Times(dx, dy), Times(dx, dx), dy, dx, 1.0)
  }

  lemma WeighedAdds(s: Sums, t: Sums, k: real, e: real)
    ensures s.Plus(t).Weighed(k, e) == s.Weighed(k, e) + t.Weighed(k, e)
  {
    Adds(2.0 * k, s.xy, t.xy);
    Adds(k * k, s.xx, t.xx);
    Adds(2.0 * e, s.y, t.y);
    Adds(2.0 * e * k, s.x, t.x);
    Adds(e * e, s.n, t.n);
  }

  lemma Adds(c: real, r: real, s: real)
    ensures c * (r + s) == c * r + c * s
  {
  }

  /** One point's squared residual, from its distances from (a, b). */
  lemma ResidualAt(p: Point, a: real, b: real, k: real, c: real)
    ensures Squared(Height(p.x as real, p.y, k, c)) == SumsAt(p, a, b).Weighed(k, Height(a, b, k, c))
  {
    var x, y, e := p.x as real - a, p.y - b, b - (k * a + c);
    assert p.y - (k * p.x as real + c) == y - k * x + e by {
      Adds(k, x, a);
    }
    Expanded(y, k * x, e);
    assert (k * x) * (k * x) == k * k * (x * x);
    assert y * (k * x) == k * (x * y);
    assert e * (k * x) == e * k * x;
  }

  lemma Expanded(y: real, z: real, e: real)
    ensures (y - z + e) * (y - z + e) == y * y - 2.0 * (y * z) + z * z + 2.0 * e * y - 2.0 * (e * z) + e * e
  {
  }

  lemma SumsNext(points: seq<Point>, a: real, b: real)
    requires points != []
    ensures SumsOf(points, a, b) == SumsOf(points[..|points| - 1], a, b).Plus(SumsAt(points[|points| - 1], a, b))
  {
    var init, last := points[..|points| - 1], points[|points| - 1];
    CountTerm(SumY(init), last.y, |init| as real, b);
    CountTerm(SumX(init), last.x as real, |init| as real, a);
    assert |points| as real == |init| as real + 1.0;
    hide Times;
  }

  lemma {:induction false} ResidualsAre(points: seq<Point>, a: real, b: real, k: real, c: real)
    ensures Residuals(points, k, c) == SumsOf(points, a, b).Weighed(k, Height(a, b, k, c))
  {
    hide SumsOf, SumsAt, Sums.Weighed, Sums.Plus, Height, Squared;
    var e := Height(a, b, k, c);
    if points == [] {
      NoSums(a, b, k, e);
    } else {
      var init, last := points[..|points| - 1], points[|points| - 1];
      ResidualsAre(init, a, b, k, c);
      ResidualAt(last, a, b, k, c);
      SumsNext(points, a, b);
      WeighedAdds(SumsOf(init, a, b), SumsAt(last, a, b), k, e);
    }
  }

  lemma NoSums(a: real, b: real, k: real, e: real)
    ensures SumsOf([], a, b).Weighed(k, e) == 0.0
  {
    assert Times(0.0, a) == 0.0 && Times(0.0, b) == 0.0;
  }

  /** About the means: what the best line leaves, and what any other line adds. */
  lemma ResidualsSplit(points: seq<Point>, m: real, k: real, c: real)
    requires points != [] && Spread(points, MeanX(points)) > 0.0
    requires m == Products(points, MeanX(points), MeanY(points)) / Spread(points, MeanX(points))
    ensures Residuals(points, k, c) ==
            Left(points, m) + Excess(Spread(points, MeanX(points)), |points| as real, k - m, Height(MeanX(points), MeanY(points), k, c))
  {
    hide Residuals, Spread, Products, SpreadY, MeanX, MeanY, Height;
    var a, b := MeanX(points), MeanY(points);
    var p, q, e := Products(points, a, b), Spread(points, a), Height(a, b, k, c);
    ResidualsAre(points, a, b, k, c);
    AtMeans(points);
    WeighedAtMean(SpreadY(points, b), p, q, |points| as real, k, e);
    Completed(p, q, m, k);
  }

  /** What the line of slope `m` through the means leaves. */
  function Left(points: seq<Point>, m: real): real
    requires points != []
  {
    SpreadY(points, MeanY(points)) - m * Products(points, MeanX(points), MeanY(points))
  }

  lemma AtMeans(points: seq<Point>)
    requires points != []
    ensures var a, b := MeanX(points), MeanY(points);
            SumsOf(points, a, b) == Sums(SpreadY(points, b), Products(points, a, b), Spread(points, a), 0.0, 0.0, |points| as real)
  {
    MeanTimesCount(SumX(points), |points| as real);
    MeanTimesCount(SumY(points), |points| as real);
    hide Times;
  }

  /** What a line adds whose slope is `d` off and whose height at the means is `e` off. */
  function Excess(q: real, n: real, d: real, e: real): real {
    q * (d * d) + n * (e * e)
  }

  lemma WeighedAtMean(yy: real, p: real, q: real, n: real, k: real, e: real)
    ensures Sums(yy, p, q, 0.0, 0.0, n).Weighed(k, e) == yy - 2.0 * k * p + k * k * q + e * e * n
  {
  }

  lemma Completed(p: real, q: real, m: real, k: real)
    requires q > 0.0 && m == p / q
    ensures q * ((k - m) * (k - m)) - m * p == k * k * q - 2.0 * k * p
  {
    assert p == m * q;
    assert (k - m) * (k - m) == k * k - 2.0 * (k * m) + m * m;
    assert q * (k * k - 2.0 * (k * m) + m * m) == q * (k * k) - 2.0 * (k * (m * q)) + m * (m * q);
  }

  /** The slope is that of the least-squares line: any other line, in slope or in height, leaves a greater sum of squares. */
  lemma SlopeIsLeastSquares(series: seq<Option<real>>, k: real, c: real)
    requires |Points(series)| >= 2
    ensures var points, m := Points(series), SlopeOf(series).value;
            Residuals(points, m, ThroughMeans(points, m)) <= Residuals(points, k, c) &&
            (Residuals(points, m, ThroughMeans(points, m)) == Residuals(points, k, c) ==> k == m && c == ThroughMeans(points, m))
  {
    hide Residuals, Points, Spread, Products, SpreadY, MeanX, MeanY, Excess, Height;
    var points, m := Points(series), SlopeOf(series).value;
    var a, b := MeanX(points), MeanY(points);
    var p, q, n := Products(points, a, b), Spread(points, a), |points| as real;
    SeriesSpread(series);
    assert m == p / q;
    LeastAtMean(points, m, k, c);
  }

  /** Where a line of slope `m` through the means meets the axis. */
  function ThroughMeans(points: seq<Point>, m: real): real
    requires points != []
  {
    MeanY(points) - m * MeanX(points)
  }

  lemma LeastAtMean(points: seq<Point>, m: real, k: real, c: real)
    requires points != [] && Spread(points, MeanX(points)) > 0.0
    requires m == Products(points, MeanX(points), MeanY(points)) / Spread(points, MeanX(points))
    ensures Residuals(points, m, ThroughMeans(points, m)) <= Residuals(points, k, c)
    ensures Residuals(points, m, ThroughMeans(points, m)) == Residuals(points, k, c) ==> k == m && c == ThroughMeans(points, m)
  {
    hide Residuals, Spread, Products, MeanX, MeanY, Excess, Height, Left;
    var a, b := MeanX(points), MeanY(points);
    var q, n, best := Spread(points, a), |points| as real, ThroughMeans(points, m);
    ResidualsSplit(points, m, m, best);
    ResidualsSplit(points, m, k, c);
    AtBest(a, b, m, k, c);
    ExcessPositive(q, n, k - m, Height(a, b, k, c));
    assert m - m == 0.0;
  }

  lemma AtBest(a: real, b: real, m: real, k: real, c: real)
    ensures Height(a, b, m, b - m * a) == 0.0
    ensures k == m && Height(a, b, k, c) == 0.0 ==> c == b - m * a
  {
  }

  lemma ExcessPositive(q: real, n: real, d: real, e: real)
    requires q > 0.0 && n > 0.0
    ensures Excess(q, n, 0.0, 0.0) == 0.0 <= Excess(q, n, d, e)
    ensures Excess(q, n, d, e) == 0.0 ==> d == 0.0 && e == 0.0
  {
    Square(d);
    Square(e);
    if d != 0.0 {
      TimesPositive(q, d * d);
    }
    if e != 0.0 {
      TimesPositive(n, e * e);
    }
  }
}
