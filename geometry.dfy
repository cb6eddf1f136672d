/**
 * Geographic points, flat coordinate arrays and the numeric helpers shared by
 * the scalar grid, the contour tracer and the stitcher of the traffic overlay
 * (src/App.tsx). Coordinates are exact reals; see README.md for what that
 * leaves out of the source's double-precision arithmetic.
 */
module Geometry {

  /** A (longitude, latitude) pair in degrees: the source's two-element `number[]`. */
  datatype Point = Point(lon: real, lat: real)

  function Abs(x: real): (r: real)
    ensures r >= 0.0 && (r == x || r == -x)
  {
    if x < 0.0 then -x else x
  }

  /** `Math.min` */
  function Min(a: real, b: real): (r: real)
    ensures r <= a && r <= b && (r == a || r == b)
  {
    if a <= b then a else b
  }

  /** `Math.max` */
  function Max(a: real, b: real): (r: real)
    ensures r >= a && r >= b && (r == a || r == b)
  {
    if a <= b then b else a
  }

  /** `Math.max(0, Math.min(1, x))`: the nearest value of [0,1] to x. */
  function Clamp(x: real): (r: real)
    ensures 0.0 <= r <= 1.0
    ensures 0.0 <= x <= 1.0 ==> r == x
    ensures x < 0.0 ==> r == 0.0
    ensures x > 1.0 ==> r == 1.0
  {
    Max(0.0, Min(1.0, x))
  }

  lemma ClampMonotone(x: real, y: real)
    requires x <= y
    ensures Clamp(x) <= Clamp(y)
  {
  }

  /** `lerp(a, b, t)`: the point a fraction t of the way from a to b. */
  function Lerp(a: Point, b: Point, t: real): (p: Point)
    ensures t == 0.0 ==> p == a
    ensures t == 1.0 ==> p == b
  {
    Point(a.lon + (b.lon - a.lon) * t, a.lat + (b.lat - a.lat) * t)
  }

  /** x lies in the closed interval spanned by lo and hi, in either order. */
  predicate Between(x: real, lo: real, hi: real) {
    Min(lo, hi) <= x <= Max(lo, hi)
  }

  /** p lies in the axis-aligned box spanned by a and b. */
  predicate InBox(p: Point, a: Point, b: Point) {
    Between(p.lon, a.lon, b.lon) && Between(p.lat, a.lat, b.lat)
  }

  lemma MulNonNegative(a: real, b: real)
    requires a >= 0.0 && b >= 0.0
    ensures a * b >= 0.0
  {
  }

  lemma MulPositive(a: real, b: real)
    requires a > 0.0 && b > 0.0
    ensures a * b > 0.0
  {
  }

  lemma ScaleBetween(lo: real, hi: real, t: real)
    requires 0.0 <= t <= 1.0
    ensures Between(lo + (hi - lo) * t, lo, hi)
  {
    var d := hi - lo;
    assert d * (1.0 - t) == d - d * t;
    if lo <= hi {
      MulNonNegative(d, t);
      MulNonNegative(d, 1.0 - t);
    } else {
      MulNonNegative(-d, t);
      MulNonNegative(-d, 1.0 - t);
      assert -d * t == -(d * t);
      assert -d * (1.0 - t) == -(d * (1.0 - t));
    }
  }

  /** A lerp with a parameter in [0,1] stays between its two end points. */
  lemma LerpInBox(a: Point, b: Point, t: real)
    requires 0.0 <= t <= 1.0
    ensures InBox(Lerp(a, b, t), a, b)
  {
    ScaleBetween(a.lon, b.lon, t);
    ScaleBetween(a.lat, b.lat, t);
  }

  /** The stitcher's point tolerance `eps` (src/App.tsx:377). */
  const Eps: real := 0.00000001

  /** Two points match when each coordinate differs by less than `eps` (:385-386). */
  predicate Near(p: Point, q: Point) {
    Abs(p.lon - q.lon) < Eps && Abs(p.lat - q.lat) < Eps
  }

  /** A point spread into a flat array, `...p`. */
  function Flat(p: Point): seq<real> {
    [p.lon, p.lat]
  }

  /** The m-th (lon, lat) pair of a flat coordinate array. */
  function PointAt(flat: seq<real>, m: nat): Point
    requires 2 * m + 1 < |flat|
  {
    Point(flat[2 * m], flat[2 * m + 1])
  }

  /** `points.flatMap(p => [p.lon, p.lat])` */
  function Flatten(ps: seq<Point>): (r: seq<real>)
    ensures |r| == 2 * |ps|
    ensures forall m :: 0 <= m < |ps| ==> PointAt(r, m) == ps[m]
  {
    if ps == [] then []
    else
      var rest := Flatten(ps[1..]);
      assert forall m :: 1 <= m < |ps| ==> PointAt(Flat(ps[0]) + rest, m) == PointAt(rest, m - 1);
      Flat(ps[0]) + rest
  }
}
