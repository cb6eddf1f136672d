/**
 * Segment identity in the stitcher (src/App.tsx:375-376): `key(p)` renders a
 * point as "lon,lat" with `toFixed(6)`, and `segKey(s)` joins the keys of the
 * two end points with "|". Because the rendering is injective on the pair
 * (sign, rounded millionths), the strings are modelled by that pair.
 */
module SegmentKeys {
  import opened Geometry
  import opened MarchingSquares

  /** `x.toFixed(6)` for |x| < 1e21: a sign and the nearest whole number of millionths, ties rounded up.
      A negative x whose rounding is zero still renders as "-0.000000". */
  datatype Fixed6 = Fixed6(negative: bool, millionths: nat)

  function RoundMillionths(y: real): (n: nat)
    requires y >= 0.0
    ensures y * 1000000.0 - 0.5 < n as real <= y * 1000000.0 + 0.5
  {
    (y * 1000000.0 + 0.5).Floor
  }

  function ToFixed6(x: real): (k: Fixed6)
    ensures k.negative <==> x < 0.0
    ensures Abs(x) * 1000000.0 - 0.5 < k.millionths as real <= Abs(x) * 1000000.0 + 0.5
  {
    if x < 0.0 then Fixed6(true, RoundMillionths(-x)) else Fixed6(false, RoundMillionths(x))
  }

  /** The string `key(p)`, "lon,lat". */
  datatype PointKey = PointKey(lon: Fixed6, lat: Fixed6)

  /** The string `segKey(s)`, "key(a)|key(b)". */
  datatype SegKey = SegKey(a: PointKey, b: PointKey)

  function Key(p: Point): PointKey {
    PointKey(ToFixed6(p.lon), ToFixed6(p.lat))
  }

  function SegmentKey(s: Segment): SegKey {
    SegKey(Key(s.a), Key(s.b))
  }

  lemma SameFixed6Close(x: real, y: real)
    requires ToFixed6(x) == ToFixed6(y)
    ensures Abs(x - y) < 0.000001
  {
  }

  /** Points with one key are less than a millionth of a degree apart in each coordinate,
      so segments whose end points agree to that precision share one key. */
  lemma SameKeyClose(p: Point, q: Point)
    requires Key(p) == Key(q)
    ensures Abs(p.lon - q.lon) < 0.000001 && Abs(p.lat - q.lat) < 0.000001
  {
    SameFixed6Close(p.lon, q.lon);
    SameFixed6Close(p.lat, q.lat);
  }

}
