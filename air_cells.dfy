/**
 * One polygon of the air-quality overlay (src/App.tsx:160-222): a square cell
 * of side `cell` whose lower-left corner is (x0, y0), written as a closed ring
 * of five (lon, lat) pairs, lifted to a fixed height by interleaving that
 * height after every latitude, and coloured by the three-bucket air index.
 *
 * The field value of a cell (`chaos`, `bump`) is transcendental arithmetic and
 * is a parameter: any real, clamped before it is classified.
 */
module AirCells {
  import opened Geometry
  import opened Classifiers

  /** The source's air-overlay constants (:161-165). */
  const AirHeight: real := 25.0
  const AirCell: real := 0.00115
  const AirLonMin: real := 82.52
  const AirLatMin: real := 49.88

  /** The closed ring `[x0, y0, x0+cell, y0, x0+cell, y0+cell, x0, y0+cell, x0, y0]` (:203-209). */
  function CellRing(x0: real, y0: real, cell: real): (flat: seq<real>)
    ensures |flat| == 10
  {
    [x0, y0, x0 + cell, y0, x0 + cell, y0 + cell, x0, y0 + cell, x0, y0]
  }

  /**
   * `flat.flatMap((v, idx) => idx % 2 === 1 ? [v, h] : [v])` (:210-212): the
   * height h goes after every element at an odd index.
   */
  function WithHeights(flat: seq<real>, h: real): (r: seq<real>)
    decreases |flat|
  {
    if |flat| < 2 then flat
    else [flat[0], flat[1], h] + WithHeights(flat[2..], h)
  }

  /** The m-th (lon, lat, height) triple of a flat array with heights. */
  function PositionAt(r: seq<real>, m: nat): (real, real, real)
    requires 3 * m + 2 < |r|
  {
    (r[3 * m], r[3 * m + 1], r[3 * m + 2])
  }

  /**
   * Interleaving heights turns the m-th (lon, lat) pair into the m-th
   * (lon, lat, h) triple, adds one entry per pair, and keeps a trailing odd
   * entry unchanged.
   */
  lemma {:induction false} WithHeightsAt(flat: seq<real>, h: real)
    ensures |WithHeights(flat, h)| == |flat| + |flat| / 2
    ensures forall m :: 0 <= m < |flat| / 2 ==>
      PositionAt(WithHeights(flat, h), m) == (PointAt(flat, m).lon, PointAt(flat, m).lat, h)
    ensures |flat| % 2 == 1 ==> WithHeights(flat, h)[|flat| + |flat| / 2 - 1] == flat[|flat| - 1]
  {
    if |flat| >= 2 {
      var tail := flat[2..];
      var rest := WithHeights(tail, h);
      WithHeightsAt(tail, h);
      var r := WithHeights(flat, h);
      assert r == [flat[0], flat[1], h] + rest;
      forall m | 0 <= m < |flat| / 2
        ensures PositionAt(r, m) == (PointAt(flat, m).lon, PointAt(flat, m).lat, h)
      {
        if m > 0 {
          assert PositionAt(r, m) == PositionAt(rest, m - 1);
          assert PointAt(flat, m) == PointAt(tail, m - 1);
        }
      }
    }
  }

  /** What the overlay adds for one air cell: its positions with heights and its colour. */
  datatype AirPolygon = AirPolygon(positions: seq<real>, color: Color)

  /** The polygon for cell (i, j) whose field value is `raw` (:190-221). */
  function AirCellPolygon(i: nat, j: nat, raw: real): AirPolygon {
    var x0 := AirLonMin + i as real * AirCell;
    var y0 := AirLatMin + j as real * AirCell;
    AirPolygon(WithHeights(CellRing(x0, y0, AirCell), AirHeight), AirCellColors[AirIndex(Clamp(raw))])
  }

  /**
   * Every air polygon is a closed ring of five positions at the overlay
   * height, visiting the four corners of its cell counter-clockwise from the
   * lower-left one, and coloured by the bucket of its clamped value.
   */
  lemma AirCellPolygonShape(i: nat, j: nat, raw: real)
    ensures var x0, y0 := AirLonMin + i as real * AirCell, AirLatMin + j as real * AirCell;
      var p := AirCellPolygon(i, j, raw).positions;
      |p| == 15
      && PositionAt(p, 0) == (x0, y0, AirHeight)
      && PositionAt(p, 1) == (x0 + AirCell, y0, AirHeight)
      && PositionAt(p, 2) == (x0 + AirCell, y0 + AirCell, AirHeight)
      && PositionAt(p, 3) == (x0, y0 + AirCell, AirHeight)
      && PositionAt(p, 4) == PositionAt(p, 0)
    ensures AirCellPolygon(i, j, raw).color == AirCellColors[Bucket(AirThresholds, Clamp(raw))]
  {
    var x0, y0 := AirLonMin + i as real * AirCell, AirLatMin + j as real * AirCell;
    var ring := CellRing(x0, y0, AirCell);
    WithHeightsAt(ring, AirHeight);
    assert PointAt(ring, 0) == Point(x0, y0);
    assert PointAt(ring, 1) == Point(x0 + AirCell, y0);
    assert PointAt(ring, 2) == Point(x0 + AirCell, y0 + AirCell);
    assert PointAt(ring, 3) == Point(x0, y0 + AirCell);
    assert PointAt(ring, 4) == Point(x0, y0);
  }
}
