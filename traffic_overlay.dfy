/**
 * The traffic overlay of `loadEcoGeoJSON` (src/App.tsx:224-427): real roads
 * from an Overpass response when at least one road could be drawn, otherwise
 * the synthetic fallback, where the clamped scalar grid is traced at three iso
 * levels and each level's segments are stitched into coloured polylines.
 *
 * The HTTP request and the JSON decoding are outside the model: the response
 * is a parameter, either a failure (a thrown error or a status that is not ok)
 * or the decoded list of elements. The road load and the grid's raw field are
 * transcendental arithmetic and are parameters too.
 */
module TrafficOverlay {
  import opened Wrappers
  import opened Geometry
  import opened Classifiers
  import opened ScalarGrid
  import opened MarchingSquares
  import opened SegmentKeys
  import opened Stitcher

  /** A polyline entity added to the overlay: flat (lon, lat) positions, a width and a colour. */
  datatype Polyline = Polyline(positions: seq<real>, width: real, color: Color)

  // Roads from Overpass (:241-284)

  /**
   * An Overpass element: its `type`, its `geometry` if present, its `highway`
   * tag if present, and its `id` if present (read as `way.id || 0`, :265).
   */
  datatype Element = Element(kind: string, geometry: Option<seq<Point>>, highway: Option<string>, id: Option<int>)

  /** The Overpass call ends in an error (thrown, or a status that is not ok) or in decoded elements. */
  datatype Response = Failed | Ok(elements: seq<Element>)

  /** `toLowerCase` on one character, for the ASCII letters the highway tags use. */
  function LowerChar(c: char): (r: char)
    ensures !('A' <= r <= 'Z')
    ensures !('A' <= c <= 'Z') ==> r == c
    ensures 'A' <= c <= 'Z' ==> r as int == c as int + 32
  {
    if 'A' <= c <= 'Z' then (c as int + 32) as char else c
  }

  /** `s.toLowerCase()` over ASCII letters. */
  function LowerAscii(s: string): (r: string)
    ensures |r| == |s|
    ensures forall k :: 0 <= k < |r| ==> !('A' <= r[k] <= 'Z')
    ensures forall k :: 0 <= k < |s| ==> r[k] == LowerChar(s[k])
  {
    seq(|s|, k requires 0 <= k < |s| => LowerChar(s[k]))
  }

  /** Lower-casing changes nothing in a string without upper-case letters, so it is idempotent. */
  lemma LowerAsciiIdempotent(s: string)
    ensures LowerAscii(LowerAscii(s)) == LowerAscii(s)
    ensures (forall k :: 0 <= k < |s| ==> !('A' <= s[k] <= 'Z')) ==> LowerAscii(s) == s
  {
  }

  /** `(tags.highway || "").toLowerCase()` (:261-262). */
  function Highway(e: Element): string {
    LowerAscii(e.highway.GetOr(""))
  }

  predicate IsWay(e: Element) {
    e.kind == "way"
  }

  /** `elements.filter(e => e.type === "way")` (:253). */
  function Ways(elements: seq<Element>): (ways: seq<Element>)
    ensures |ways| <= |elements|
    ensures forall w :: w in ways ==> w in elements && IsWay(w)
    ensures forall e :: e in elements && IsWay(e) ==> e in ways
  {
    if elements == [] then []
    else (if IsWay(elements[0]) then [elements[0]] else []) + Ways(elements[1..])
  }

  /** Filtering keeps the ways in their order: it distributes over concatenation. */
  lemma {:induction false} WaysConcat(xs: seq<Element>, ys: seq<Element>)
    ensures Ways(xs + ys) == Ways(xs) + Ways(ys)
  {
    if xs == [] {
      assert xs + ys == ys;
    } else {
      assert (xs + ys)[0] == xs[0] && (xs + ys)[1..] == xs[1..] + ys;
      WaysConcat(xs[1..], ys);
    }
  }

  /** A single element is kept exactly when it is a way, so each way is kept once. */
  lemma WaysSingle(e: Element)
    ensures Ways([e]) == if IsWay(e) then [e] else []
  {
    assert [e][1..] == [];
  }

  /** An upper-case highway tag is read as its lower-case name: a `MOTORWAY` is drawn 4 wide. */
  lemma HighwayIgnoresCase(e: Element)
    requires e.highway == Some("MOTORWAY")
    ensures Highway(e) == "motorway" && RoadWidth(Highway(e)) == 4
  {
  }

  /** A way the loop draws: it has a geometry of at least two points (:256). */
  predicate HasPath(e: Element) {
    e.geometry.Some? && |e.geometry.value| >= 2
  }

  /**
   * The polyline of one drawable way (:257-278). `load` stands for the part
   * of t computed from the distance to the centre and the trigonometric bump
   * (:258-269); it sees the whole element, so it can depend on the way's id.
   */
  function RoadLine(e: Element, load: Element -> real): Polyline
    requires HasPath(e)
  {
    var hw := Highway(e);
    Polyline(Flatten(e.geometry.value), RoadWidth(hw) as real, TrafficColor(Clamp(load(e) + RoadBonus(hw))))
  }

  /** The road polylines the loop adds for `ways`, in order, skipping ways without a path. */
  function RoadLines(ways: seq<Element>, load: Element -> real): seq<Polyline>
  {
    if ways == [] then []
    else
      var last := ways[|ways| - 1];
      RoadLines(ways[..|ways| - 1], load) + (if HasPath(last) then [RoadLine(last, load)] else [])
  }

  /** The `for (const way of ways)` loop (:254-279). */
  method AddRoads(ways: seq<Element>, load: Element -> real) returns (lines: seq<Polyline>)
    ensures lines == RoadLines(ways, load)
  {
    lines := [];
    for k := 0 to |ways|
      invariant lines == RoadLines(ways[..k], load)
    {
      assert ways[..k + 1][..k] == ways[..k];
      var way := ways[k];
      if !HasPath(way) {
        continue;
      }
      lines := lines + [RoadLine(way, load)];
    }
    assert ways[..|ways|] == ways;
  }

  /** There is one road polyline per way with a path, so some are drawn exactly when some way has one. */
  lemma {:induction false} RoadLinesNonEmpty(ways: seq<Element>, load: Element -> real)
    ensures |RoadLines(ways, load)| <= |ways|
    ensures |RoadLines(ways, load)| > 0 <==> exists k :: 0 <= k < |ways| && HasPath(ways[k])
  {
    if ways != [] {
      var init := ways[..|ways| - 1];
      RoadLinesNonEmpty(init, load);
      if exists k :: 0 <= k < |init| && HasPath(init[k]) {
        var k :| 0 <= k < |init| && HasPath(init[k]);
        assert HasPath(ways[k]);
      }
    }
  }

  /** Every road polyline has at least two points, a width of 2, 3 or 4, and one of the three road colours. */
  lemma {:induction false} RoadLinesShape(ways: seq<Element>, load: Element -> real)
    ensures forall p :: p in RoadLines(ways, load) ==>
      |p.positions| >= 4 && |p.positions| % 2 == 0 && p.width in {2.0, 3.0, 4.0} && p.color in TrafficColors
  {
    if ways != [] {
      RoadLinesShape(ways[..|ways| - 1], load);
    }
  }

  /** `useOsmRoads = dataSource.entities.values.length > 0` on the fresh data source, or false after an error (:280-284). */
  predicate UseOsmRoads(response: Response, load: Element -> real) {
    |ResponseRoads(response, load)| > 0
  }

  /** The overlay uses OSM roads exactly when the call succeeded and some element is a way with a path. */
  lemma UseOsmRoadsIff(response: Response, load: Element -> real)
    ensures UseOsmRoads(response, load) <==>
      response.Ok? && exists e :: e in response.elements && IsWay(e) && HasPath(e)
  {
    if response.Ok? {
      var ways := Ways(response.elements);
      RoadLinesNonEmpty(ways, load);
      if exists e :: e in response.elements && IsWay(e) && HasPath(e) {
        var e :| e in response.elements && IsWay(e) && HasPath(e);
        assert e in ways;
        var k :| 0 <= k < |ways| && ways[k] == e;
        assert HasPath(ways[k]);
      }
      if exists k :: 0 <= k < |ways| && HasPath(ways[k]) {
        var k :| 0 <= k < |ways| && HasPath(ways[k]);
        assert ways[k] in ways;
      }
    }
  }

  // Contour fallback (:286-425)

  /** The width and colours of the iso polylines (:315-319, :419-420). */
  const IsoWidth: real := 2.5
  const IsoColors: seq<Color> := [Color("#22c55e", 0.9), Color("#eab308", 0.9), Color("#ef4444", 0.9)]

  /** The polylines added for the stitched lines of one level. */
  function LevelPolylines(lines: seq<seq<real>>, color: Color): (r: seq<Polyline>)
    ensures |r| == |lines|
    ensures forall k :: 0 <= k < |r| ==> r[k] == Polyline(lines[k], IsoWidth, color)
  {
    seq(|lines|, k requires 0 <= k < |lines| => Polyline(lines[k], IsoWidth, color))
  }

  /** The polylines of iso level li: trace it, stitch its segments under their `toFixed(6)` keys. */
  function LevelLines(g: seq<seq<real>>, ni: nat, nj: nat, f: Frame, li: nat): seq<Polyline>
    requires li < |IsoLevels|
  {
    LevelPolylines(Stitch(Trace(g, ni, nj, f, IsoLevels[li]), SegmentKey).0, IsoColors[li])
  }

  /** The polylines of the first n iso levels, in level order. */
  function ContourLinesUpTo(g: seq<seq<real>>, ni: nat, nj: nat, f: Frame, n: nat): seq<Polyline>
    requires n <= |IsoLevels|
  {
    if n == 0 then [] else ContourLinesUpTo(g, ni, nj, f, n - 1) + LevelLines(g, ni, nj, f, n - 1)
  }

  function ContourLines(g: seq<seq<real>>, ni: nat, nj: nat, f: Frame): seq<Polyline> {
    ContourLinesUpTo(g, ni, nj, f, |IsoLevels|)
  }

  /** The loop over iso levels (:321-426). */
  method ContourOverlay(g: seq<seq<real>>, ni: nat, nj: nat, f: Frame) returns (lines: seq<Polyline>)
    requires Shaped(g, ni, nj)
    ensures lines == ContourLines(g, ni, nj, f)
  {
    lines := [];
    for li := 0 to |IsoLevels|
      invariant lines == ContourLinesUpTo(g, ni, nj, f, li)
    {
      var segments := TraceLevel(g, ni, nj, f, IsoLevels[li]);
      var stitched, usedSegs := StitchLevel(segments, SegmentKey);
      lines := lines + LevelPolylines(stitched, IsoColors[li]);
    }
  }

  /** Every contour polyline has at least two points, the iso width and one of the iso colours. */
  lemma {:induction false} ContourLinesShape(g: seq<seq<real>>, ni: nat, nj: nat, f: Frame, n: nat)
    requires n <= |IsoLevels|
    ensures forall p :: p in ContourLinesUpTo(g, ni, nj, f, n) ==>
      |p.positions| >= 4 && |p.positions| % 2 == 0 && p.width == IsoWidth && p.color in IsoColors
  {
    if n > 0 {
      ContourLinesShape(g, ni, nj, f, n - 1);
      var segs := Trace(g, ni, nj, f, IsoLevels[n - 1]);
      var stitched := Stitch(segs, SegmentKey).0;
      StitchLineLengths(segs, SegmentKey);
      forall p | p in LevelLines(g, ni, nj, f, n - 1)
        ensures |p.positions| >= 4 && |p.positions| % 2 == 0 && p.width == IsoWidth && p.color in IsoColors
      {
        var k :| 0 <= k < |stitched| && p == Polyline(stitched[k], IsoWidth, IsoColors[n - 1]);
        assert stitched[k] in stitched;
      }
    }
  }

  /** A grid that no iso level crosses (a constant field, say) gives no contour polyline. */
  lemma {:induction false} ContourLinesOutOfRange(g: seq<seq<real>>, ni: nat, nj: nat, f: Frame, n: nat)
    requires Shaped(g, ni, nj) && n <= |IsoLevels|
    requires forall li :: 0 <= li < |IsoLevels| ==> OutOfRange(g, IsoLevels[li])
    ensures ContourLinesUpTo(g, ni, nj, f, n) == []
  {
    if n > 0 {
      ContourLinesOutOfRange(g, ni, nj, f, n - 1);
      TraceEmptyOutOfRange(g, ni, nj, f, IsoLevels[n - 1]);
    }
  }

  // The branch (:241-286)

  /**
   * `ni` (:290): the ceiling of the quotient as doubles compute it, one more
   * than the 100 cells of exact arithmetic.
   */
  function TrafficCols(): (n: nat)
    ensures forall q :: RoundsTo((LonMaxDouble - LonMinDouble) / CellDouble, q) ==> Ceil(q) == n
    ensures n == CellCount(TrafficLonMin, TrafficLonMax, TrafficCell) + 1
  {
    TrafficGridSizeInDoubles();
    TrafficGridSize();
    101
  }

  /** `nj` (:291): likewise 71, where exact arithmetic gives 70. */
  function TrafficRows(): (n: nat)
    ensures forall q :: RoundsTo((LatMaxDouble - LatMinDouble) / CellDouble, q) ==> Ceil(q) == n
    ensures n == CellCount(TrafficLatMin, TrafficLatMax, TrafficCell) + 1
  {
    TrafficGridSizeInDoubles();
    TrafficGridSize();
    71
  }

  /** The fallback polylines over a grid of ni by nj cells sampled from `raw`. */
  function FallbackLines(ni: nat, nj: nat, raw: (int, int) -> real): seq<Polyline> {
    ContourLines(SampledGrid(ni, nj, raw), ni, nj, TrafficFrame)
  }

  /** The body of `if (!useOsmRoads)` (:286-426): build the grid, then trace and stitch every level. */
  method Fallback(ni: nat, nj: nat, raw: (int, int) -> real) returns (lines: seq<Polyline>)
    ensures lines == FallbackLines(ni, nj, raw)
  {
    var grid := BuildGrid(ni, nj, raw);
    lines := ContourOverlay(grid, ni, nj, TrafficFrame);
  }

  /** The road polylines drawn from a response: none when the call failed. */
  function ResponseRoads(response: Response, load: Element -> real): seq<Polyline> {
    if response.Ok? then RoadLines(Ways(response.elements), load) else []
  }

  /** Everything the traffic overlay holds once loading is done. */
  function TrafficEntities(response: Response, load: Element -> real, raw: (int, int) -> real): seq<Polyline> {
    var roads := ResponseRoads(response, load);
    if |roads| > 0 then roads
    else FallbackLines(TrafficCols(), TrafficRows(), raw)
  }

  /** The traffic branch of `loadEcoGeoJSON` after the request has settled (:241-286). */
  method LoadTraffic(response: Response, load: Element -> real, raw: (int, int) -> real)
    returns (entities: seq<Polyline>)
    ensures entities == TrafficEntities(response, load, raw)
  {
    var roads: seq<Polyline> := [];
    var useOsmRoads := false;
    if response.Ok? {
      var ways := Ways(response.elements);
      roads := AddRoads(ways, load);
      useOsmRoads := |roads| > 0;
    }
    assert roads == ResponseRoads(response, load);
    entities := roads;
    if !useOsmRoads {
      var ni, nj := TrafficCols(), TrafficRows();
      var contours := Fallback(ni, nj, raw);
      entities := entities + contours;
      assert entities == contours;
    }
  }

  /**
   * The overlay is all roads or all contours, never a mix: an entity has the
   * iso width exactly when OSM roads are not used. Either way every entity
   * is a polyline of at least two points.
   */
  lemma TrafficEntitiesKind(response: Response, load: Element -> real, raw: (int, int) -> real)
    ensures forall p :: p in TrafficEntities(response, load, raw) ==>
      (p.width == IsoWidth <==> !UseOsmRoads(response, load)) && |p.positions| >= 4 && |p.positions| % 2 == 0
  {
    var entities := TrafficEntities(response, load, raw);
    if UseOsmRoads(response, load) {
      var roads := RoadLines(Ways(response.elements), load);
      assert entities == roads;
      RoadLinesShape(Ways(response.elements), load);
    } else {
      var ni, nj := TrafficCols(), TrafficRows();
      var contours := FallbackLines(ni, nj, raw);
      assert entities == contours;
      ContourLinesShape(SampledGrid(ni, nj, raw), ni, nj, TrafficFrame, |IsoLevels|);
    }
  }

  /** A field that stays below the lowest iso level gives no fallback polyline, whatever the grid size. */
  lemma QuietFieldNoFallback(ni: nat, nj: nat, raw: (int, int) -> real)
    requires forall i, j :: raw(i, j) < IsoLevels[0]
    ensures FallbackLines(ni, nj, raw) == []
  {
    var g := SampledGrid(ni, nj, raw);
    forall li | 0 <= li < |IsoLevels|
      ensures OutOfRange(g, IsoLevels[li])
    {
      forall j, i | 0 <= j < |g| && 0 <= i < |g[j]|
        ensures g[j][i] < IsoLevels[li]
      {
        assert g[j][i] == Clamp(raw(i, j));
      }
    }
    ContourLinesOutOfRange(g, ni, nj, TrafficFrame, |IsoLevels|);
  }

  /** With no usable road and a field that stays below the lowest level, the overlay is empty. */
  lemma QuietFieldNoOverlay(response: Response, load: Element -> real, raw: (int, int) -> real)
    requires !UseOsmRoads(response, load)
    requires forall i, j :: raw(i, j) < IsoLevels[0]
    ensures TrafficEntities(response, load, raw) == []
  {
    QuietFieldNoFallback(TrafficCols(), TrafficRows(), raw);
  }
}
