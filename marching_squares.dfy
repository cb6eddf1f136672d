/**
 * The marching-squares tracer of the traffic overlay (src/App.tsx:310-373):
 * for one iso level L it visits every cell of the scalar grid, computes the
 * 4-bit case index of the cell's corners, cuts the edges the case table
 * lists at their linearly interpolated crossing points, and pairs those
 * points into segments.
 *
 * Corners of cell (i, j) are numbered 0 = (i, j), 1 = (i+1, j),
 * 2 = (i+1, j+1), 3 = (i, j+1); edge e runs from corner e to corner (e+1) % 4.
 */
module MarchingSquares {
  import opened Geometry
  import opened ScalarGrid

  /** `{ a, b }`: one cut of the level set through a single cell. */
  datatype Segment = Segment(a: Point, b: Point)

  /** The corner values of one cell: `v00, v10, v11, v01` (:339-342). */
  datatype Corners = Corners(v00: real, v10: real, v11: real, v01: real)

  /** `isoLevels` (:314) */
  const IsoLevels: seq<real> := [0.25, 0.5, 0.75]

  /** Below this gap between two corner values an edge counts as flat (:351). */
  const Tiny: real := 0.000000001

  /** Cell (i, j) is one the tracer's loops `0 <= j < nj, 0 <= i < ni` visit (:337-338). */
  predicate IsCell(ni: nat, nj: nat, i: int, j: int) {
    0 <= i < ni && 0 <= j < nj
  }

  /** The four corner values of cell (i, j); every index read lies inside the grid. */
  function CornersAt(g: seq<seq<real>>, ni: nat, nj: nat, i: int, j: int): Corners
    requires Shaped(g, ni, nj) && IsCell(ni, nj, i, j)
  {
    Corners(g[j][i], g[j][i + 1], g[j + 1][i + 1], g[j + 1][i])
  }

  /** The value at corner k. */
  function CornerValue(c: Corners, k: int): real
    requires 0 <= k < 4
  {
    if k == 0 then c.v00 else if k == 1 then c.v10 else if k == 2 then c.v11 else c.v01
  }

  /** `edgeEnds[k](i, j)`: the position of corner k of cell (i, j) (:324-329). */
  function EdgeEnd(f: Frame, i: int, j: int, k: int): Point
    requires 0 <= k < 4
  {
    if k == 0 then CornerAt(f, i, j)
    else if k == 1 then CornerAt(f, i + 1, j)
    else if k == 2 then CornerAt(f, i + 1, j + 1)
    else CornerAt(f, i, j + 1)
  }

  /** `edgeVals(i, j)[e]`: the values at the start and the end of edge e (:330-335). */
  function EdgeVals(c: Corners, e: int): (real, real)
    requires 0 <= e < 4
  {
    if e == 0 then (c.v00, c.v10)
    else if e == 1 then (c.v10, c.v11)
    else if e == 2 then (c.v11, c.v01)
    else (c.v01, c.v00)
  }

  /** The two tables agree: edge e carries the values of corners e and (e+1) % 4. */
  lemma EdgeValsFollowCorners(c: Corners, e: int)
    requires 0 <= e < 4
    ensures EdgeVals(c, e) == (CornerValue(c, e), CornerValue(c, (e + 1) % 4))
  {
  }

  function Bit(b: bool): nat {
    if b then 1 else 0
  }

  /** `idx = c0 + c1 * 2 + c2 * 4 + c3 * 8` (:343-347): bit k records whether corner k is at or above L. */
  function CaseIndex(c: Corners, level: real): (idx: nat)
    ensures idx < 16
  {
    Bit(c.v00 >= level) + Bit(c.v10 >= level) * 2 + Bit(c.v11 >= level) * 4 + Bit(c.v01 >= level) * 8
  }

  /** The index can be read back corner by corner. */
  lemma CaseIndexBits(c: Corners, level: real)
    ensures var idx := CaseIndex(c, level);
      idx % 2 == Bit(c.v00 >= level) && idx / 2 % 2 == Bit(c.v10 >= level) &&
      idx / 4 % 2 == Bit(c.v11 >= level) && idx / 8 == Bit(c.v01 >= level)
  {
  }

  /** The `if (idx === …)` chain (:355-368) as a table: entry idx lists the edges cut, in the
      order `addEdge` is called; the saddles 5 and 10 cut all four edges, in different orders. */
  const CaseTable: seq<seq<nat>> := [[], [0, 3], [0, 1], [1, 3], [1, 2], [0, 1, 2, 3], [0, 2], [2, 3],
                                      [2, 3], [0, 2], [1, 3, 0, 2], [1, 2], [1, 3], [0, 1], [0, 3], []]

  function CaseEdges(idx: nat): (es: seq<nat>)
    ensures forall k :: 0 <= k < |es| ==> es[k] < 4
  {
    if idx < 16 then CaseTable[idx] else []
  }

  /** The level passes between the two values: one is at or above it, the other below. */
  predicate Straddles(vA: real, vB: real, level: real) {
    (vA >= level) != (vB >= level)
  }

  lemma QuotientInUnit(num: real, den: real)
    requires den != 0.0
    requires (den > 0.0 && 0.0 <= num <= den) || (den < 0.0 && den <= num <= 0.0)
    ensures 0.0 <= num / den <= 1.0
  {
    var q := num / den;
    assert q * den == num;
    if den > 0.0 {
      if q < 0.0 { MulNonNegative(-q, den); }
      if q > 1.0 { MulPositive(q - 1.0, den); }
    } else {
      if q < 0.0 { MulNonNegative(-q, -den); }
      if q > 1.0 { MulPositive(q - 1.0, -den); }
    }
  }

  lemma StraddleParamInUnit(vA: real, vB: real, level: real)
    requires vA != vB
    ensures Straddles(vA, vB, level) ==> 0.0 <= (level - vA) / (vB - vA) <= 1.0
  {
    if Straddles(vA, vB, level) {
      QuotientInUnit(level - vA, vB - vA);
    }
  }

  /** `t` of `addEdge` (:351): where along the edge the linear interpolant of the values meets the level. */
  function EdgeParam(vA: real, vB: real, level: real): (t: real)
  {
    if Abs(vB - vA) < Tiny then 0.5 else (level - vA) / (vB - vA)
  }

  /** The parameter puts the crossing where the linear interpolation of the two corner
      values meets the level, inside the edge when the edge straddles the level, and at the
      midpoint when the two values are (nearly) equal. */
  lemma EdgeParamMeetsLevel(vA: real, vB: real, level: real)
    ensures var t := EdgeParam(vA, vB, level);
      (Abs(vB - vA) < Tiny ==> t == 0.5) &&
      (Abs(vB - vA) >= Tiny ==> vA + (vB - vA) * t == level) &&
      (Straddles(vA, vB, level) ==> 0.0 <= t <= 1.0)
  {
    if Abs(vB - vA) >= Tiny {
      StraddleParamInUnit(vA, vB, level);
    }
  }

  /** The point `addEdge(e)` pushes (:349-354). */
  function Crossing(f: Frame, i: int, j: int, c: Corners, level: real, e: int): Point
    requires 0 <= e < 4
  {
    var vals := EdgeVals(c, e);
    Lerp(EdgeEnd(f, i, j, e), EdgeEnd(f, i, j, (e + 1) % 4), EdgeParam(vals.0, vals.1, level))
  }

  /** `pts` of one cell after the if-chain. */
  function CellPoints(f: Frame, i: int, j: int, c: Corners, level: real): seq<Point> {
    var es := CaseEdges(CaseIndex(c, level));
    seq(|es|, k requires 0 <= k < |es| => Crossing(f, i, j, c, level, es[k]))
  }

  /** Consecutive points paired into segments; a trailing odd point is dropped (:369-371). */
  function Pairs(pts: seq<Point>): (segs: seq<Segment>)
    ensures |segs| == |pts| / 2
  {
    if |pts| < 2 then []
    else
      [Segment(pts[0], pts[1])] + Pairs(pts[2..])
  }

  /** Segment k joins points 2k and 2k+1; a trailing odd point is dropped. */
  lemma {:induction false} PairsShape(pts: seq<Point>)
    ensures |Pairs(pts)| == |pts| / 2
    ensures forall k :: 0 <= k < |Pairs(pts)| ==> Pairs(pts)[k] == Segment(pts[2 * k], pts[2 * k + 1])
  {
    if |pts| >= 2 {
      var tail := pts[2..];
      var rest := Pairs(tail);
      PairsShape(tail);
      assert Pairs(pts) == [Segment(pts[0], pts[1])] + rest;
      forall k | 1 <= k < |Pairs(pts)|
        ensures Pairs(pts)[k] == Segment(pts[2 * k], pts[2 * k + 1])
      {
        assert Pairs(pts)[k] == rest[k - 1];
        assert tail[2 * (k - 1)] == pts[2 * k] && tail[2 * (k - 1) + 1] == pts[2 * k + 1];
      }
    }
  }

  /** The pairing loop `for (k = 0; k < pts.length; k += 2)` (:369-371). */
  method PairPoints(pts: seq<Point>) returns (segs: seq<Segment>)
    ensures segs == Pairs(pts)
  {
    segs := [];
    var k := 0;
    while k < |pts|
      invariant 0 <= k <= |pts| + 1
      invariant Pairs(pts) == segs + Pairs(pts[if k <= |pts| then k else |pts|..])
    {
      if k + 1 < |pts| {
        assert pts[k..][2..] == pts[k + 2..];
        segs := segs + [Segment(pts[k], pts[k + 1])];
      }
      k := k + 2;
    }
  }

  /** The segments one cell contributes. */
  function CellSegments(f: Frame, i: int, j: int, c: Corners, level: real): seq<Segment> {
    Pairs(CellPoints(f, i, j, c, level))
  }

  /** The segments of the cell at column i, row j; nothing outside the grid. */
  function CellAt(g: seq<seq<real>>, ni: nat, nj: nat, f: Frame, level: real, i: int, j: int): seq<Segment> {
    if Shaped(g, ni, nj) && IsCell(ni, nj, i, j) then CellSegments(f, i, j, CornersAt(g, ni, nj, i, j), level) else []
  }

  /** Every cell's segments, as a function of the cell. */
  function Cells(g: seq<seq<real>>, ni: nat, nj: nat, f: Frame, level: real): (int, int) -> seq<Segment> {
    (i: int, j: int) => CellAt(g, ni, nj, f, level, i, j)
  }

  /** The segments of cells 0 .. i-1 of row j, in visiting order. */
  function RowSegments(cell: (int, int) -> seq<Segment>, j: nat, i: nat): seq<Segment> {
    if i == 0 then [] else RowSegments(cell, j, i - 1) + cell(i - 1, j)
  }

  /** The segments of rows 0 .. j-1 of ni cells each, in visiting order. */
  function RowsSegments(cell: (int, int) -> seq<Segment>, ni: nat, j: nat): seq<Segment> {
    if j == 0 then [] else RowsSegments(cell, ni, j - 1) + RowSegments(cell, j - 1, ni)
  }

  /** `segments` for one level once both loops have finished. */
  function Trace(g: seq<seq<real>>, ni: nat, nj: nat, f: Frame, level: real): seq<Segment> {
    RowsSegments(Cells(g, ni, nj, f, level), ni, nj)
  }

  /** The body of the inner loop for the cell at column i, row j (:339-371): the corner
      values, the crossings of the case's edges, then the pairing loop. */
  method TraceCell(g: seq<seq<real>>, ni: nat, nj: nat, f: Frame, level: real, i: nat, j: nat)
    returns (cellSegments: seq<Segment>)
    requires Shaped(g, ni, nj) && IsCell(ni, nj, i, j)
    ensures cellSegments == Cells(g, ni, nj, f, level)(i, j)
  {
    var c := Corners(g[j][i], g[j][i + 1], g[j + 1][i + 1], g[j + 1][i]);
    assert c == CornersAt(g, ni, nj, i, j);
    var pts := CellPoints(f, i, j, c, level);
    cellSegments := PairPoints(pts);
  }

  /** Appending the next cell's segments extends the row by one cell. */
  lemma RowSegmentsStep(cell: (int, int) -> seq<Segment>, j: nat, i: nat, segments: seq<Segment>, more: seq<Segment>)
    requires segments == RowSegments(cell, j, i) && more == cell(i, j)
    ensures segments + more == RowSegments(cell, j, i + 1)
  {
  }

  /** The inner loop `for (let i = 0; i < ni; i++)` over the cells of row j (:338-372). */
  method TraceRow(g: seq<seq<real>>, ni: nat, nj: nat, f: Frame, level: real, j: nat) returns (segments: seq<Segment>)
    requires Shaped(g, ni, nj) && j < nj
    ensures segments == RowSegments(Cells(g, ni, nj, f, level), j, ni)
  {
    segments := [];
    var i := 0;
    while i < ni
      invariant 0 <= i <= ni
      invariant segments == RowSegments(Cells(g, ni, nj, f, level), j, i)
    {
      var cellSegments := TraceCell(g, ni, nj, f, level, i, j);
      RowSegmentsStep(Cells(g, ni, nj, f, level), j, i, segments, cellSegments);
      segments := segments + cellSegments;
      i := i + 1;
    }
  }

  /** Appending the next row's segments extends the traversal by one row. */
  lemma RowsSegmentsStep(cell: (int, int) -> seq<Segment>, ni: nat, j: nat, segments: seq<Segment>, row: seq<Segment>)
    requires segments == RowsSegments(cell, ni, j) && row == RowSegments(cell, j, ni)
    ensures segments + row == RowsSegments(cell, ni, j + 1)
  {
  }

  /** The outer loop `for (let j = 0; j < nj; j++)` (:337-373). */
  method TraceLevel(g: seq<seq<real>>, ni: nat, nj: nat, f: Frame, level: real) returns (segments: seq<Segment>)
    requires Shaped(g, ni, nj)
    ensures segments == Trace(g, ni, nj, f, level)
  {
    segments := [];
    var j := 0;
    while j < nj
      invariant 0 <= j <= nj
      invariant segments == RowsSegments(Cells(g, ni, nj, f, level), ni, j)
    {
      var row := TraceRow(g, ni, nj, f, level, j);
      RowsSegmentsStep(Cells(g, ni, nj, f, level), ni, j, segments, row);
      segments := segments + row;
      j := j + 1;
    }
  }

  /** An element of a concatenation is in one of its two parts. */
  lemma InConcat(before: seq<Segment>, last: seq<Segment>, s: Segment)
    requires s in before + last
    ensures s in before || s in last
  {
    var k :| 0 <= k < |before + last| && (before + last)[k] == s;
    if k >= |before| {
      assert last[k - |before|] == s;
    }
  }

  /** A segment of the traversal comes from one of the cells it visits: column ci of row j. */
  lemma {:induction false} RowSegmentsFrom(cell: (int, int) -> seq<Segment>, j: nat, i: nat, s: Segment)
    returns (ci: nat)
    requires s in RowSegments(cell, j, i)
    ensures ci < i && s in cell(ci, j)
  {
    assert i > 0;
    var before, last := RowSegments(cell, j, i - 1), cell(i - 1, j);
    InConcat(before, last, s);
    if s in last {
      ci := i - 1;
    } else {
      ci := RowSegmentsFrom(cell, j, i - 1, s);
    }
  }

  /** A segment of the traversal comes from one of the cells it visits: column ci of row cj. */
  lemma {:induction false} RowsSegmentsFrom(cell: (int, int) -> seq<Segment>, ni: nat, j: nat, s: Segment)
    returns (ci: nat, cj: nat)
    requires s in RowsSegments(cell, ni, j)
    ensures ci < ni && cj < j && s in cell(ci, cj)
  {
    assert j > 0;
    var before, row := RowsSegments(cell, ni, j - 1), RowSegments(cell, j - 1, ni);
    InConcat(before, row, s);
    if s in row {
      ci := RowSegmentsFrom(cell, j - 1, ni, s);
      cj := j - 1;
    } else {
      ci, cj := RowsSegmentsFrom(cell, ni, j - 1, s);
    }
  }

  /** Cells that give nothing make a traversal that gives nothing. */
  lemma {:induction false} RowSegmentsNone(cell: (int, int) -> seq<Segment>, j: nat, i: nat)
    requires forall i' :: 0 <= i' < i ==> cell(i', j) == []
    ensures RowSegments(cell, j, i) == []
  {
    if i > 0 {
      RowSegmentsNone(cell, j, i - 1);
    }
  }

  lemma {:induction false} RowsSegmentsNone(cell: (int, int) -> seq<Segment>, ni: nat, j: nat)
    requires forall i', j' :: 0 <= i' < ni && 0 <= j' < j ==> cell(i', j') == []
    ensures RowsSegments(cell, ni, j) == []
  {
    if j > 0 {
      RowsSegmentsNone(cell, ni, j - 1);
      RowSegmentsNone(cell, j - 1, ni);
    }
  }

  // Properties of one cell

  /** Every edge the case table cuts has one end at or above the level and the other below it. */
  lemma CaseEdgesStraddle(c: Corners, level: real, e: nat)
    requires e in CaseEdges(CaseIndex(c, level))
    ensures e < 4 && Straddles(EdgeVals(c, e).0, EdgeVals(c, e).1, level)
  {
  }

  /** Cases 0 and 15 cut nothing, the saddles 5 and 10 cut two segments, every other case one;
      the table always lists an even number of edges, so the pairing drops no point. */
  lemma CellSegmentCount(f: Frame, i: int, j: int, c: Corners, level: real)
    ensures |CellPoints(f, i, j, c, level)| == 2 * |CellSegments(f, i, j, c, level)|
    ensures var idx := CaseIndex(c, level);
      |CellSegments(f, i, j, c, level)| == if idx == 0 || idx == 15 then 0 else if idx == 5 || idx == 10 then 2 else 1
  {
    PairsShape(CellPoints(f, i, j, c, level));
  }

  /** The saddle cases as the source writes them: case 5 pairs edges (0, 1) and (2, 3),
      case 10 pairs edges (1, 3) and (0, 2). */
  lemma SaddleCases(f: Frame, i: int, j: int, c: Corners, level: real)
    ensures CaseIndex(c, level) == 5 ==>
      CellSegments(f, i, j, c, level) ==
        [Segment(Crossing(f, i, j, c, level, 0), Crossing(f, i, j, c, level, 1)),
         Segment(Crossing(f, i, j, c, level, 2), Crossing(f, i, j, c, level, 3))]
    ensures CaseIndex(c, level) == 10 ==>
      CellSegments(f, i, j, c, level) ==
        [Segment(Crossing(f, i, j, c, level, 1), Crossing(f, i, j, c, level, 3)),
         Segment(Crossing(f, i, j, c, level, 0), Crossing(f, i, j, c, level, 2))]
  {
    var pts := CellPoints(f, i, j, c, level);
    PairsShape(pts);
    var idx := CaseIndex(c, level);
    if idx == 5 || idx == 10 {
      assert CaseEdges(idx) == CaseTable[idx];
      assert |pts| == 4;
    }
  }

  /** p lies on the boundary of the square cell (i, j). */
  predicate OnCellBoundary(f: Frame, i: int, j: int, p: Point) {
    var lo := CornerAt(f, i, j);
    var hi := CornerAt(f, i + 1, j + 1);
    InBox(p, lo, hi) && (p.lon == lo.lon || p.lon == hi.lon || p.lat == lo.lat || p.lat == hi.lat)
  }

  /** A crossing the table asks for lies on its edge, between the edge's two corners,
      and so on the boundary of its cell. */
  lemma CrossingOnEdge(f: Frame, i: int, j: int, c: Corners, level: real, e: nat)
    requires e in CaseEdges(CaseIndex(c, level))
    ensures e < 4
    ensures InBox(Crossing(f, i, j, c, level, e), EdgeEnd(f, i, j, e), EdgeEnd(f, i, j, (e + 1) % 4))
    ensures OnCellBoundary(f, i, j, Crossing(f, i, j, c, level, e))
  {
    CaseEdgesStraddle(c, level, e);
    var vals := EdgeVals(c, e);
    var t := EdgeParam(vals.0, vals.1, level);
    EdgeParamMeetsLevel(vals.0, vals.1, level);
    var a, b := EdgeEnd(f, i, j, e), EdgeEnd(f, i, j, (e + 1) % 4);
    LerpInBox(a, b, t);
    var p := Lerp(a, b, t);
    if e == 0 || e == 2 {
      assert p.lat == a.lat;
    } else {
      assert p.lon == a.lon;
    }
  }

  /** Both ends of segment k of a cell lie on the boundary of that cell. */
  lemma CellSegmentOnBoundary(f: Frame, i: int, j: int, c: Corners, level: real, k: nat)
    requires k < |CellSegments(f, i, j, c, level)|
    ensures OnCellBoundary(f, i, j, CellSegments(f, i, j, c, level)[k].a)
    ensures OnCellBoundary(f, i, j, CellSegments(f, i, j, c, level)[k].b)
  {
    var pts := CellPoints(f, i, j, c, level);
    var es := CaseEdges(CaseIndex(c, level));
    PairsShape(pts);
    assert CellSegments(f, i, j, c, level)[k] == Segment(pts[2 * k], pts[2 * k + 1]);
    assert pts[2 * k] == Crossing(f, i, j, c, level, es[2 * k]);
    assert pts[2 * k + 1] == Crossing(f, i, j, c, level, es[2 * k + 1]);
    CrossingOnEdge(f, i, j, c, level, es[2 * k]);
    CrossingOnEdge(f, i, j, c, level, es[2 * k + 1]);
  }

  // Properties of a whole level

  /** s was cut from some cell the tracer visits. */
  predicate SegmentInSomeCell(f: Frame, ni: nat, nj: nat, s: Segment) {
    exists i, j | 0 <= i < ni && 0 <= j < nj :: OnCellBoundary(f, i, j, s.a) && OnCellBoundary(f, i, j, s.b)
  }

  /** Every segment of a level has both end points on the boundary of one grid cell. */
  lemma TraceSegmentsOnCellBoundaries(g: seq<seq<real>>, ni: nat, nj: nat, f: Frame, level: real)
    requires Shaped(g, ni, nj)
    ensures forall s :: s in Trace(g, ni, nj, f, level) ==> SegmentInSomeCell(f, ni, nj, s)
  {
    forall s | s in Trace(g, ni, nj, f, level)
      ensures SegmentInSomeCell(f, ni, nj, s)
    {
      var i, j := RowsSegmentsFrom(Cells(g, ni, nj, f, level), ni, nj, s);
      var cell := CellSegments(f, i, j, CornersAt(g, ni, nj, i, j), level);
      var k :| 0 <= k < |cell| && cell[k] == s;
      CellSegmentOnBoundary(f, i, j, CornersAt(g, ni, nj, i, j), level, k);
    }
  }

  /** Every value of the grid is at or above the level, or every value is below it. */
  predicate OutOfRange(g: seq<seq<real>>, level: real) {
    (forall j, i :: 0 <= j < |g| && 0 <= i < |g[j]| ==> g[j][i] >= level) ||
    (forall j, i :: 0 <= j < |g| && 0 <= i < |g[j]| ==> g[j][i] < level)
  }

  /** A cell of a grid out of range of the level is case 0 or case 15 and gives no segment. */
  lemma CellSegmentsEmpty(g: seq<seq<real>>, ni: nat, nj: nat, f: Frame, level: real, i: nat, j: nat)
    requires Shaped(g, ni, nj) && IsCell(ni, nj, i, j) && OutOfRange(g, level)
    ensures CellSegments(f, i, j, CornersAt(g, ni, nj, i, j), level) == []
  {
    var c := CornersAt(g, ni, nj, i, j);
    assert c.v00 == g[j][i] && c.v10 == g[j][i + 1] && c.v11 == g[j + 1][i + 1] && c.v01 == g[j + 1][i];
    var idx := CaseIndex(c, level);
    assert idx == 0 || idx == 15;
    CellSegmentCount(f, i, j, c, level);
  }

  /** A level at or below every value, or above every value, yields no segment:
      every cell is case 15, or every cell is case 0. */
  lemma TraceEmptyOutOfRange(g: seq<seq<real>>, ni: nat, nj: nat, f: Frame, level: real)
    requires Shaped(g, ni, nj) && OutOfRange(g, level)
    ensures Trace(g, ni, nj, f, level) == []
  {
    forall i, j | 0 <= i < ni && 0 <= j < nj
      ensures Cells(g, ni, nj, f, level)(i, j) == []
    {
      CellSegmentsEmpty(g, ni, nj, f, level, i, j);
    }
    RowsSegmentsNone(Cells(g, ni, nj, f, level), ni, nj);
  }

  /** One cell of 0.01 degrees with corner values 0.1, 0.9, 0.9, 0.1 at level 0.5 is case 6:
      one segment through the midpoints of the bottom and the top edge, at longitude 0.005. */
  lemma SingleCellScenario()
    ensures var g := [[0.1, 0.9], [0.1, 0.9]];
      Shaped(g, 1, 1) &&
      Trace(g, 1, 1, Frame(0.0, 0.0, 0.01), 0.5) == [Segment(Point(0.005, 0.0), Point(0.005, 0.01))]
  {
    var g := [[0.1, 0.9], [0.1, 0.9]];
    var f := Frame(0.0, 0.0, 0.01);
    var c := CornersAt(g, 1, 1, 0, 0);
    assert c == Corners(0.1, 0.9, 0.9, 0.1);
    assert CaseIndex(c, 0.5) == 6;
    assert CaseEdges(6) == [0, 2];
    assert EdgeParam(0.1, 0.9, 0.5) == 0.5;
    assert EdgeParam(0.9, 0.1, 0.5) == 0.5;
    assert Crossing(f, 0, 0, c, 0.5, 0) == Point(0.005, 0.0);
    assert Crossing(f, 0, 0, c, 0.5, 2) == Point(0.005, 0.01);
    assert CellPoints(f, 0, 0, c, 0.5) == [Point(0.005, 0.0), Point(0.005, 0.01)];
    assert RowSegments(Cells(g, 1, 1, f, 0.5), 0, 1) == CellSegments(f, 0, 0, c, 0.5);
  }
}
