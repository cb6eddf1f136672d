# Eco-overlay fallback of the city-planning viewer, in Dafny

This project models the logic behind the "eco" overlays that `loadEcoGeoJSON`
in `src/App.tsx` draws on the 3D city map.

- **Air overlay.** Each square air cell becomes a closed ring of five corners.
  The ring is lifted to a fixed height of 25 m and coloured by a three-bucket
  index of its clamped field value.
- **Traffic overlay with OSM roads.** Road ways from an Overpass response are
  drawn as polylines. Each road's width and colour come from its lower-cased
  `highway` tag and its clamped load.
- **Traffic fallback.** When no road could be drawn, the overlay falls back to
  a synthetic congestion field. The field is sampled on a clamped scalar grid
  of `(nj+1) × (ni+1)` corners. A marching-squares tracer cuts every grid cell
  at the iso levels 0.25, 0.5 and 0.75. A greedy stitcher then joins the
  resulting segments into polylines.
- **Stand-alone classifiers.** `getAirColor` and `getTrafficStyle` are
  threshold classifiers.

Real numbers are exact (`real`). Floating-point error, and the
transcendental functions that build the raw field values, are outside the
model (see "Left out").

The modules follow the structure of the code:

| file | module | what it holds |
|---|---|---|
| `wrappers.dfy` | `Wrappers` | `Option` |
| `geometry.dfy` | `Geometry` | points, `Math.abs/min/max`, the clamp, `lerp`, the stitcher's `eps` test, flattening of points |
| `classifiers.dfy` | `Classifiers` | all threshold classifiers, related to one reference definition `Bucket`; road-tag width and bonus |
| `scalar_grid.dfy` | `ScalarGrid` | the grid frame, `Math.ceil` cell counts, the grid-building loops |
| `marching_squares.dfy` | `MarchingSquares` | corners, case index, the 16-case edge table, crossings, point pairing, and the cell, row and level loops |
| `segment_keys.dfy` | `SegmentKeys` | the `toFixed(6)` point and segment keys |
| `stitcher.dfy` | `Stitcher` | `extend`, `reverseFlat` and the stitch loop, generic in the key function |
| `air_cells.dfy` | `AirCells` | the closed cell ring and the height interleaving |
| `traffic_overlay.dfy` | `TrafficOverlay` | roads from Overpass, the OSM-or-fallback decision, and contour polylines per level |

### How the model is organised

Each loop of the source is a `method` with loop invariants. The loops are:

- building the grid;
- the cell, row and level loops of the tracer;
- the pairing loop;
- the two loops of `extend`;
- `reverseFlat`;
- the stitch loop;
- the road loop;
- the loop over iso levels.

Each such method is proved equal to a specification function, and the
properties are proved about those functions.

`usedSegs` is one JavaScript `Set` shared between the stitch loop and the
`extend` closure. The model passes it into and out of each call as a value.

### Behaviour of the code worth knowing

- **Stitch order.** The code emits `[...s.a, ...fwd, ...reverseFlat(bwd)]`
  (`src/App.tsx:413`), not the usual reversed backward walk, then `a`, `b`,
  then the forward walk.
  - `bwd` starts from `s.b` after `s` has been removed from `usedSegs`, so
    `extend` may walk back over `s` itself.
  - A lone segment therefore gives the three points `a, b, a`
    (`Stitcher.LoneSegmentRetraced`).
  - Every open contour is drawn closed back to its start by a chord: the
    chain p-q, q-r gives `p, q, r, p`, and the last step r to p lies on no
    segment of the level (`Stitcher.OpenChainClosedBack`).
- **Drawn roads.** The "use OSM" decision counts only the ways that were
  actually drawn: elements of type `way` that have at least two geometry
  points. It does not count every returned element.
- **Grid size.** `Math.ceil((lonMax - lonMin) / cell)` would be 100 × 70
  cells in exact arithmetic (`ScalarGrid.TrafficGridSize`). In double
  precision the program computes quotients slightly above the whole numbers
  (100.0000000000014 and 70.0000000000003), so it gets 101 × 71 cells, one
  row and one column past the bounds (`ScalarGrid.TrafficGridSizeInDoubles`).
  The model uses 101 × 71.

## Model

| member | source | states |
|---|---|---|
| `Geometry.Clamp` | src/App.tsx:199 | `Math.max(0, Math.min(1, x))` lies in [0,1], is x on [0,1], and is 0 below and 1 above |
| `Geometry.ClampMonotone` | src/App.tsx:199 | the clamp is non-decreasing |
| `Geometry.Lerp` | src/App.tsx:310-313 | `lerp` returns a at t = 0 and b at t = 1 |
| `Geometry.LerpInBox` | src/App.tsx:310-313 | for t in [0,1] the lerp lies in the box spanned by its two end points |
| `Geometry.Flatten` | src/App.tsx:257 | `geom.flatMap(p => [p.lon, p.lat])` has two numbers per point, and its m-th pair is the m-th point |
| `Classifiers.AirIndex` | src/App.tsx:200 | the air colour index is the bucket of t among the thresholds 0.33, 0.66, and selects one of the three colours |
| `Classifiers.TrafficIndex` | src/App.tsx:234-239 | `trafficColor` picks the bucket of t among 0.4, 0.78 |
| `Classifiers.AirScaleIndex` | src/App.tsx:435-444 | `getAirColor` clamps, then picks the bucket among 0.2, 0.4, 0.6, 0.8, one of five colours |
| `Classifiers.TrafficStyleWidth` | src/App.tsx:446-462 | `getTrafficStyle` width is 2 × (bucket of the clamped value among 0.3, 0.6, 0.8, plus one), so it is 2, 4, 6 or 8 |
| `Classifiers.ClassifiersMonotone` | src/App.tsx:435-462 | the air index, the traffic colour index, the air scale index and the style width are all non-decreasing in their input |
| `Classifiers.RoadBonus` | src/App.tsx:263-264 | the road bonus lies in [0, 0.35] and is positive exactly for motorway, trunk, primary and secondary |
| `Classifiers.RoadWidth` | src/App.tsx:274 | the road width lies in 2..4 and is above 2 exactly when the bonus is above 0.15 (motorway, trunk, primary) |
| `Classifiers.RoadWidthFollowsBonus` | src/App.tsx:263-274 | a tag with a larger bonus never gets a thinner line |
| `ScalarGrid.CellCount` | src/App.tsx:290-291 | `Math.ceil((hi - lo) / cell)` is the least whole number of cells covering [lo, hi] |
| `ScalarGrid.TrafficGridSize` | src/App.tsx:287-291 | in exact arithmetic the fallback grid is 100 cells wide and 70 cells high |
| `ScalarGrid.TrafficGridSizeInDoubles` | src/App.tsx:287-291 | with the constants as the doubles they denote, every correctly rounded quotient has ceiling 101 (width) and 71 (height) |
| `ScalarGrid.BuildGrid` | src/App.tsx:292-308 | the grid has nj+1 rows of ni+1 values; entry [j][i] is the clamped field at corner (i, j); every entry lies in [0,1] |
| `MarchingSquares.EdgeValsFollowCorners` | src/App.tsx:330-335 | `edgeVals(i, j)[e]` is the value pair of corners e and (e+1) mod 4, matching `edgeEnds` |
| `MarchingSquares.CaseIndex` | src/App.tsx:343-347 | the case index is below 16 |
| `MarchingSquares.CaseIndexBits` | src/App.tsx:343-347 | bit k of the case index says whether corner k is at or above the level |
| `MarchingSquares.CaseEdges` | src/App.tsx:355-368 | every edge the if-chain cuts is one of the four edges 0..3 |
| `MarchingSquares.CaseEdgesStraddle` | src/App.tsx:343-368 | every edge the table cuts for the case of a cell has one end at or above the level and the other below |
| `MarchingSquares.EdgeParamMeetsLevel` | src/App.tsx:349-351 | t is 0.5 on a flat edge; otherwise the linear interpolation of the edge values at t equals the level; on a straddling edge t lies in [0,1] |
| `MarchingSquares.CrossingOnEdge` | src/App.tsx:349-354 | every cut point lies between the two corners of its edge, and so on the boundary of its cell |
| `MarchingSquares.Pairs` | src/App.tsx:369-371 | the pairing loop makes one segment per two points |
| `MarchingSquares.PairsShape` | src/App.tsx:369-371 | segment k joins points 2k and 2k+1; an odd last point is dropped |
| `MarchingSquares.PairPoints` | src/App.tsx:369-371 | the loop `for (k = 0; k < pts.length; k += 2) if (pts[k+1]) push` builds exactly those pairs |
| `MarchingSquares.CellSegmentCount` | src/App.tsx:355-371 | a cell's point list has even length, so no point is lost; cases 0 and 15 give no segment, the saddles 5 and 10 give two, every other case gives one |
| `MarchingSquares.SaddleCases` | src/App.tsx:359-364 | case 5 joins the crossings of edges 0–1 and 2–3; case 10 joins 1–3 and 0–2, as written |
| `MarchingSquares.CellSegmentOnBoundary` | src/App.tsx:349-371 | both ends of every segment of a cell lie on that cell's boundary |
| `MarchingSquares.TraceCell` | src/App.tsx:339-371 | one pass of the inner loop body gives exactly the segments of cell (i, j) |
| `MarchingSquares.TraceRow` | src/App.tsx:338-372 | the inner loop appends the segments of cells 0..ni-1 of row j, in order |
| `MarchingSquares.TraceLevel` | src/App.tsx:337-373 | the loops over rows and columns give the segments of every cell in row-major order |
| `MarchingSquares.RowsSegmentsFrom` | src/App.tsx:337-338 | every traced segment comes from a cell the loops visit |
| `MarchingSquares.TraceSegmentsOnCellBoundaries` | src/App.tsx:337-371 | every segment of a level joins two points on the boundary of one visited grid cell |
| `MarchingSquares.CellSegmentsEmpty` | src/App.tsx:343-368 | on a grid the level does not cross, every cell is case 0 or 15 and gives nothing |
| `MarchingSquares.TraceEmptyOutOfRange` | src/App.tsx:337-373 | a level at or below every grid value, or above every grid value, gives no segment |
| `MarchingSquares.SingleCellScenario` | src/App.tsx:337-371 | a one-cell grid whose right side is above 0.5 and left side below gives one vertical segment through the midpoints of the bottom and top edges |
| `SegmentKeys.ToFixed6` | src/App.tsx:375 | `toFixed(6)` keeps the sign of x and rounds abs(x) to the nearest millionth |
| `SegmentKeys.SameKeyClose` | src/App.tsx:375-376 | two points with one key are less than a millionth of a degree apart in each coordinate |
| `Stitcher.FirstUsable` | src/App.tsx:383-396 | a found segment has an unused key and an end within eps of the current point |
| `Stitcher.FirstUsableIsFirst` | src/App.tsx:383-396 | the inner loop takes the first such segment; when none is found, no segment qualifies |
| `Stitcher.FindUsable` | src/App.tsx:383-396 | the inner `for (const s of segments)` of `extend` finds that first usable segment |
| `Stitcher.ExtensionStep` | src/App.tsx:378-399 | one step of `extend` appends the far end of the found segment, marks its key and strictly shrinks the set of unused keys, so the walk terminates |
| `Stitcher.Extend` | src/App.tsx:378-399 | `extend(from, usedSegs)` returns the walk and the enlarged set that the specification function gives |
| `Stitcher.ExtensionUsed` | src/App.tsx:378-399 | `extend` only adds keys, only keys of the level's segments, exactly one per point it appends, and appends whole (lon, lat) pairs |
| `Stitcher.ExtensionChain` | src/App.tsx:385-393 | each appended point is the far end of a segment it consumed, whose matching end is within eps of the point before |
| `Stitcher.ExtendFromFreeSegment` | src/App.tsx:409 | started at the `a` end of an unused segment, `extend` appends at least one point |
| `Stitcher.ReversedPairs` | src/App.tsx:401-405 | `reverseFlat` returns an even-length array, at most one shorter than its input |
| `Stitcher.ReverseFlat` | src/App.tsx:401-405 | the loop `for (i = len-2; i >= 0; i -= 2) push(arr[i], arr[i+1])` builds that array |
| `Stitcher.ReversedPairsAt` | src/App.tsx:401-405 | on even length, the length is kept and pair m of the output is pair len/2-1-m of the input, not swapped within the pair |
| `Stitcher.ReversedPairsInvolution` | src/App.tsx:401-405 | on even length, `reverseFlat` applied twice is the identity |
| `Stitcher.StitchLevel` | src/App.tsx:406-425 | the stitch loop emits the lines, and ends with the set, that the specification function gives |
| `Stitcher.StitchFromSeed` | src/App.tsx:408-414 | at an unused segment the line is `s.a ++ fwd ++ reverseFlat(bwd)`, with bwd walked after deleting the key of s; it has at least 4 numbers, so it is emitted |
| `Stitcher.StitchMarksEveryKey` | src/App.tsx:406-425 | after the loop, `usedSegs` holds exactly the keys of the level's segments; the delete at :410 is always undone |
| `Stitcher.StitchLineCount` | src/App.tsx:406-425 | a level never gives more lines than distinct segment keys, and a non-empty level gives at least one |
| `Stitcher.StitchLinesShape` | src/App.tsx:409-414 | every line is some segment's `a`, then a walk of at least one step from `a`, then the reversed walk from `b`; both walks run along segments of the level |
| `Stitcher.StitchLineLengths` | src/App.tsx:413-414 | every emitted line holds at least two whole (lon, lat) pairs |
| `Stitcher.LoneSegmentRetraced` | src/App.tsx:409-413 | a level of one segment with distinct ends gives the single line a, b, a |
| `Stitcher.ChainForward` | src/App.tsx:378-398 | on the chain p-q, q-r, `extend(p)` walks to q then r and marks both segments used |
| `Stitcher.ChainBackward` | src/App.tsx:378-398 | with only q-r used, `extend(q)` walks p-q back to p and marks both used |
| `Stitcher.OpenChainClosedBack` | src/App.tsx:378-413 | a level of two chained segments p-q, q-r gives the single line p, q, r, p: an open contour is closed back to its start by the chord from r to p |
| `AirCells.CellRing` | src/App.tsx:203-209 | the cell ring has ten numbers |
| `AirCells.WithHeightsAt` | src/App.tsx:210-212 | interleaving puts the height after every latitude: pair m becomes triple m; a trailing odd entry is kept |
| `AirCells.AirCellPolygonShape` | src/App.tsx:186-221 | an air polygon is a closed ring of five positions at 25 m, visiting the four corners of its cell from the lower-left one, coloured by the bucket of its clamped value |
| `TrafficOverlay.LowerChar` | src/App.tsx:262 | a capital becomes the letter 32 code points later, every other character is unchanged, and no capital remains |
| `TrafficOverlay.LowerAscii` | src/App.tsx:262 | lower-casing keeps the length, maps each character on its own as `LowerChar` does, and leaves no upper-case ASCII letter |
| `TrafficOverlay.LowerAsciiIdempotent` | src/App.tsx:262 | lower-casing is idempotent and leaves lower-case tags unchanged |
| `TrafficOverlay.Ways` | src/App.tsx:253 | the filter keeps exactly the elements of type "way" |
| `TrafficOverlay.WaysConcat` | src/App.tsx:253 | filtering distributes over concatenation, so the ways keep their order |
| `TrafficOverlay.WaysSingle` | src/App.tsx:253 | one element is kept, once, exactly when it is a way |
| `TrafficOverlay.HighwayIgnoresCase` | src/App.tsx:261-262 | a way tagged `MOTORWAY` is read as `motorway` and drawn 4 wide |
| `TrafficOverlay.AddRoads` | src/App.tsx:254-279 | the road loop adds one polyline per way with at least two geometry points, in order |
| `TrafficOverlay.RoadLinesNonEmpty` | src/App.tsx:254-280 | there are at most as many roads as ways, and some road is drawn exactly when some way has a path |
| `TrafficOverlay.RoadLinesShape` | src/App.tsx:257-278 | every road polyline has at least two points, width 2, 3 or 4, and one of the three traffic colours |
| `TrafficOverlay.UseOsmRoadsIff` | src/App.tsx:241-284 | OSM roads are used exactly when the call succeeded and some element is a way with at least two points |
| `TrafficOverlay.ContourOverlay` | src/App.tsx:321-426 | the loop over the three levels traces, stitches and adds each level's lines in level order |
| `TrafficOverlay.ContourLinesShape` | src/App.tsx:413-421 | every contour polyline has at least two points, width 2.5 and one of the three iso colours |
| `TrafficOverlay.ContourLinesOutOfRange` | src/App.tsx:314-373 | a grid that none of the iso levels crosses gives no contour polyline |
| `TrafficOverlay.TrafficCols` | src/App.tsx:290 | the fallback grid width is `Math.ceil((lonMax - lonMin) / cell)` on doubles, 101: one more than in exact arithmetic |
| `TrafficOverlay.TrafficRows` | src/App.tsx:291 | the fallback grid height is `Math.ceil((latMax - latMin) / cell)` on doubles, 71: one more than in exact arithmetic |
| `TrafficOverlay.Fallback` | src/App.tsx:286-426 | the fallback builds the clamped grid and draws the contour lines of its three levels |
| `TrafficOverlay.LoadTraffic` | src/App.tsx:241-286 | the overlay holds the drawn roads when there is one, and otherwise the fallback contours over the 101 × 71 grid |
| `TrafficOverlay.TrafficEntitiesKind` | src/App.tsx:280-286 | the overlay is all roads or all contours, never mixed: an entity has width 2.5 exactly when OSM roads are not used; every entity has at least two points |
| `TrafficOverlay.QuietFieldNoOverlay` | src/App.tsx:286-373 | with no drawable road and a field below the lowest iso level everywhere, the overlay is empty |

## Left out

- The HTTP request to Overpass and JSON decoding (`src/App.tsx:243-252`). The
  response is a parameter: either a failure or the decoded elements. A thrown
  error and a status that is not ok both count as failure. An error thrown in
  the middle of the road loop is not modelled. In the program the roads drawn
  before such an error stay, `useOsmRoads` is false, and the fallback contours
  are added as well: a mixed overlay, which `TrafficOverlay.TrafficEntitiesKind`
  (all roads or all contours) does not cover.
- The transcendental field formulas. The air cell value (`chaos`, `bump`, the
  latitude trend) is a parameter of `AirCells.AirCellPolygon`. The traffic
  grid value (centre factor, bridge factor, noise) and the road load
  (distance to the centre, bump) are parameters of the fallback and road
  functions. The road load is a function of the whole element, including
  its `id`, so ways that differ only in `id` may get different colours. All of them use `sqrt`, `exp`, `sin` and `cos` on doubles. Only
  the clamp that follows them is modelled.
- The air cell loop itself (`src/App.tsx:186-196`), with its break conditions
  `y0 >= latMax` and `x0 >= lonMax`. Each polygon it adds is modelled, but
  the enumeration is not.
- Floating point in general. All arithmetic is exact: `Ceil`, the interpolation
  and the `1e-9` / `1e-8` tolerances compare exact reals. The one place where
  this changes the result, the grid size, is taken as the doubles compute it
  (see above).
- SegmentKeys.ToFixed6: models `toFixed(6)` only for magnitudes below 1e21,
  where JavaScript uses fixed notation. The grid's coordinates are around 50
  and 82.
- TrafficOverlay.LowerAscii: lower-cases only the ASCII letters A–Z, not the
  rest of Unicode. Road tags are ASCII.
- Cesium rendering is not modelled: `Cartesian3` conversion, materials,
  `clampToGround`, outlines, data-source management and the entity count
  shown in the stats card. An overlay is modelled as its list of polylines
  (positions, width, colour) or polygons (positions with heights, colour).
- React state, effects and refs, building placement, tileset styling, and the
  API and UI components. They are outside the overlay logic.
