/**
 * The scalar grid of the synthetic traffic field (src/App.tsx:287-308).
 *
 * The grid has nj+1 rows of ni+1 values; row j, column i holds the clamped
 * field value at corner (lonMin + i*cell, latMin + j*cell). The raw field
 * (a sum of a centre factor, a bridge factor and trigonometric noise) is
 * floating-point transcendental arithmetic and is a parameter here: any real
 * per corner.
 */
module ScalarGrid {
  import opened Geometry

  /** Where corner (0, 0) sits and how wide a cell is, in degrees. */
  datatype Frame = Frame(lonMin: real, latMin: real, cell: real)

  /** The source's fallback bounds and cell size (:225-230, :287). */
  const TrafficLonMin: real := 82.52
  const TrafficLonMax: real := 82.72
  const TrafficLatMin: real := 49.88
  const TrafficLatMax: real := 50.02
  const TrafficCell: real := 0.002
  const TrafficFrame: Frame := Frame(TrafficLonMin, TrafficLatMin, TrafficCell)

  /** Grid corner (i, j): `[lonMin + i * cell, latMin + j * cell]` (:296-297, :325). */
  function CornerAt(f: Frame, i: int, j: int): Point {
    Point(f.lonMin + i as real * f.cell, f.latMin + j as real * f.cell)
  }

  /** `Math.ceil` */
  function Ceil(x: real): (r: int)
    ensures x <= r as real < x + 1.0
  {
    -((-x).Floor)
  }

  /** `Math.ceil((hi - lo) / cell)`: the number of cells needed to cover [lo, hi]. */
  function CellCount(lo: real, hi: real, cell: real): (n: int)
    requires cell > 0.0
    ensures (n - 1) as real < (hi - lo) / cell <= n as real
  {
    Ceil((hi - lo) / cell)
  }

  /** In exact arithmetic the fallback grid is 100 cells wide and 70 cells high. */
  lemma TrafficGridSize()
    ensures CellCount(TrafficLonMin, TrafficLonMax, TrafficCell) == 100
    ensures CellCount(TrafficLatMin, TrafficLatMax, TrafficCell) == 70
  {
    assert (TrafficLonMax - TrafficLonMin) / TrafficCell == 100.0;
    assert (TrafficLatMax - TrafficLatMin) / TrafficCell == 70.0;
  }

  /**
   * The program evaluates `Math.ceil((hi - lo) / cell)` on IEEE 754 doubles.
   * These are the doubles the decimal constants denote, written out exactly.
   * Each subtraction is exact (Sterbenz's lemma: the operands lie within a
   * factor two of each other), so only the division rounds.
   */
  const LonMinDouble: real := 82.5199999999999960209606797434389591217041015625
  const LonMaxDouble: real := 82.719999999999998863131622783839702606201171875
  const LatMinDouble: real := 49.88000000000000255795384873636066913604736328125
  const LatMaxDouble: real := 50.02000000000000312638803734444081783294677734375
  const CellDouble: real := 0.00200000000000000004163336342344337026588618755340576171875

  /** Half the spacing of the doubles in [64, 128), which is 2^-46. */
  const HalfUlp64: real := 0.00000000000000710542735760100185871124267578125

  /** d is a correct rounding of x, for x in [64, 128): it is at most half a spacing away. */
  predicate RoundsTo(x: real, d: real) {
    -HalfUlp64 <= d - x <= HalfUlp64
  }

  /**
   * In double precision the fallback grid is 101 by 71 cells: both quotients
   * come out just above a whole number (100.0000000000014 and 70.0000000000003),
   * more than a rounding step above it, so `Math.ceil` goes one higher than in
   * exact arithmetic.
   */
  lemma TrafficGridSizeInDoubles()
    ensures forall q :: RoundsTo((LonMaxDouble - LonMinDouble) / CellDouble, q) ==> Ceil(q) == 101
    ensures forall q :: RoundsTo((LatMaxDouble - LatMinDouble) / CellDouble, q) ==> Ceil(q) == 71
  {
    forall q | RoundsTo((LonMaxDouble - LonMinDouble) / CellDouble, q)
      ensures Ceil(q) == 101
    {
      assert 100.0 < q <= 101.0;
    }
    forall q | RoundsTo((LatMaxDouble - LatMinDouble) / CellDouble, q)
      ensures Ceil(q) == 71
    {
      assert 70.0 < q <= 71.0;
    }
  }

  /** A grid of nj+1 rows, each of ni+1 values. */
  predicate Shaped(g: seq<seq<real>>, ni: nat, nj: nat) {
    |g| == nj + 1 && forall j :: 0 <= j < |g| ==> |g[j]| == ni + 1
  }

  /** Every value of the grid lies in [0,1]. */
  predicate InUnitRange(g: seq<seq<real>>) {
    forall j, i :: 0 <= j < |g| && 0 <= i < |g[j]| ==> 0.0 <= g[j][i] <= 1.0
  }

  /** The grid the build produces, as a value: entry [j][i] is the clamped raw value of corner (i, j). */
  function SampledGrid(ni: nat, nj: nat, raw: (int, int) -> real): seq<seq<real>> {
    seq(nj + 1, j => seq(ni + 1, i => Clamp(raw(i, j))))
  }

  /** The nested `for` loops that push rows into `grid` (:292-308). */
  method BuildGrid(ni: nat, nj: nat, raw: (int, int) -> real) returns (grid: seq<seq<real>>)
    ensures Shaped(grid, ni, nj)
    ensures forall j, i :: 0 <= j < |grid| && 0 <= i < |grid[j]| ==> grid[j][i] == Clamp(raw(i, j))
    ensures InUnitRange(grid)
    ensures grid == SampledGrid(ni, nj, raw)
  {
    grid := [];
    var j := 0;
    while j <= nj
      invariant 0 <= j <= nj + 1
      invariant |grid| == j
      invariant forall r :: 0 <= r < j ==> grid[r] == SampledGrid(ni, nj, raw)[r]
    {
      var row: seq<real> := [];
      var i := 0;
      while i <= ni
        invariant 0 <= i <= ni + 1
        invariant |row| == i
        invariant forall c :: 0 <= c < i ==> row[c] == Clamp(raw(c, j))
      {
        row := row + [Clamp(raw(i, j))];
        i := i + 1;
      }
      grid := grid + [row];
      j := j + 1;
    }
  }
}
