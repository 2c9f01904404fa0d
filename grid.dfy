/**
 * The board grid of cv/find_move.py (`create_grid`, `partition`) and of
 * `BoardView.__create_grid` in cv.py: the bounding box of the corner points
 * is cut by an `nx` by `ny` lattice of `np.linspace` values into
 * `(nx - 1) * (ny - 1)` axis-aligned cells, emitted with the x index as the
 * outer loop and the y index as the inner loop.
 */
module Grid {
  import opened Geometry

  /** `len(values) - 1` lattice intervals, and none when there are no values. */
  function Intervals(values: seq<real>): nat
  {
    if |values| == 0 then 0 else |values| - 1
  }

  /**
   * The cell between lattice columns `ix`, `ix + 1` and rows `iy`, `iy + 1`,
   * its vertices in the order the source lists them.
   */
  function LatticeCell(gx: seq<real>, gy: seq<real>, ix: nat, iy: nat): Quad
    requires ix + 1 < |gx| && iy + 1 < |gy|
  {
    Quad(Point(gx[ix], gy[iy]), Point(gx[ix], gy[iy + 1]),
         Point(gx[ix + 1], gy[iy + 1]), Point(gx[ix + 1], gy[iy]))
  }

  /** The cells the inner loop emits for column `ix`, in ascending `iy`. */
  function Column(gx: seq<real>, gy: seq<real>, ix: nat): (col: seq<Quad>)
    requires ix + 1 < |gx|
    ensures |col| == Intervals(gy)
  {
    seq(Intervals(gy), iy requires 0 <= iy < Intervals(gy) => LatticeCell(gx, gy, ix, iy))
  }

  /** The cells emitted by the first `nx` rounds of the outer loop. */
  function Lattice(gx: seq<real>, gy: seq<real>, nx: nat): seq<Quad>
    requires nx <= Intervals(gx)
  {
    if nx == 0 then [] else Lattice(gx, gy, nx - 1) + Column(gx, gy, nx - 1)
  }

  /** The cells `create_grid` returns for polygon bounds `b` and an `nx` by `ny` lattice. */
  function GridCells(b: Box, nx: nat, ny: nat): seq<Quad>
  {
    var gx := Linspace(b.minX, b.maxX, nx);
    Lattice(gx, Linspace(b.minY, b.maxY, ny), Intervals(gx))
  }

  /** `create_grid(geom, nx, ny)`, with `geom` given by its vertices. */
  method CreateGrid(pts: seq<Point>, nx: nat, ny: nat) returns (grid: seq<Quad>)
    requires |pts| >= 3
    ensures grid == GridCells(Bounds(pts), nx, ny)
  {
    var b := Bounds(pts);
    var gridX := Linspace(b.minX, b.maxX, nx);
    var gridY := Linspace(b.minY, b.maxY, ny);
    grid := [];
    var ix := 0;
    while ix < |gridX| - 1
      invariant 0 <= ix <= Intervals(gridX)
      invariant grid == Lattice(gridX, gridY, ix)
    {
      var iy := 0;
      while iy < |gridY| - 1
        invariant 0 <= iy <= Intervals(gridY)
        invariant grid == Lattice(gridX, gridY, ix) + Column(gridX, gridY, ix)[..iy]
      {
        var cell := Quad(Point(gridX[ix], gridY[iy]), Point(gridX[ix], gridY[iy + 1]),
                         Point(gridX[ix + 1], gridY[iy + 1]), Point(gridX[ix + 1], gridY[iy]));
        assert Column(gridX, gridY, ix)[..iy + 1] == Column(gridX, gridY, ix)[..iy] + [cell];
        grid := grid + [cell];
        iy := iy + 1;
      }
      assert Column(gridX, gridY, ix)[..Intervals(gridY)] == Column(gridX, gridY, ix);
      ix := ix + 1;
    }
  }

  /** `filter(pred, cells)`: the cells satisfying `pred`, in their original order. */
  function Filter(pred: Quad -> bool, cells: seq<Quad>): seq<Quad>
  {
    if cells == [] then []
    else (if pred(cells[0]) then [cells[0]] else []) + Filter(pred, cells[1..])
  }

  /**
   * `partition(geom, nx, ny)`: the cells of `create_grid` that the prepared
   * polygon intersects. shapely's `intersects` is the parameter `intersects`.
   */
  method Partition(pts: seq<Point>, nx: nat, ny: nat, intersects: Quad -> bool) returns (grid: seq<Quad>)
    requires |pts| >= 3
    ensures grid == Filter(intersects, GridCells(Bounds(pts), nx, ny))
  {
    var cells := CreateGrid(pts, nx, ny);
    grid := Filter(intersects, cells);
  }

  /** Every position moved one place to the right. */
  function Shift(positions: seq<nat>): (r: seq<nat>)
    ensures |r| == |positions|
    ensures forall i :: 0 <= i < |r| ==> r[i] == positions[i] + 1
  {
    seq(|positions|, i requires 0 <= i < |positions| => positions[i] + 1)
  }

  /** The input positions of the cells `filter` keeps, in the order it visits them. */
  function FilterPositions(pred: Quad -> bool, cells: seq<Quad>): seq<nat>
  {
    if cells == [] then []
    else (if pred(cells[0]) then [0] else []) + Shift(FilterPositions(pred, cells[1..]))
  }

  /** `filter` keeps as many cells as there are kept positions. */
  lemma {:induction false} FilterLength(pred: Quad -> bool, cells: seq<Quad>)
    ensures |FilterPositions(pred, cells)| == |Filter(pred, cells)|
  {
    if cells != [] {
      FilterLength(pred, cells[1..]);
    }
  }

  /** Result element `i` of `filter` is the input element at the `i`-th kept position. */
  lemma {:induction false} FilterAt(pred: Quad -> bool, cells: seq<Quad>)
    ensures |FilterPositions(pred, cells)| == |Filter(pred, cells)|
    ensures forall i :: 0 <= i < |Filter(pred, cells)| ==>
      FilterPositions(pred, cells)[i] < |cells| && Filter(pred, cells)[i] == cells[FilterPositions(pred, cells)[i]]
  {
    FilterLength(pred, cells);
    if cells != [] {
      FilterAt(pred, cells[1..]);
      FilterAtStep(pred, cells);
    }
  }

  /** The step of `FilterAt`: the claim for `cells` from the claim for `cells[1..]`. */
  lemma FilterAtStep(pred: Quad -> bool, cells: seq<Quad>)
    requires cells != []
    requires |FilterPositions(pred, cells[1..])| == |Filter(pred, cells[1..])|
    requires forall i :: 0 <= i < |Filter(pred, cells[1..])| ==>
      FilterPositions(pred, cells[1..])[i] < |cells[1..]| &&
      Filter(pred, cells[1..])[i] == cells[1..][FilterPositions(pred, cells[1..])[i]]
    ensures forall i :: 0 <= i < |Filter(pred, cells)| ==>
      FilterPositions(pred, cells)[i] < |cells| && Filter(pred, cells)[i] == cells[FilterPositions(pred, cells)[i]]
  {
    var tail := Filter(pred, cells[1..]);
    var rest := FilterPositions(pred, cells[1..]);
    if pred(cells[0]) {
      assert Filter(pred, cells) == [cells[0]] + tail;
      assert FilterPositions(pred, cells) == [0] + Shift(rest);
      KeptAt(cells, [cells[0]], [0], tail, rest);
    } else {
      assert Filter(pred, cells) == tail;
      assert FilterPositions(pred, cells) == Shift(rest);
      KeptAt(cells, [], [], tail, rest);
    }
  }

  /**
   * Cells kept from `cells[1..]` at positions `rest`, preceded by either
   * nothing or `cells[0]` at position 0, sit at those positions of `cells`
   * once every position of `rest` is moved one place right.
   */
  lemma KeptAt(cells: seq<Quad>, head: seq<Quad>, headPositions: seq<nat>, tail: seq<Quad>, rest: seq<nat>)
    requires cells != []
    requires (head == [cells[0]] && headPositions == [0]) || (head == [] && headPositions == [])
    requires |tail| == |rest|
    requires forall i :: 0 <= i < |tail| ==> rest[i] < |cells| - 1 && tail[i] == cells[1..][rest[i]]
    ensures |head + tail| == |headPositions + Shift(rest)|
    ensures forall i :: 0 <= i < |head + tail| ==>
      (headPositions + Shift(rest))[i] < |cells| && (head + tail)[i] == cells[(headPositions + Shift(rest))[i]]
  {
    var kept := head + tail;
    var positions := headPositions + Shift(rest);
    var n := |head|;
    forall i | 0 <= i < |kept|
      ensures positions[i] < |cells| && kept[i] == cells[positions[i]]
    {
      if i < n {
        assert kept[i] == cells[0] && positions[i] == 0;
      } else {
        var j := i - n;
        assert kept[i] == tail[j];
        assert positions[i] == Shift(rest)[j] == rest[j] + 1;
        assert cells[1..][rest[j]] == cells[rest[j] + 1];
      }
    }
  }

  /** `filter` keeps the input order: the kept positions increase strictly. */
  lemma {:induction false} FilterPositionsIncrease(pred: Quad -> bool, cells: seq<Quad>)
    ensures forall i :: 0 <= i < |FilterPositions(pred, cells)| ==> FilterPositions(pred, cells)[i] < |cells|
    ensures forall i, j :: 0 <= i < j < |FilterPositions(pred, cells)| ==>
      FilterPositions(pred, cells)[i] < FilterPositions(pred, cells)[j]
  {
    if cells != [] {
      FilterPositionsIncrease(pred, cells[1..]);
    }
  }

  /** A position is in the shifted list exactly when the one before it is in the original. */
  lemma ShiftMembers(positions: seq<nat>, x: nat)
    ensures x + 1 in Shift(positions) <==> x in positions
    ensures 0 !in Shift(positions)
  {
    var r := Shift(positions);
    if x in positions {
      var k :| 0 <= k < |positions| && positions[k] == x;
      assert r[k] == x + 1;
    }
    if x + 1 in r {
      var k :| 0 <= k < |r| && r[k] == x + 1;
      assert positions[k] == x;
    }
  }

  /** A position is kept exactly when the predicate holds of the cell there. */
  lemma {:induction false} FilterPositionsExact(pred: Quad -> bool, cells: seq<Quad>, j: nat)
    requires j < |cells|
    ensures pred(cells[j]) <==> j in FilterPositions(pred, cells)
  {
    var head: seq<nat> := if pred(cells[0]) then [0] else [];
    var rest := FilterPositions(pred, cells[1..]);
    assert FilterPositions(pred, cells) == head + Shift(rest);
    if j == 0 {
      ShiftMembers(rest, 0);
    } else {
      FilterPositionsExact(pred, cells[1..], j - 1);
      assert cells[j] == cells[1..][j - 1];
      ShiftMembers(rest, j - 1);
      assert j in head + Shift(rest) <==> j in Shift(rest);
    }
  }

  /** The outer loop's rounds emit `Intervals(gy)` cells each. */
  lemma {:induction false} LatticeLength(gx: seq<real>, gy: seq<real>, nx: nat)
    requires nx <= Intervals(gx)
    ensures |Lattice(gx, gy, nx)| == nx * Intervals(gy)
  {
    if nx > 0 {
      LatticeLength(gx, gy, nx - 1);
      assert (nx - 1) * Intervals(gy) + Intervals(gy) == nx * Intervals(gy);
    }
  }

  lemma MulSucc(a: nat, c: nat)
    ensures (a + 1) * c == a * c + c
  {
  }

  lemma MulMonotone(a: nat, b: nat, c: nat)
    requires a <= b
    ensures a * c <= b * c
  {
  }

  /** Cell `(ix, iy)` sits at position `ix * (ny - 1) + iy` of the emitted list. */
  lemma {:induction false} LatticeIndex(gx: seq<real>, gy: seq<real>, nx: nat, ix: nat, iy: nat)
    requires nx <= Intervals(gx) && ix < nx && iy < Intervals(gy)
    ensures ix * Intervals(gy) + iy < |Lattice(gx, gy, nx)|
    ensures Lattice(gx, gy, nx)[ix * Intervals(gy) + iy] == LatticeCell(gx, gy, ix, iy)
  {
    var c := Intervals(gy);
    LatticeLength(gx, gy, nx);
    LatticeLength(gx, gy, nx - 1);
    MulSucc(nx - 1, c);
    var prefix := Lattice(gx, gy, nx - 1);
    assert Lattice(gx, gy, nx) == prefix + Column(gx, gy, nx - 1);
    if ix == nx - 1 {
      assert ix * c + iy - |prefix| == iy;
    } else {
      LatticeIndex(gx, gy, nx - 1, ix, iy);
      MulSucc(ix, c);
      MulMonotone(ix + 1, nx - 1, c);
    }
  }

  /** The x values of the 9 by 9 lattice over bounds `b`. */
  function BoardXs(b: Box): seq<real> { Linspace(b.minX, b.maxX, 9) }

  /** The y values of the 9 by 9 lattice over bounds `b`. */
  function BoardYs(b: Box): seq<real> { Linspace(b.minY, b.maxY, 9) }

  lemma BoardGridSize(b: Box)
    ensures |GridCells(b, 9, 9)| == 64
  {
    LatticeLength(BoardXs(b), BoardYs(b), 8);
  }

  /** The bounds of cell `k` of `create_grid(geom, 9, 9)` for polygon bounds `b`. */
  function BoardCellBounds(b: Box, k: nat): Box
    requires k < 64
  {
    BoardGridSize(b);
    Bounds(GridCells(b, 9, 9)[k].Vertices())
  }

  /**
   * `create_grid(geom, 9, 9)` as find_move.py and cv.py call it: 64 cells,
   * cell `k` at lattice position `(k / 8, k % 8)`, spanning
   * `[grid_x[k / 8], grid_x[k / 8 + 1]]` by `[grid_y[k % 8], grid_y[k % 8 + 1]]`.
   */
  lemma BoardGridLayout(b: Box, k: nat)
    requires b.minX <= b.maxX && b.minY <= b.maxY
    requires k < 64
    ensures |GridCells(b, 9, 9)| == 64
    ensures GridCells(b, 9, 9)[k] == LatticeCell(BoardXs(b), BoardYs(b), k / 8, k % 8)
    ensures Bounds(GridCells(b, 9, 9)[k].Vertices()) ==
      Box(BoardXs(b)[k / 8], BoardYs(b)[k % 8], BoardXs(b)[k / 8 + 1], BoardYs(b)[k % 8 + 1])
  {
    var gx, gy := BoardXs(b), BoardYs(b);
    LatticeLength(gx, gy, 8);
    LatticeIndex(gx, gy, 8, k / 8, k % 8);
    LinspaceMonotone(b.minX, b.maxX, 9, k / 8, k / 8 + 1);
    LinspaceMonotone(b.minY, b.maxY, 9, k % 8, k % 8 + 1);
    BoundsOfRectangle(GridCells(b, 9, 9)[k], gx[k / 8], gx[k / 8 + 1], gy[k % 8], gy[k % 8 + 1]);
  }

  /** A sequence of integers that never decreases. */
  predicate NonDecreasing(t: seq<int>)
  {
    forall i, j :: 0 <= i <= j < |t| ==> t[i] <= t[j]
  }

  /** The truncated lattice values `int(v)` a cell's pixel loop starts and stops at. */
  function TruncAll(vs: seq<real>): (t: seq<int>)
    ensures |t| == |vs|
    ensures forall i :: 0 <= i < |vs| ==> t[i] == Trunc(vs[i])
  {
    seq(|vs|, i requires 0 <= i < |vs| => Trunc(vs[i]))
  }

  lemma TruncLatticeNonDecreasing(lo: real, hi: real)
    requires lo <= hi
    ensures NonDecreasing(TruncAll(Linspace(lo, hi, 9)))
  {
    var vs := Linspace(lo, hi, 9);
    forall i, j | 0 <= i <= j < 9
      ensures Trunc(vs[i]) <= Trunc(vs[j])
    {
      LinspaceMonotone(lo, hi, 9, i, j);
      TruncMonotone(vs[i], vs[j]);
    }
  }

  /**
   * The half-open intervals between consecutive values of a non-decreasing
   * sequence cover the interval from its first to its last value.
   */
  lemma {:induction false} IntervalContaining(t: seq<int>, v: int) returns (i: nat)
    requires |t| >= 2 && NonDecreasing(t)
    requires t[0] <= v < t[|t| - 1]
    ensures i < |t| - 1 && t[i] <= v < t[i + 1]
  {
    if t[|t| - 2] <= v {
      i := |t| - 2;
    } else {
      i := IntervalContaining(t[..|t| - 1], v);
    }
  }

  /**
   * Every pixel of the bounding box's pixel range falls in the pixel range of
   * some cell of the 9 by 9 grid: the cells' pixel ranges leave no gap.
   */
  lemma BoardGridCovers(b: Box, px: int, py: int) returns (k: nat)
    requires b.minX <= b.maxX && b.minY <= b.maxY
    requires PixelIn(px, py, b)
    ensures k < 64
    ensures PixelIn(px, py, BoardCellBounds(b, k))
  {
    var tx, ty := TruncAll(BoardXs(b)), TruncAll(BoardYs(b));
    LinspaceEnds(b.minX, b.maxX, 9);
    LinspaceEnds(b.minY, b.maxY, 9);
    TruncLatticeNonDecreasing(b.minX, b.maxX);
    TruncLatticeNonDecreasing(b.minY, b.maxY);
    var ix := IntervalContaining(tx, px);
    var iy := IntervalContaining(ty, py);
    k := ix * 8 + iy;
    assert k / 8 == ix && k % 8 == iy;
    BoardGridLayout(b, k);
  }

  /** A value lies in at most one of the half-open intervals of a non-decreasing sequence. */
  lemma IntervalUnique(t: seq<int>, i: nat, j: nat, v: int)
    requires NonDecreasing(t) && i + 1 < |t| && j + 1 < |t|
    requires t[i] <= v < t[i + 1] && t[j] <= v < t[j + 1]
    ensures i == j
  {
  }

  /** Cell `k`'s pixels in terms of the truncated lattice values. */
  lemma BoardCellPixels(b: Box, k: nat, px: int, py: int)
    requires b.minX <= b.maxX && b.minY <= b.maxY && k < 64
    ensures PixelIn(px, py, BoardCellBounds(b, k)) <==>
      TruncAll(BoardXs(b))[k / 8] <= px < TruncAll(BoardXs(b))[k / 8 + 1] &&
      TruncAll(BoardYs(b))[k % 8] <= py < TruncAll(BoardYs(b))[k % 8 + 1]
  {
    BoardGridLayout(b, k);
  }

  /** Every cell's pixels lie in the pixel range of the bounding box. */
  lemma BoardGridInside(b: Box, k: nat, px: int, py: int)
    requires b.minX <= b.maxX && b.minY <= b.maxY && k < 64
    requires PixelIn(px, py, BoardCellBounds(b, k))
    ensures PixelIn(px, py, b)
  {
    var tx, ty := TruncAll(BoardXs(b)), TruncAll(BoardYs(b));
    LinspaceEnds(b.minX, b.maxX, 9);
    LinspaceEnds(b.minY, b.maxY, 9);
    TruncLatticeNonDecreasing(b.minX, b.maxX);
    TruncLatticeNonDecreasing(b.minY, b.maxY);
    BoardCellPixels(b, k, px, py);
    assert tx[0] <= tx[k / 8] && tx[k / 8 + 1] <= tx[8];
    assert ty[0] <= ty[k % 8] && ty[k % 8 + 1] <= ty[8];
  }

  /**
   * No pixel falls in the pixel ranges of two different cells of the 9 by 9
   * grid: the 64 per-cell sums read disjoint parts of the difference map.
   */
  lemma BoardGridDisjoint(b: Box, k1: nat, k2: nat, px: int, py: int)
    requires b.minX <= b.maxX && b.minY <= b.maxY
    requires k1 < 64 && k2 < 64
    requires PixelIn(px, py, BoardCellBounds(b, k1)) && PixelIn(px, py, BoardCellBounds(b, k2))
    ensures k1 == k2
  {
    var tx, ty := TruncAll(BoardXs(b)), TruncAll(BoardYs(b));
    TruncLatticeNonDecreasing(b.minX, b.maxX);
    TruncLatticeNonDecreasing(b.minY, b.maxY);
    BoardCellPixels(b, k1, px, py);
    BoardCellPixels(b, k2, px, py);
    IntervalUnique(tx, k1 / 8, k2 / 8, px);
    IntervalUnique(ty, k1 % 8, k2 % 8, py);
  }
}
