/**
 * Plane geometry used by the board grid: points, four-point polygons, their
 * axis-aligned bounds (shapely's `bounds`), `np.linspace` over exact reals,
 * and Python's `int(x)` on a float.
 */
module Geometry {

  /** A point in pixel coordinates. */
  datatype Point = Point(x: real, y: real)

  /** A four-vertex polygon, vertices in the order they were given. */
  datatype Quad = Quad(p0: Point, p1: Point, p2: Point, p3: Point)
  {
    function Vertices(): seq<Point> { [p0, p1, p2, p3] }
  }

  /** shapely's `(min_x, min_y, max_x, max_y)`. */
  datatype Box = Box(minX: real, minY: real, maxX: real, maxY: real)

  predicate InBox(p: Point, b: Box)
  {
    b.minX <= p.x <= b.maxX && b.minY <= p.y <= b.maxY
  }

  /**
   * The bounds of a polygon given by its vertices: the smallest axis-aligned
   * box that holds every vertex, each side touched by some vertex.
   */
  function Bounds(pts: seq<Point>): (b: Box)
    requires |pts| > 0
    ensures b.minX <= b.maxX && b.minY <= b.maxY
    ensures forall i :: 0 <= i < |pts| ==> InBox(pts[i], b)
    ensures exists i :: 0 <= i < |pts| && pts[i].x == b.minX
    ensures exists i :: 0 <= i < |pts| && pts[i].x == b.maxX
    ensures exists i :: 0 <= i < |pts| && pts[i].y == b.minY
    ensures exists i :: 0 <= i < |pts| && pts[i].y == b.maxY
  {
    if |pts| == 1 then Box(pts[0].x, pts[0].y, pts[0].x, pts[0].y)
    else
      var r := Bounds(pts[1..]);
      var p := pts[0];
      var b := Box(if p.x < r.minX then p.x else r.minX,
                   if p.y < r.minY then p.y else r.minY,
                   if p.x > r.maxX then p.x else r.maxX,
                   if p.y > r.maxY then p.y else r.maxY);
      assert forall i :: 1 <= i < |pts| ==> pts[i] == pts[1..][i - 1];
      b
  }

  /** A box whose sides are each given by two values is exactly those values' extent. */
  lemma BoundsOfRectangle(q: Quad, x0: real, x1: real, y0: real, y1: real)
    requires x0 <= x1 && y0 <= y1
    requires q == Quad(Point(x0, y0), Point(x0, y1), Point(x1, y1), Point(x1, y0))
    ensures Bounds(q.Vertices()) == Box(x0, y0, x1, y1)
  {
    var b := Bounds(q.Vertices());
    var v := q.Vertices();
    assert InBox(v[0], b) && InBox(v[2], b);
  }

  /**
   * The pixels `(px, py)` visited by `for x in range(int(min_x), int(max_x))`
   * and `for y in range(int(min_y), int(max_y))` over the bounds `b`.
   */
  predicate PixelIn(px: int, py: int, b: Box)
  {
    Trunc(b.minX) <= px < Trunc(b.maxX) && Trunc(b.minY) <= py < Trunc(b.maxY)
  }

  /** Python's `int(x)` on a float: truncation toward zero. */
  function Trunc(r: real): (t: int)
    ensures 0.0 <= r ==> t as real <= r < t as real + 1.0
    ensures r < 0.0 ==> t as real - 1.0 < r <= t as real
  {
    if r >= 0.0 then r.Floor else -((-r).Floor)
  }

  /** Truncation never reverses the order of two values. */
  lemma TruncMonotone(a: real, b: real)
    requires a <= b
    ensures Trunc(a) <= Trunc(b)
  {
  }

  /** The spacing of `np.linspace(lo, hi, n)` for `n >= 2`. */
  function Step(lo: real, hi: real, n: nat): real
    requires n >= 2
  {
    (hi - lo) / ((n - 1) as real)
  }

  /** Element `i` of `np.linspace(lo, hi, n)`. */
  function LinspaceAt(lo: real, hi: real, n: nat, i: nat): real
    requires i < n
  {
    if n == 1 then lo else lo + (i as real) * Step(lo, hi, n)
  }

  /** `np.linspace(lo, hi, n)`: `n` evenly spaced values from `lo` to `hi`, both included. */
  function Linspace(lo: real, hi: real, n: nat): (r: seq<real>)
    ensures |r| == n
    ensures forall i :: 0 <= i < n ==> r[i] == LinspaceAt(lo, hi, n, i)
  {
    seq(n, i requires 0 <= i < n => LinspaceAt(lo, hi, n, i))
  }

  lemma StepTimesIntervals(lo: real, hi: real, n: nat)
    requires n >= 2
    ensures ((n - 1) as real) * Step(lo, hi, n) == hi - lo
  {
  }

  lemma StepScaleMonotone(s: real, i: nat, j: nat)
    requires 0.0 <= s && i <= j
    ensures (i as real) * s <= (j as real) * s
  {
  }

  /** The first value of `np.linspace` is `lo`, the last is `hi`. */
  lemma LinspaceEnds(lo: real, hi: real, n: nat)
    requires n >= 2
    ensures Linspace(lo, hi, n)[0] == lo
    ensures Linspace(lo, hi, n)[n - 1] == hi
  {
    var r := Linspace(lo, hi, n);
    StepTimesIntervals(lo, hi, n);
    assert r[n - 1] == lo + ((n - 1) as real) * Step(lo, hi, n);
  }

  /** Neighbouring values of `np.linspace` differ by the same step, `(hi - lo) / (n - 1)`. */
  lemma LinspaceEvenlySpaced(lo: real, hi: real, n: nat, i: nat)
    requires n >= 2 && i < n - 1
    ensures Linspace(lo, hi, n)[i + 1] - Linspace(lo, hi, n)[i] == Step(lo, hi, n)
  {
    var s := Step(lo, hi, n);
    assert ((i + 1) as real) * s == (i as real) * s + s;
  }

  /** With `lo <= hi` the values of `np.linspace` never decrease. */
  lemma LinspaceMonotone(lo: real, hi: real, n: nat, i: nat, j: nat)
    requires lo <= hi && i <= j < n
    ensures Linspace(lo, hi, n)[i] <= Linspace(lo, hi, n)[j]
  {
    if n >= 2 {
      var s := Step(lo, hi, n);
      assert 0.0 <= s;
      StepScaleMonotone(s, i, j);
    }
  }
}
