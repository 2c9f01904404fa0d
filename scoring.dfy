/**
 * Per-cell change scoring of cv/find_move.py: each grid cell's score is the
 * sum of the difference map over the integer pixel range of the cell's
 * bounds, the scores are kept in the `cell_diffs` dictionary (keyed by cell),
 * the cells are sorted by ascending score (stably), and the first two are
 * the ones highlighted.
 */
module Scoring {
  import opened Py
  import opened Geometry

  /** The difference map: a 2-D array given as rows of equal width. */
  type Image = seq<seq<real>>

  function Width(d: Image): nat
  {
    if |d| == 0 then 0 else |d[0]|
  }

  predicate IsImage(d: Image)
  {
    forall y :: 0 <= y < |d| ==> |d[y]| == Width(d)
  }

  /** `diff[y][x]` raises no IndexError (negative indices count from the end). */
  predicate Readable(d: Image, x: int, y: int)
  {
    PyIndex(y, |d|).Some? && PyIndex(x, Width(d)).Some?
  }

  /** The value `diff[y][x]` reads. */
  function At(d: Image, x: int, y: int): real
    requires IsImage(d) && Readable(d, x, y)
  {
    d[PyIndex(y, |d|).value][PyIndex(x, Width(d)).value]
  }

  /** Every pixel of the rectangle `[x0, x1) x [y0, y1)` is readable. */
  predicate RectReadable(d: Image, x0: int, x1: int, y0: int, y1: int)
  {
    forall x, y :: x0 <= x < x1 && y0 <= y < y1 ==> Readable(d, x, y)
  }

  /** The sum of `diff[y][x]` for `y` in `[y0, y1)`. */
  function ColSum(d: Image, x: int, y0: int, y1: int): real
    requires IsImage(d)
    requires forall y :: y0 <= y < y1 ==> Readable(d, x, y)
    decreases y1 - y0
  {
    if y1 <= y0 then 0.0 else ColSum(d, x, y0, y1 - 1) + At(d, x, y1 - 1)
  }

  /** The sum of `diff[y][x]` over the rectangle `[x0, x1) x [y0, y1)`. */
  function RectSum(d: Image, x0: int, x1: int, y0: int, y1: int): (r: real)
    requires IsImage(d) && RectReadable(d, x0, x1, y0, y1)
    // an empty range in either direction sums nothing
    ensures x1 <= x0 || y1 <= y0 ==> r == 0.0
    decreases x1 - x0
  {
    if x1 <= x0 then 0.0 else RectSum(d, x0, x1 - 1, y0, y1) + ColSum(d, x1 - 1, y0, y1)
  }

  /** A column of a map that is nowhere larger than another's sums to no more. */
  lemma {:induction false} ColSumMonotone(d: Image, e: Image, x: int, y0: int, y1: int)
    requires IsImage(d) && IsImage(e)
    requires forall y :: y0 <= y < y1 ==> Readable(d, x, y) && Readable(e, x, y) && At(d, x, y) <= At(e, x, y)
    ensures ColSum(d, x, y0, y1) <= ColSum(e, x, y0, y1)
    decreases y1 - y0
  {
    if y1 > y0 {
      ColSumMonotone(d, e, x, y0, y1 - 1);
    }
  }

  /** The same for a rectangle. */
  lemma {:induction false} RectSumMonotone(d: Image, e: Image, x0: int, x1: int, y0: int, y1: int)
    requires IsImage(d) && IsImage(e)
    requires forall x, y :: x0 <= x < x1 && y0 <= y < y1 ==>
      Readable(d, x, y) && Readable(e, x, y) && At(d, x, y) <= At(e, x, y)
    ensures RectSum(d, x0, x1, y0, y1) <= RectSum(e, x0, x1, y0, y1)
    decreases x1 - x0
  {
    if x1 > x0 {
      RectSumMonotone(d, e, x0, x1 - 1, y0, y1);
      ColSumMonotone(d, e, x1 - 1, y0, y1);
    }
  }

  /** The cell's pixel loops read only valid positions of the map. */
  predicate CellReadable(d: Image, c: Quad)
  {
    var b := Bounds(c.Vertices());
    RectReadable(d, Trunc(b.minX), Trunc(b.maxX), Trunc(b.minY), Trunc(b.maxY))
  }

  /** A cell's score: the map summed over `range(int(min_x), int(max_x))` by `range(int(min_y), int(max_y))`. */
  function CellScore(d: Image, c: Quad): (r: real)
    requires IsImage(d) && CellReadable(d, c)
    // a cell narrower or shorter than the pixel grid after truncation scores 0
    ensures var b := Bounds(c.Vertices());
      Trunc(b.maxX) <= Trunc(b.minX) || Trunc(b.maxY) <= Trunc(b.minY) ==> r == 0.0
  {
    var b := Bounds(c.Vertices());
    RectSum(d, Trunc(b.minX), Trunc(b.maxX), Trunc(b.minY), Trunc(b.maxY))
  }

  /**
   * A cell scores no more on a map that is nowhere larger over the cell's
   * pixels: the least similar cells score lowest.
   */
  lemma CellScoreMonotone(d: Image, e: Image, c: Quad)
    requires IsImage(d) && IsImage(e) && CellReadable(d, c) && CellReadable(e, c)
    requires var b := Bounds(c.Vertices());
      forall x, y :: Trunc(b.minX) <= x < Trunc(b.maxX) && Trunc(b.minY) <= y < Trunc(b.maxY) ==>
        At(d, x, y) <= At(e, x, y)
    ensures CellScore(d, c) <= CellScore(e, c)
  {
    var b := Bounds(c.Vertices());
    RectSumMonotone(d, e, Trunc(b.minX), Trunc(b.maxX), Trunc(b.minY), Trunc(b.maxY));
  }

  /**
   * The nested pixel loop of one cell: the score when every pixel it visits
   * is inside the map, and IndexError at the first one that is not.
   */
  method CellDiff(d: Image, c: Quad) returns (r: Result<real>)
    requires IsImage(d)
    ensures r.Ok? <==> CellReadable(d, c)
    ensures r.Ok? ==> r.value == CellScore(d, c)
    ensures r.Err? ==> r.error == IndexError
  {
    var b := Bounds(c.Vertices());
    var x0, x1, y0, y1 := Trunc(b.minX), Trunc(b.maxX), Trunc(b.minY), Trunc(b.maxY);
    var cellDiff := 0.0;
    var x := x0;
    while x < x1
      invariant x0 <= x && (x <= x1 || x == x0)
      invariant RectReadable(d, x0, x, y0, y1)
      invariant cellDiff == RectSum(d, x0, x, y0, y1)
      decreases x1 - x
    {
      var y := y0;
      while y < y1
        invariant y0 <= y && (y <= y1 || y == y0)
        invariant forall yy :: y0 <= yy < y ==> Readable(d, x, yy)
        invariant cellDiff == RectSum(d, x0, x, y0, y1) + ColSum(d, x, y0, y)
        decreases y1 - y
      {
        var row := PyIndex(y, |d|);
        var col := PyIndex(x, Width(d));
        if row.None? || col.None? {
          assert !Readable(d, x, y);
          return Err(IndexError);
        }
        cellDiff := cellDiff + d[row.value][col.value];
        y := y + 1;
      }
      assert forall yy :: y0 <= yy < y1 ==> Readable(d, x, yy);
      x := x + 1;
    }
    r := Ok(cellDiff);
  }

  /** The keys of a dictionary filled with `cells` in order: each distinct cell once, at its first insertion. */
  function InsertionKeys(cells: seq<Quad>): (keys: seq<Quad>)
    ensures forall c :: c in keys <==> c in cells
    ensures forall i, j :: 0 <= i < j < |keys| ==> keys[i] != keys[j]
    ensures |keys| <= |cells|
  {
    if cells == [] then []
    else
      var keys := InsertionKeys(cells[..|cells| - 1]);
      var c := cells[|cells| - 1];
      assert forall e :: e in cells <==> e in cells[..|cells| - 1] || e == c;
      if c in keys then keys else keys + [c]
  }

  lemma InsertionKeysStep(cells: seq<Quad>, n: nat)
    requires n < |cells|
    ensures InsertionKeys(cells[..n + 1]) ==
      if cells[n] in cells[..n] then InsertionKeys(cells[..n]) else InsertionKeys(cells[..n]) + [cells[n]]
    ensures forall c :: c in cells[..n + 1] <==> c in cells[..n] || c == cells[n]
  {
    assert cells[..n + 1][..n] == cells[..n];
  }

  /** Distinct cells are all kept, in the order given. */
  lemma {:induction false} InsertionKeysOfDistinct(cells: seq<Quad>)
    requires forall i, j :: 0 <= i < j < |cells| ==> cells[i] != cells[j]
    ensures InsertionKeys(cells) == cells
  {
    if cells != [] {
      var init := cells[..|cells| - 1];
      InsertionKeysOfDistinct(init);
      assert cells[|cells| - 1] !in init;
      assert init + [cells[|cells| - 1]] == cells;
    }
  }

  /** `cell_diffs`: the cells in insertion order and the score stored for each. */
  datatype CellDiffs = CellDiffs(keys: seq<Quad>, score: map<Quad, real>)

  /**
   * The scores `cell_diffs` holds once every cell of `grid` has been stored
   * in turn: a repeated cell overwrites its own entry.
   */
  function ScoreMap(d: Image, grid: seq<Quad>): (m: map<Quad, real>)
    requires IsImage(d) && forall c :: c in grid ==> CellReadable(d, c)
    ensures forall c :: c in m <==> c in grid
  {
    if grid == [] then map[]
    else
      var init := grid[..|grid| - 1];
      var c := grid[|grid| - 1];
      assert forall e :: e in grid <==> e in init || e == c;
      ScoreMap(d, init)[c := CellScore(d, c)]
  }

  /** Storing the next cell's score extends the dictionary of the cells before it. */
  lemma ScoreMapStep(d: Image, grid: seq<Quad>, n: nat)
    requires IsImage(d) && n < |grid|
    requires forall c :: c in grid[..n + 1] ==> CellReadable(d, c)
    ensures ScoreMap(d, grid[..n + 1]) == ScoreMap(d, grid[..n])[grid[n] := CellScore(d, grid[n])]
  {
    assert grid[..n + 1][..n] == grid[..n];
  }

  /** Every cell's entry is its own score, whichever of its repetitions was stored last. */
  lemma {:induction false} ScoreMapValues(d: Image, grid: seq<Quad>)
    requires IsImage(d) && forall c :: c in grid ==> CellReadable(d, c)
    ensures forall c :: c in ScoreMap(d, grid) ==> CellReadable(d, c) && ScoreMap(d, grid)[c] == CellScore(d, c)
  {
    if grid != [] {
      ScoreMapValues(d, grid[..|grid| - 1]);
    }
  }

  /** `cell_diffs` once every cell of `grid` has been scored without an exception. */
  function ScoredCells(d: Image, grid: seq<Quad>): (r: CellDiffs)
    requires IsImage(d) && forall c :: c in grid ==> CellReadable(d, c)
    ensures forall c :: c in r.keys <==> c in grid
    ensures forall c :: c in r.score <==> c in grid
  {
    CellDiffs(InsertionKeys(grid), ScoreMap(d, grid))
  }

  /**
   * The loop `for cell in grid: ... cell_diffs[cell] = cell_diff`: every cell
   * is scored; a cell equal to an earlier one overwrites the same entry (with
   * the same score), so the keys are the distinct cells in first-seen order.
   */
  method ScoreCells(d: Image, grid: seq<Quad>) returns (r: Result<CellDiffs>)
    requires IsImage(d)
    ensures r.Ok? <==> forall c :: c in grid ==> CellReadable(d, c)
    ensures r.Err? ==> r.error == IndexError
    ensures r.Ok? ==> r.value == ScoredCells(d, grid)
  {
    var keys: seq<Quad> := [];
    var score: map<Quad, real> := map[];
    for n := 0 to |grid|
      invariant keys == InsertionKeys(grid[..n])
      invariant forall c :: c in grid[..n] ==> CellReadable(d, c)
      invariant score == ScoreMap(d, grid[..n])
    {
      var cell := grid[n];
      var cellDiff := CellDiff(d, cell);
      if cellDiff.Err? {
        return Err(cellDiff.error);
      }
      InsertionKeysStep(grid, n);
      ScoreMapStep(d, grid, n);
      if cell !in score {
        keys := keys + [cell];
      }
      score := score[cell := cellDiff.value];
    }
    assert grid[..|grid|] == grid;
    r := Ok(CellDiffs(keys, score));
  }

  /** Position `a` comes before position `b` when sorted stably by ascending score. */
  predicate Before(scores: seq<real>, a: nat, b: nat)
    requires a < |scores| && b < |scores|
  {
    scores[a] < scores[b] || (scores[a] == scores[b] && a < b)
  }

  /** Positions listed in stable ascending-score order. */
  predicate Ordered(scores: seq<real>, order: seq<nat>)
  {
    (forall i :: 0 <= i < |order| ==> order[i] < |scores|) &&
    forall i, j :: 0 <= i < j < |order| ==> Before(scores, order[i], order[j])
  }

  /** Insert position `p` into a stably ordered list, before every entry with the same or a higher score. */
  function Insert(scores: seq<real>, p: nat, order: seq<nat>): (r: seq<nat>)
    requires p < |scores| && forall i :: 0 <= i < |order| ==> order[i] < |scores|
    ensures multiset(r) == multiset(order) + multiset{p}
    ensures |r| == |order| + 1
    ensures forall i :: 0 <= i < |r| ==> r[i] < |scores|
  {
    if order == [] || scores[p] <= scores[order[0]] then [p] + order
    else
      assert order == [order[0]] + order[1..];
      [order[0]] + Insert(scores, p, order[1..])
  }

  /** Positions `lo..` of `scores` in stable ascending-score order (an insertion sort). */
  function SortFrom(scores: seq<real>, lo: nat): (r: seq<nat>)
    requires lo <= |scores|
    ensures forall i :: 0 <= i < |r| ==> r[i] < |scores|
    decreases |scores| - lo
  {
    if lo == |scores| then [] else Insert(scores, lo, SortFrom(scores, lo + 1))
  }

  /** `sorted(range(len(scores)), key=scores.__getitem__)`: Python's stable sort by ascending score. */
  function SortedPositions(scores: seq<real>): seq<nat>
  {
    SortFrom(scores, 0)
  }

  /** Inserting a position smaller than every listed one keeps the list stably ordered. */
  lemma {:induction false} InsertOrdered(scores: seq<real>, p: nat, order: seq<nat>)
    requires p < |scores| && Ordered(scores, order)
    requires forall i :: 0 <= i < |order| ==> p < order[i]
    ensures Ordered(scores, Insert(scores, p, order))
  {
    var r := Insert(scores, p, order);
    if order == [] || scores[p] <= scores[order[0]] {
      forall j | 0 < j < |r|
        ensures Before(scores, r[0], r[j])
      {
        if j > 1 {
          assert Before(scores, order[0], order[j - 1]);
        }
      }
    } else {
      var tail := order[1..];
      InsertOrdered(scores, p, tail);
      var t := Insert(scores, p, tail);
      assert r == [order[0]] + t;
      forall j | 0 < j < |r|
        ensures Before(scores, r[0], r[j])
      {
        assert r[j] in multiset(t);
        assert r[j] in multiset(tail) || r[j] == p;
        if r[j] != p {
          var k :| 0 <= k < |tail| && tail[k] == r[j];
          assert Before(scores, order[0], order[k + 1]);
        }
      }
    }
  }

  /**
   * The stable sort lists every position of `lo..` exactly once, ordered by
   * ascending score with ties in ascending position (insertion) order.
   */
  lemma {:induction false} SortFromCorrect(scores: seq<real>, lo: nat)
    requires lo <= |scores|
    ensures Ordered(scores, SortFrom(scores, lo))
    ensures multiset(SortFrom(scores, lo)) == multiset(Range(lo, |scores|))
    decreases |scores| - lo
  {
    if lo < |scores| {
      SortFromCorrect(scores, lo + 1);
      var rest := SortFrom(scores, lo + 1);
      forall i | 0 <= i < |rest|
        ensures lo < rest[i]
      {
        assert rest[i] in multiset(Range(lo + 1, |scores|));
        RangeMembers(lo + 1, |scores|, rest[i]);
      }
      InsertOrdered(scores, lo, rest);
      assert Range(lo, |scores|) == [lo] + Range(lo + 1, |scores|);
    }
  }

  /** The positions `lo, lo + 1, ..., hi - 1`. */
  function Range(lo: nat, hi: nat): (r: seq<nat>)
    ensures |r| == if lo <= hi then hi - lo else 0
    decreases hi - lo
  {
    if lo >= hi then [] else [lo] + Range(lo + 1, hi)
  }

  lemma {:induction false} RangeMembers(lo: nat, hi: nat, x: nat)
    ensures x in multiset(Range(lo, hi)) <==> lo <= x < hi
    decreases hi - lo
  {
    if lo < hi {
      RangeMembers(lo + 1, hi, x);
    }
  }

  /**
   * `sorted_cells`: a permutation of all positions, in non-decreasing score
   * order, ties kept in insertion order.
   */
  lemma SortedPositionsCorrect(scores: seq<real>)
    ensures |SortedPositions(scores)| == |scores|
    ensures Ordered(scores, SortedPositions(scores))
    ensures forall p: int :: p in SortedPositions(scores) <==> 0 <= p < |scores|
    ensures forall i, j :: 0 <= i < j < |SortedPositions(scores)| ==> SortedPositions(scores)[i] != SortedPositions(scores)[j]
  {
    SortFromCorrect(scores, 0);
    SortedPositionsMembers(scores);
    OrderedDistinct(scores, SortedPositions(scores));
  }

  /** The sorted positions are exactly `0..len(scores) - 1`. */
  lemma SortedPositionsMembers(scores: seq<real>)
    requires multiset(SortedPositions(scores)) == multiset(Range(0, |scores|))
    ensures |SortedPositions(scores)| == |scores|
    ensures forall p: int :: p in SortedPositions(scores) <==> 0 <= p < |scores|
  {
    var s := SortedPositions(scores);
    assert |s| == |multiset(s)| == |multiset(Range(0, |scores|))| == |scores|;
    forall p: int
      ensures p in s <==> 0 <= p < |scores|
    {
      if p >= 0 {
        RangeMembers(0, |scores|, p);
      }
      assert p in s <==> p in multiset(s);
    }
  }

  /** A stably ordered list of positions repeats none. */
  lemma OrderedDistinct(scores: seq<real>, order: seq<nat>)
    requires Ordered(scores, order)
    ensures forall i, j :: 0 <= i < j < |order| ==> order[i] != order[j]
  {
    forall i, j | 0 <= i < j < |order|
      ensures order[i] != order[j]
    {
      assert Before(scores, order[i], order[j]);
    }
  }

  /**
   * `sorted_cells[0]`, `sorted_cells[1]`: the positions of the two lowest
   * scores, or IndexError when there are fewer than two cells.
   */
  function TopTwo(scores: seq<real>): (r: Result<(nat, nat)>)
    ensures r.Ok? <==> |scores| >= 2
    ensures r.Err? ==> r.error == IndexError
  {
    var sorted := SortedPositions(scores);
    SortedPositionsCorrect(scores);
    if |sorted| < 2 then Err(IndexError) else Ok((sorted[0], sorted[1]))
  }

  /**
   * The two highlighted cells are different, the first has the lowest score
   * and the second the next lowest: every other cell scores at least as much,
   * and on equal scores the earlier-inserted cell wins.
   */
  lemma TopTwoAreLowest(scores: seq<real>, k: nat)
    requires TopTwo(scores).Ok? && k < |scores|
    ensures TopTwo(scores).value.0 < |scores| && TopTwo(scores).value.1 < |scores|
    ensures TopTwo(scores).value.0 != TopTwo(scores).value.1
    ensures Before(scores, TopTwo(scores).value.0, TopTwo(scores).value.1)
    ensures k != TopTwo(scores).value.0 && k != TopTwo(scores).value.1 ==>
      Before(scores, TopTwo(scores).value.1, k)
  {
    var s := SortedPositions(scores);
    SortedPositionsCorrect(scores);
    if k != s[0] && k != s[1] {
      assert k in s;
      var j :| 0 <= j < |s| && s[j] == k;
      assert j >= 2;
      assert Before(scores, s[1], s[j]);
    }
  }

  /** Every key of `cell_diffs` has a score. */
  predicate Complete(cd: CellDiffs)
  {
    forall c :: c in cd.keys ==> c in cd.score
  }

  /** The scores in key (insertion) order, the order `sorted` sees them in. */
  function KeyScores(cd: CellDiffs): (r: seq<real>)
    requires Complete(cd)
    ensures |r| == |cd.keys|
    ensures forall i :: 0 <= i < |cd.keys| ==> r[i] == cd.score[cd.keys[i]]
  {
    seq(|cd.keys|, i requires 0 <= i < |cd.keys| => cd.score[cd.keys[i]])
  }

  /**
   * `sorted_cells[0]` and `sorted_cells[1]` for `sorted(cell_diffs, key =
   * cell_diffs.get)`: the two cells highlighted as the moved piece's squares.
   */
  function MovedCells(cd: CellDiffs): (r: Result<(Quad, Quad)>)
    requires Complete(cd)
    ensures r.Ok? <==> |cd.keys| >= 2
    ensures r.Err? ==> r.error == IndexError
    ensures r.Ok? ==> r.value.0 in cd.keys && r.value.1 in cd.keys
  {
    match TopTwo(KeyScores(cd))
    case Err(e) => Err(e)
    case Ok((a, b)) =>
      TopTwoAreLowest(KeyScores(cd), a);
      Ok((cd.keys[a], cd.keys[b]))
  }

  /**
   * The highlighted cells are two different cells of `cell_diffs`, the first
   * with the lowest score and the second with the next lowest: no other cell
   * scores less than either.
   */
  lemma MovedCellsLowest(cd: CellDiffs, c: Quad)
    requires Complete(cd) && MovedCells(cd).Ok?
    requires forall i, j :: 0 <= i < j < |cd.keys| ==> cd.keys[i] != cd.keys[j]
    requires c in cd.keys
    ensures MovedCells(cd).value.0 != MovedCells(cd).value.1
    ensures cd.score[MovedCells(cd).value.0] <= cd.score[MovedCells(cd).value.1]
    ensures c != MovedCells(cd).value.0 && c != MovedCells(cd).value.1 ==>
      cd.score[MovedCells(cd).value.1] <= cd.score[c]
  {
    var scores := KeyScores(cd);
    var k :| 0 <= k < |cd.keys| && cd.keys[k] == c;
    TopTwoAreLowest(scores, k);
  }
}
