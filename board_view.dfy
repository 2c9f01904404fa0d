/**
 * `BoardView` of widowx_envs/cv.py: tag lookup, corner extraction, the board
 * grid with its square labels, and `locate_board`. The detector's output is
 * an input; `__init__` and the frame warps are not modelled.
 */
module BoardView {
  import opened Py
  import opened Geometry
  import opened Tags
  import opened Grid
  import FindMove

  /** The one key `__find_tags` stores every tag under. */
  const PlaceholderKey: string := "fix this!"

  /** The file letters in the order the labelling loop uses them. */
  const Letters: string := "hgfedcba"

  /** A Python value compared by `!=` in `locate_board`. */
  datatype PyValue = PyInt(i: int) | PyStr(s: string)

  /** Python's `==`: values of different types are never equal. */
  function PyEquals(a: PyValue, b: PyValue): (r: bool)
    ensures r ==> a.PyInt? == b.PyInt?
  {
    match (a, b)
    case (PyInt(x), PyInt(y)) => x == y
    case (PyStr(x), PyStr(y)) => x == y
    case _ => false
  }

  /** How `locate_board` returns (it always returns None). */
  datatype Located = ReturnedEarly | CornersDiscarded(corners: Result<seq<Point>>)

  /** The label the intended labelling gives cell `k`: its file letter and its rank, `h1` first. */
  function SquareName(k: nat): (s: string)
    requires k < 64
    ensures |s| == 2 && s[0] == Letters[k / 8] && s[1] == ('1' as int + k % 8) as char
  {
    [Letters[k / 8]] + DecimalString(k % 8 + 1)
  }

  /** Different cells get different labels. */
  lemma SquareNameInjective(k1: nat, k2: nat)
    requires k1 < 64 && k2 < 64 && SquareName(k1) == SquareName(k2)
    ensures k1 == k2
  {
    var s1, s2 := SquareName(k1), SquareName(k2);
    assert s1[0] == s2[0] && s1[1] == s2[1];
    assert Letters[k1 / 8] == Letters[k2 / 8];
    assert k1 / 8 == k2 / 8;
    assert k1 % 8 == k2 % 8;
  }

  class BoardView {
    /** `self.board_cells`: square label to cell. */
    var boardCells: map<string, Quad>
    /** `self.frame`: the current, warped frame. */
    var frame: FindMove.Frame
    /** `self.last_frame`: the last saved board state. */
    var lastFrame: FindMove.Frame

    /**
     * `__find_tags`, given what the detector finds in `self.frame`: every tag
     * is stored under the same placeholder key, so the result has at most one
     * entry, the corners of the last tag.
     */
    method FindTags(detections: seq<Tag>) returns (tagDict: TagDict)
      ensures |tagDict| <= 1
      ensures |detections| == 0 <==> tagDict == map[]
      ensures |detections| > 0 ==> tagDict == map[PlaceholderKey := detections[|detections| - 1].corners]
    {
      tagDict := map[];
      for n := 0 to |detections|
        invariant n == 0 ==> tagDict == map[]
        invariant n > 0 ==> tagDict == map[PlaceholderKey := detections[n - 1].corners]
      {
        tagDict := tagDict[PlaceholderKey := detections[n].corners];
      }
      assert |detections| > 0 ==> PlaceholderKey in tagDict;
    }

    /**
     * `__get_corners`: one point per `BoardCorners` entry, in dictionary
     * order, or the lookup error the loop meets first.
     */
    method GetCorners(tagDict: TagDict) returns (r: Result<seq<Point>>)
      ensures r == CornersOf(tagDict)
      ensures r.Ok? ==> |r.value| == 4
    {
      r := ExtractCorners(tagDict);
      CornersOfContents(tagDict);
    }

    /**
     * `__create_grid` as written: the 64 lattice cells are built, but the
     * label counters are only changed when `num == 7`, which never happens,
     * so every cell is stored under "h1" and only the last one remains.
     * No field other than `board_cells` changes.
     */
    method CreateGrid(corners: seq<Point>)
      requires |corners| >= 3
      modifies this`boardCells
      ensures |GridCells(Bounds(corners), 9, 9)| == 64
      ensures boardCells == map["h1" := GridCells(Bounds(corners), 9, 9)[63]]
      ensures |boardCells| == 1
    {
      var grid := Grid.CreateGrid(corners, 9, 9);
      BoardGridSize(Bounds(corners));
      boardCells := map[];
      var idx := 0;
      var num := 0;
      for n := 0 to |grid|
        invariant idx == 0 && num == 0
        invariant n == 0 ==> boardCells == map[]
        invariant n > 0 ==> boardCells == map["h1" := grid[n - 1]]
      {
        var cellLabel := [Letters[idx]] + DecimalString(num + 1);
        assert cellLabel == "h1";
        boardCells := boardCells[cellLabel := grid[n]];
        if num == 7 {
          num := 0;
          idx := idx + 1;
        }
      }
      assert "h1" in boardCells;
    }

    /**
     * The labelling the loop evidently intends (`num` counting up to 7 and
     * then moving to the next letter): all 64 cells kept, cell `k` under
     * file `"hgfedcba"[k / 8]` and rank `k % 8 + 1`.
     */
    method CreateGridIntended(corners: seq<Point>)
      requires |corners| >= 3
      modifies this`boardCells
      ensures |GridCells(Bounds(corners), 9, 9)| == 64
      ensures boardCells.Keys == Labels(64)
      ensures forall k :: 0 <= k < 64 ==> boardCells[SquareName(k)] == GridCells(Bounds(corners), 9, 9)[k]
      ensures |boardCells| == 64
    {
      var grid := Grid.CreateGrid(corners, 9, 9);
      BoardGridSize(Bounds(corners));
      boardCells := map[];
      var idx := 0;
      var num := 0;
      for n := 0 to |grid|
        invariant n == 8 * idx + num && num < 8
        invariant boardCells == Labelled(grid, n)
      {
        var cellLabel := [Letters[idx]] + DecimalString(num + 1);
        CounterLabel(n, idx, num);
        boardCells := boardCells[cellLabel := grid[n]];
        assert boardCells == Labelled(grid, n + 1);
        if num == 7 {
          num := 0;
          idx := idx + 1;
        } else {
          num := num + 1;
        }
      }
      LabelledContents(grid, 64);
      LabelsUpTo(64);
    }

    /**
     * `locate_board`: the tag count, an int, is compared with a string with
     * `!=`, which always holds, so it returns early without ever reaching
     * `__get_corners`; no field changes.
     */
    method LocateBoard(detections: seq<Tag>) returns (r: Located)
      ensures r == ReturnedEarly
    {
      var tagDict := FindTags(detections);
      if !PyEquals(PyInt(|tagDict|), PyStr("expected num tags")) {
        return ReturnedEarly;
      }
      var corners := GetCorners(tagDict);
      r := CornersDiscarded(corners);
    }
  }

  /**
   * The label counters `idx` and `num` of cell `n = 8 * idx + num` name its
   * square.
   */
  lemma CounterLabel(n: nat, idx: nat, num: nat)
    requires n == 8 * idx + num && num < 8 && n < 64
    ensures [Letters[idx]] + DecimalString(num + 1) == SquareName(n)
  {
    assert n / 8 == idx && n % 8 == num;
  }

  /** The intended labels of the first `n` cells. */
  function Labels(n: nat): set<string>
    requires n <= 64
  {
    set k | 0 <= k < n :: SquareName(k)
  }

  /** One more cell adds its own label. */
  lemma LabelsStep(n: nat)
    requires 0 < n <= 64
    ensures Labels(n) == Labels(n - 1) + {SquareName(n - 1)}
  {
    forall x | x in Labels(n)
      ensures x in Labels(n - 1) + {SquareName(n - 1)}
    {
      var k :| 0 <= k < n && SquareName(k) == x;
      if k < n - 1 {
        assert x in Labels(n - 1);
      }
    }
    forall x | x in Labels(n - 1)
      ensures x in Labels(n)
    {
      var k :| 0 <= k < n - 1 && SquareName(k) == x;
      assert SquareName(k) in Labels(n);
    }
    assert SquareName(n - 1) in Labels(n);
  }

  /** `board_cells` after the intended labelling of the first `n` cells of `grid`. */
  function Labelled(grid: seq<Quad>, n: nat): map<string, Quad>
    requires n <= 64 && n <= |grid|
  {
    if n == 0 then map[] else Labelled(grid, n - 1)[SquareName(n - 1) := grid[n - 1]]
  }

  /**
   * After the first `n` cells, each of their labels holds its own cell and
   * there are no other labels: no cell overwrites another.
   */
  lemma {:induction false} LabelledContents(grid: seq<Quad>, n: nat)
    requires n <= 64 && n <= |grid|
    ensures Labelled(grid, n).Keys == Labels(n)
    ensures forall k :: 0 <= k < n ==> Labelled(grid, n)[SquareName(k)] == grid[k]
  {
    if n > 0 {
      LabelledContents(grid, n - 1);
      LabelsStep(n);
      assert Labelled(grid, n).Keys == Labelled(grid, n - 1).Keys + {SquareName(n - 1)};
      forall k | 0 <= k < n - 1
        ensures Labelled(grid, n)[SquareName(k)] == grid[k]
      {
        if SquareName(k) == SquareName(n - 1) {
          SquareNameInjective(k, n - 1);
        }
      }
    }
  }

  /** The intended labels of the first `n` cells are `n` distinct strings. */
  lemma {:induction false} LabelsUpTo(n: nat)
    requires n <= 64
    ensures |Labels(n)| == n
  {
    if n > 0 {
      LabelsUpTo(n - 1);
      LabelsStep(n);
      LabelIsNew(n - 1);
    }
  }

  /** Cell `n`'s label is none of the labels before it. */
  lemma LabelIsNew(n: nat)
    requires n < 64
    ensures SquareName(n) !in Labels(n)
  {
    if SquareName(n) in Labels(n) {
      var k :| 0 <= k < n && SquareName(k) == SquareName(n);
      SquareNameInjective(k, n);
    }
  }
}
