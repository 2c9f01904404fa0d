/**
 * The frame loop of cv/find_move.py: each frame's tags are resolved to the
 * board's corners, a frame showing all four tags replaces the grid, and on
 * the 'u' key the cells are scored against the saved board state and the two
 * lowest-scoring cells are picked out as the squares a piece moved between.
 * The camera, the tag detector, SSIM and shapely's `intersects` are inputs.
 */
module FindMove {
  import opened Py
  import opened Geometry
  import opened Config
  import opened Tags
  import opened Grid
  import opened Scoring

  /** A greyscale frame. */
  type Frame = seq<seq<int>>

  /** What one round of the loop ends with. */
  datatype Outcome =
    | Shown                     // the annotated frame is shown, no comparison asked for
    | Compared(reference: Frame, diff: Image, cellDiffs: CellDiffs, moved: (Quad, Quad))
    | Raised(error: Error)      // an uncaught exception ends the script

  /** One frame of input: its tags, the board square's `intersects` test and the two key polls. */
  datatype FrameInput = FrameInput(frame: Frame, tags: seq<Tag>, intersects: Quad -> bool, keyU: bool, keyQ: bool)

  /** `partition(square, 9, 9)` for the polygon through `corners`. */
  function BoardGrid(corners: seq<Point>, intersects: Quad -> bool): seq<Quad>
    requires |corners| >= 3
  {
    Filter(intersects, GridCells(Bounds(corners), 9, 9))
  }

  /**
   * The value of `grid` after the tag handling of a frame: replaced when all
   * four tags are seen, kept from an earlier frame otherwise, or the error
   * the tag handling raises.
   */
  function NextGrid(tags: seq<Tag>, intersects: Quad -> bool, grid: Option<seq<Quad>>): (r: Result<Option<seq<Quad>>>)
    // once bound, `grid` stays bound: a frame either keeps it or rebuilds it
    ensures r.Ok? && grid.Some? ==> r.value.Some?
    // an unknown id raises ValueError; with all four names present the corner
    // extraction can only meet a tag with too few corners, an IndexError
    ensures r.Err? ==> r.error == ValueError || r.error == IndexError
  {
    match TagDictOf(tags)
    case Err(e) => Err(e)
    case Ok(d) =>
      if |d| != 4 then Ok(grid)
      else match CornersOf(d)
        case Err(e) =>
          CornersOfContents(d);
          FourTagsGate(d);
          Err(e)
        case Ok(corners) =>
          CornersOfContents(d);
          Ok(Some(BoardGrid(corners, intersects)))
  }

  /** The four corner names are all among the detected tags. */
  predicate AllCornersSeen(tags: seq<Tag>)
  {
    forall i :: 0 <= i < 4 ==> exists j :: 0 <= j < |tags| && TagName(tags[j]) == Some(BoardCornerItems[i].0)
  }

  /**
   * For detections with four corner points each (as the detector reports
   * them): the tag handling raises exactly when some id is not a board corner,
   * and then ValueError; otherwise the grid is rebuilt when all four corners
   * were seen and kept from the earlier frame when not.
   */
  lemma NextGridReplaces(tags: seq<Tag>, intersects: Quad -> bool, grid: Option<seq<Quad>>)
    requires forall i :: 0 <= i < |tags| ==> |tags[i].corners| == 4
    ensures NextGrid(tags, intersects, grid).Err? <==> exists i :: 0 <= i < |tags| && TagName(tags[i]).None?
    ensures NextGrid(tags, intersects, grid).Err? ==> NextGrid(tags, intersects, grid).error == ValueError
    ensures NextGrid(tags, intersects, grid).Ok? && !AllCornersSeen(tags) ==>
      NextGrid(tags, intersects, grid).value == grid
    ensures NextGrid(tags, intersects, grid).Ok? && AllCornersSeen(tags) ==>
      TagDictOf(tags).Ok? && CornersOf(TagDictOf(tags).value).Ok? && |CornersOf(TagDictOf(tags).value).value| == 4
    ensures NextGrid(tags, intersects, grid).Ok? && AllCornersSeen(tags) ==>
      NextGrid(tags, intersects, grid).value == Some(BoardGrid(CornersOf(TagDictOf(tags).value).value, intersects))
  {
    TagDictOfSucceeds(tags);
    if TagDictOf(tags).Ok? {
      var d := TagDictOf(tags).value;
      TagDictOfKeys(tags);
      TagDictOfValues(tags);
      forall k | k in d
        ensures k in BoardCorners()
      {
        var i :| 0 <= i < |tags| && TagName(tags[i]) == Some(k);
      }
      FourTagsGate(d);
      if |d| == 4 {
        CornersOfContents(d);
        forall i | 0 <= i < 4
          ensures CornerAvailable(d, i)
        {
          var k := BoardCornerItems[i].0;
          var j :| 0 <= j < |tags| && d[k] == tags[j].corners;
        }
        assert AllCornersSeen(tags);
      }
    }
  }

  /**
   * `grid` after the tag handling of the first `k` frames, starting from
   * `start`, or the error of the first frame whose tag handling raised.
   */
  function GridAfter(start: Option<seq<Quad>>, inputs: seq<FrameInput>, k: nat): Result<Option<seq<Quad>>>
    requires k <= |inputs|
  {
    if k == 0 then Ok(start)
    else match GridAfter(start, inputs, k - 1)
      case Err(e) => Err(e)
      case Ok(g) => NextGrid(inputs[k - 1].tags, inputs[k - 1].intersects, g)
  }

  /** One more frame applies its tag handling to the grid the earlier frames left. */
  lemma GridAfterStep(start: Option<seq<Quad>>, inputs: seq<FrameInput>, i: nat, g: Option<seq<Quad>>)
    requires i < |inputs| && GridAfter(start, inputs, i) == Ok(g)
    ensures GridAfter(start, inputs, i + 1) == NextGrid(inputs[i].tags, inputs[i].intersects, g)
  {
  }

  /** Once the tag handling has raised, it stays raised: a grid after `n` frames means no earlier frame raised. */
  lemma {:induction false} GridAfterOkBefore(start: Option<seq<Quad>>, inputs: seq<FrameInput>, n: nat)
    requires n <= |inputs| && GridAfter(start, inputs, n).Ok?
    ensures forall k :: 0 <= k <= n ==> GridAfter(start, inputs, k).Ok?
  {
    if n > 0 {
      GridAfterOkBefore(start, inputs, n - 1);
    }
  }

  /**
   * What the 'u' branch produces when comparing `newState` with `reference`
   * over `cells` (None when `grid` was never bound): NameError without a
   * grid; IndexError when some cell reaches outside the difference map or
   * fewer than two distinct cells were scored; otherwise every cell's score
   * and the two lowest-scoring cells.
   */
  ghost predicate ComparedAs(out: Outcome, reference: Frame, newState: Frame, cells: Option<seq<Quad>>,
                       ssim: (Frame, Frame) -> Image)
  {
    match cells
    case None => out == Raised(NameError)
    case Some(g) =>
      var diff := ssim(reference, newState);
      (out.Compared? <==>
        (forall c :: c in g ==> CellReadable(diff, c)) && |InsertionKeys(g)| >= 2) &&
      (!out.Compared? ==> out == Raised(IndexError)) &&
      (out.Compared? ==>
        out.reference == reference && out.diff == diff && IsImage(diff) &&
        out.cellDiffs.keys == InsertionKeys(g) &&
        (forall c :: c in out.cellDiffs.score <==> c in g) &&
        (forall c :: c in out.cellDiffs.score ==>
          CellReadable(diff, c) && out.cellDiffs.score[c] == CellScore(diff, c)) &&
        Complete(out.cellDiffs) && MovedCells(out.cellDiffs) == Ok(out.moved))
  }

  /**
   * The outcome of the 'u' branch comparing `newState` with `reference`
   * over `cells`: it is the one `ComparedAs` describes.
   */
  function Comparison(reference: Frame, newState: Frame, cells: Option<seq<Quad>>,
                      ssim: (Frame, Frame) -> Image): (out: Outcome)
    requires forall a: Frame, b: Frame :: IsImage(ssim(a, b))
    // the saved state is the reference of any comparison made
    ensures out.Compared? ==> out.reference == reference
  {
    match cells
    case None => Raised(NameError)
    case Some(g) =>
      var diff := ssim(reference, newState);
      if exists c :: c in g && !CellReadable(diff, c) then Raised(IndexError)
      else
        var cd := ScoredCells(diff, g);
        match MovedCells(cd)
        case Err(e) => Raised(e)
        case Ok(moved) => Compared(reference, diff, cd, moved)
  }

  /** The comparison is the one `ComparedAs` describes. */
  lemma ComparisonMeets(reference: Frame, newState: Frame, cells: Option<seq<Quad>>,
                        ssim: (Frame, Frame) -> Image)
    requires forall a: Frame, b: Frame :: IsImage(ssim(a, b))
    ensures ComparedAs(Comparison(reference, newState, cells, ssim), reference, newState, cells, ssim)
  {
    if cells.Some? {
      var g, diff := cells.value, ssim(reference, newState);
      var out := Comparison(reference, newState, cells, ssim);
      if forall c :: c in g ==> CellReadable(diff, c) {
        var cd := ScoredCells(diff, g);
        ScoreMapValues(diff, g);
        assert Complete(cd);
        if MovedCells(cd).Ok? {
          assert out == Compared(reference, diff, cd, MovedCells(cd).value);
        } else {
          assert out == Raised(IndexError);
        }
      } else {
        assert out == Raised(IndexError);
      }
    }
  }

  /**
   * The 'u' branch: the difference map of the saved and the new state, the
   * score of every cell of `grid` (none when the grid is empty) and the two
   * lowest-scoring cells.
   */
  method CompareStates(reference: Frame, newState: Frame, cells: Option<seq<Quad>>,
                       ssim: (Frame, Frame) -> Image) returns (out: Outcome)
    requires forall a: Frame, b: Frame :: IsImage(ssim(a, b))
    ensures out == Comparison(reference, newState, cells, ssim)
  {
    if cells.None? {
      return Raised(NameError);
    }
    var grid := cells.value;
    var diff := ssim(reference, newState);
    var cellDiffs := CellDiffs([], map[]);
    if |grid| > 0 {
      var scored := ScoreCells(diff, grid);
      if scored.Err? {
        assert exists c :: c in grid && !CellReadable(diff, c);
        return Raised(scored.error);
      }
      cellDiffs := scored.value;
    } else {
      assert InsertionKeys(grid) == [];
      assert cellDiffs == ScoredCells(diff, grid);
    }
    assert cellDiffs == ScoredCells(diff, grid);
    var moved := MovedCells(cellDiffs);
    if moved.Err? {
      return Raised(moved.error);
    }
    out := Compared(reference, diff, cellDiffs, moved.value);
  }

  /**
   * What round `k` of the loop yields when it is reached: the exception of
   * its tag handling, or else the comparison against the first frame over
   * the grid the first k + 1 frames leave when 'u' is pressed, and the shown
   * frame otherwise.
   */
  ghost function RoundOutcome(start: Option<seq<Quad>>, inputs: seq<FrameInput>, k: nat,
                              ssim: (Frame, Frame) -> Image): Outcome
    requires k < |inputs|
    requires forall a: Frame, b: Frame :: IsImage(ssim(a, b))
  {
    match GridAfter(start, inputs, k + 1)
    case Err(e) => Raised(e)
    case Ok(g) => if inputs[k].keyU then Comparison(inputs[0].frame, inputs[k].frame, g, ssim) else Shown
  }

  /** The outcomes of the first `n` rounds, one per round. */
  ghost function Rounds(start: Option<seq<Quad>>, inputs: seq<FrameInput>, n: nat,
                        ssim: (Frame, Frame) -> Image): (r: seq<Outcome>)
    requires n <= |inputs|
    requires forall a: Frame, b: Frame :: IsImage(ssim(a, b))
    ensures |r| == n
  {
    if n == 0 then [] else Rounds(start, inputs, n - 1, ssim) + [RoundOutcome(start, inputs, n - 1, ssim)]
  }

  /** Round `k` of the first `n` is the one `RoundOutcome` describes. */
  lemma {:induction false} RoundsIndex(start: Option<seq<Quad>>, inputs: seq<FrameInput>, n: nat,
                                       ssim: (Frame, Frame) -> Image)
    requires n <= |inputs|
    requires forall a: Frame, b: Frame :: IsImage(ssim(a, b))
    ensures forall k :: 0 <= k < n ==> Rounds(start, inputs, n, ssim)[k] == RoundOutcome(start, inputs, k, ssim)
  {
    if n > 0 {
      RoundsIndex(start, inputs, n - 1, ssim);
    }
  }

  class MoveFinder {
    /** The loop condition, cleared by the 'q' key. */
    var running: bool
    /** `last_state`: the board state the 'u' comparison is made against. */
    var lastState: Option<Frame>
    /** `grid`: None until a frame has shown all four tags (the name is unbound until then). */
    var grid: Option<seq<Quad>>

    /** The script's module-level state before the first frame. */
    constructor ()
      ensures running && lastState == None && grid == None
    {
      running := true;
      lastState := None;
      grid := None;
    }

    /**
     * The tag handling of one frame: build `tag_dict`, and when it has four
     * entries gather the corners and replace `grid` by `partition(square, 9, 9)`.
     */
    method UpdateGrid(tags: seq<Tag>, intersects: Quad -> bool) returns (err: Option<Error>)
      modifies this`grid
      ensures err.Some? <==> NextGrid(tags, intersects, old(grid)).Err?
      ensures err.Some? ==> err.value == NextGrid(tags, intersects, old(grid)).error && grid == old(grid)
      ensures err.None? ==> grid == NextGrid(tags, intersects, old(grid)).value
    {
      var tagDict := BuildTagDict(tags);
      if tagDict.Err? {
        return Some(tagDict.error);
      }
      if |tagDict.value| == 4 {
        var corners := ExtractCorners(tagDict.value);
        if corners.Err? {
          return Some(corners.error);
        }
        CornersOfContents(tagDict.value);
        var cells := Partition(corners.value, 9, 9, intersects);
        grid := Some(cells);
      }
      err := None;
    }

    /**
     * One round of `while running`. `greyFrame` is the warped greyscale
     * frame, `tags` what the detector finds in it, `intersects` the prepared
     * board square's test, `keyU` and `keyQ` whether the two `waitKey` polls
     * return 'u' and 'q', and `ssim` the difference map of two frames. The
     * saved state is set on the first frame only.
     */
    method Step(greyFrame: Frame, tags: seq<Tag>, intersects: Quad -> bool, keyU: bool, keyQ: bool,
                ssim: (Frame, Frame) -> Image) returns (out: Outcome)
      requires running
      requires forall a: Frame, b: Frame :: IsImage(ssim(a, b))
      modifies this
      ensures lastState == if old(lastState).None? then Some(greyFrame) else old(lastState)
      ensures NextGrid(tags, intersects, old(grid)).Err? ==>
        out == Raised(NextGrid(tags, intersects, old(grid)).error) && grid == old(grid)
      ensures NextGrid(tags, intersects, old(grid)).Ok? ==> grid == NextGrid(tags, intersects, old(grid)).value
      ensures NextGrid(tags, intersects, old(grid)).Ok? && !keyU ==> out == Shown
      ensures NextGrid(tags, intersects, old(grid)).Ok? && keyU ==>
        out == Comparison(lastState.value, greyFrame, grid, ssim)
      ensures running <==> out.Raised? || !keyQ
    {
      if lastState.None? {
        lastState := Some(greyFrame);
      }
      var err := UpdateGrid(tags, intersects);
      if err.Some? {
        return Raised(err.value);
      }
      out := Shown;
      if keyU {
        var newState := greyFrame;
        out := CompareStates(lastState.value, newState, grid, ssim);
      }
      // an exception in the comparison ends the round before the 'q' poll
      running := out.Raised? || !keyQ;
    }
  
    /**
     * `while running` over the frames the camera delivers (the model stops
     * when the given frames run out): it ends after 'q' or an exception.
     * `last_state` is only ever set on the first frame, so every comparison
     * is made against the first frame, however many moves came since.
     */
    method Run(inputs: seq<FrameInput>, ssim: (Frame, Frame) -> Image) returns (outcomes: seq<Outcome>)
      requires running && lastState.None?
      requires forall a: Frame, b: Frame :: IsImage(ssim(a, b))
      modifies this
      ensures |outcomes| <= |inputs|
      ensures |inputs| > 0 ==> |outcomes| > 0 && lastState == Some(inputs[0].frame)
      ensures forall k :: 0 <= k < |outcomes| && outcomes[k].Compared? ==> outcomes[k].reference == inputs[0].frame
      ensures forall k :: 0 <= k < |outcomes| - 1 ==> !outcomes[k].Raised? && !inputs[k].keyQ
      ensures |outcomes| < |inputs| ==> outcomes[|outcomes| - 1].Raised? || inputs[|outcomes| - 1].keyQ
      // round k works on the grid the earlier frames left, comparing against the first frame
      ensures forall k :: 0 <= k < |outcomes| ==> GridAfter(old(grid), inputs, k).Ok?
      ensures outcomes == Rounds(old(grid), inputs, |outcomes|, ssim)
      // the final grid is the one the last round left, unchanged when its tag handling raised
      ensures GridAfter(old(grid), inputs, |outcomes|).Ok? ==> grid == GridAfter(old(grid), inputs, |outcomes|).value
      ensures GridAfter(old(grid), inputs, |outcomes|).Err? ==>
        |outcomes| > 0 && GridAfter(old(grid), inputs, |outcomes| - 1).Ok? &&
        grid == GridAfter(old(grid), inputs, |outcomes| - 1).value
    {
      ghost var start := grid;
      outcomes := [];
      var i := 0;
      while i < |inputs| && running
        invariant 0 <= i <= |inputs| && |outcomes| == i
        invariant i == 0 ==> running && lastState.None?
        invariant i > 0 ==> lastState == Some(inputs[0].frame)
        invariant forall k :: 0 <= k < i && outcomes[k].Compared? ==> outcomes[k].reference == inputs[0].frame
        invariant forall k :: 0 <= k < i ==> !outcomes[k].Raised?
        invariant forall k :: 0 <= k < i - 1 ==> !inputs[k].keyQ
        invariant i > 0 ==> (running <==> !inputs[i - 1].keyQ)
        invariant GridAfter(start, inputs, i) == Ok(grid)
        invariant outcomes == Rounds(start, inputs, i, ssim)
      {
        var input := inputs[i];
        ghost var before := grid;
        GridAfterStep(start, inputs, i, before);
        var out := Step(input.frame, input.tags, input.intersects, input.keyU, input.keyQ, ssim);
        assert out == RoundOutcome(start, inputs, i, ssim);
        outcomes := outcomes + [out];
        i := i + 1;
        if out.Raised? {
          GridAfterOkBefore(start, inputs, i - 1);
          return;
        }
      }
      GridAfterOkBefore(start, inputs, i);
    }
  }
}
