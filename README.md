# Robot chess: board vision and arm scripts in Dafny

This project models the two halves of a chess-playing robot arm.

**Board vision.** AprilTags mark the four corners of the board. The tags seen
in a camera frame give the board's corner points. A 9 by 9 `np.linspace`
lattice over those points' bounding box cuts the board into 64 cells. When
the operator presses `u`, every cell is scored by summing an SSIM difference
map over the cell's pixels, and the two lowest-scoring cells are singled out
as the squares a piece moved between. This half covers `cv/config.py`,
`cv/find_move.py` and the `BoardView` class of `widowx_envs/cv.py`.

**Arm scripts.** A WidowX arm is driven through a client whose `move` and
`move_gripper` calls the model records as a command log. The scripts are:
- the square-to-pose table and the move loop of `bot.py`;
- the calibration tour of `squares.py`;
- the `pick_and_place` routine of `pick_and_place.py`.

Modules, one per concern:

| module | file | models |
|---|---|---|
| `Py` | py.dfy | Python's optional values, the exceptions raised, negative indexing, `str(n)` |
| `Config` | config.dfy | the `Corner` enum and the `BoardCorners` dictionary |
| `Geometry` | geometry.dfy | points, four-point cells, shapely `bounds`, `np.linspace`, `int(x)` |
| `Grid` | grid.dfy | `create_grid`, `partition` and the pixel tiling of the 9 by 9 grid |
| `Tags` | tags.dfy | `tag_dict`, the four-tag gate, corner extraction |
| `Scoring` | scoring.dfy | per-cell difference sums, `cell_diffs`, the stable sort, the two lowest cells |
| `FindMove` | find_move.dfy | the `while running` frame loop (class `MoveFinder`) |
| `BoardView` | board_view.dfy | the `BoardView` class of cv.py |
| `Arm` | arm.dfy | the client as a command log (class `Client`) |
| `PickPlace` | pick_and_place.dfy | `pick_and_place` with `gripper_width`, and its `main` |
| `Bot` | bot.dfy | the `poses` table, bot.py's `pick_and_place` (as written and corrected), and `main`'s input loop |
| `Squares` | squares.dfy | squares.py's `main`: the tour and the `board` list |

Numbers are exact reals, and integers are unbounded. Python's semantics are
written out where they matter:
- `int(x)` on a float truncates toward zero.
- A negative index counts from the end.
- `sorted` is stable.
- A dictionary keeps its keys in first-insertion order.
- `str.split(" ")` keeps empty fields.
- `int(s)` accepts an optional sign followed by digits.
- Every uncaught exception ends its script as an `Error` value.

The camera, the tag detector, SSIM and shapely's `intersects` are inputs to
the model: a frame's detections, a function from two frames to a difference
map, and a predicate on cells. `input()` is modelled as the list of lines the
operator types.

## Model

| member | source | states |
|---|---|---|
| Py.PyIndex | cv/find_move.py:122 | `xs[i]` is defined exactly for `-n <= i < n`, reading position `i` or `i + n` |
| Py.DecimalString | bridge_data_robot-main/widowx_envs/widowx_envs/cv.py:90 | `str(n)` is a non-empty string of decimal digits, one digit for `n < 10` |
| Config.CornerOf | cv/config.py:5-9 | `Corner(id)` succeeds exactly for ids 96..99, giving the member with that value |
| Config.BoardCorners | cv/config.py:13-18 | the dictionary maps each listed name to its listed tag-corner index |
| Config.CornerOfTagId | cv/config.py:5-9 | `Corner(id)` and `.value` are inverse in both directions |
| Config.TagIdInjective | cv/config.py:5-9 | different members have different ids and different names |
| Config.BoardCornersKeys | cv/config.py:13-18 | the dictionary's keys are exactly the four enum names |
| Config.BoardCornerIndicesPermutation | cv/config.py:13-18 | the tag-corner indices are pairwise distinct and are exactly {0, 1, 2, 3} |
| Config.BoardCornersIterationOrder | cv/config.py:13-18 | iteration visits the four names once each, in enum declaration order |
| Geometry.Bounds | cv/find_move.py:68 | `bounds` is the smallest box holding every vertex: each side is touched by a vertex |
| Geometry.BoundsOfRectangle | cv/find_move.py:76-79 | an axis-aligned cell's bounds are its two x values and two y values |
| Geometry.Trunc | cv/find_move.py:120-121 | `int(x)` truncates toward zero |
| Geometry.TruncMonotone | cv/find_move.py:120-121 | truncation preserves order |
| Geometry.StepTimesIntervals | cv/find_move.py:70-71 | `n - 1` steps span exactly `hi - lo` |
| Geometry.LinspaceEnds | cv/find_move.py:70-71 | the first value is `lo` and the last is `hi` |
| Geometry.LinspaceEvenlySpaced | cv/find_move.py:70-71 | neighbouring values differ by `(hi - lo) / (n - 1)` |
| Geometry.LinspaceMonotone | cv/find_move.py:70-71 | with `lo <= hi` the values never decrease |
| Grid.Column | cv/find_move.py:75-80 | the inner loop emits one cell per y interval |
| Grid.CreateGrid | cv/find_move.py:67-81 | the nested loop's list is the lattice of cells over the polygon's bounds, x outer and y inner |
| Grid.Partition | cv/find_move.py:83-87 | `partition` is `filter(intersects, create_grid(...))` |
| Grid.ShiftMembers | cv/find_move.py:85-86 | `x + 1` is listed after the shift exactly when `x` was listed before; 0 never is |
| Grid.FilterLength | cv/find_move.py:85-86 | `filter` returns one element per kept position |
| Grid.KeptAt | cv/find_move.py:85-86 | putting the kept first element before the filtered rest keeps the position correspondence |
| Grid.FilterAtStep | cv/find_move.py:85-86 | the position correspondence for the rest extends to the whole list |
| Grid.FilterAt | cv/find_move.py:85-86 | result element `i` of `filter` is the input element at the `i`-th kept position |
| Grid.FilterPositionsIncrease | cv/find_move.py:85-86 | `filter` keeps the input order |
| Grid.FilterPositionsExact | cv/find_move.py:85-86 | a cell is kept exactly when the predicate holds of it |
| Grid.LatticeLength | cv/find_move.py:74-80 | `nx - 1` rounds of `ny - 1` cells each |
| Grid.LatticeIndex | cv/find_move.py:74-80 | cell `(ix, iy)` is at list position `ix * (ny - 1) + iy` |
| Grid.BoardGridSize | cv/find_move.py:89 | the 9 by 9 lattice yields 64 cells |
| Grid.BoardGridLayout | cv/find_move.py:67-81 | cell `k` is lattice cell `(k / 8, k % 8)`, with those lattice values as its bounds |
| Grid.TruncLatticeNonDecreasing | cv/find_move.py:117-121 | the truncated lattice values never decrease |
| Grid.IntervalContaining | cv/find_move.py:117-121 | a value in the overall range lies in some half-open interval between neighbours |
| Grid.BoardGridCovers | cv/find_move.py:117-121 | the pixel ranges of the 64 lattice cells, before `partition` filters them, cover every pixel of the board's bounding box |
| Grid.IntervalUnique | cv/find_move.py:117-121 | a value lies in at most one such interval |
| Grid.BoardCellPixels | cv/find_move.py:117-121 | a cell's pixels in terms of the truncated lattice values |
| Grid.BoardGridInside | cv/find_move.py:117-121 | every cell's pixels lie in the board's bounding box |
| Grid.BoardGridDisjoint | cv/find_move.py:117-121 | no pixel is summed by two cells |
| Tags.TagDictOf | cv/find_move.py:45-50 | the loop raises only ValueError, and otherwise every key is a `BoardCorners` name |
| Tags.TagName | cv/find_move.py:50 | a tag has a name exactly when its id is a `Corner`, and the name is a `BoardCorners` key |
| Tags.TagDictOfSucceeds | cv/find_move.py:45-50 | the loop completes exactly when every id is known, and otherwise raises ValueError |
| Tags.TagDictOfKeys | cv/find_move.py:45-50 | the keys are exactly the names of the detected tags |
| Tags.TagDictOfLastWins | cv/find_move.py:45-50 | a name holds the corners of the last tag with that id |
| Tags.TagDictOfValues | cv/find_move.py:45-50 | every value is some detected tag's corner list |
| Tags.TagDictOfErrPersists | cv/find_move.py:45-50 | once the loop has raised, later tags change nothing |
| Tags.BuildTagDict | cv/find_move.py:45-50 | the loop computes `TagDictOf` |
| Tags.FourTagsGate | cv/find_move.py:58 | `len(tag_dict) == 4` exactly when all four corner names are present |
| Tags.CornersUpToContents | cv/find_move.py:59-62 | each round appends that name's tag corner at its index, or the KeyError or IndexError it meets first |
| Tags.CornersOfContents | cv/find_move.py:59-62 | four points in dictionary order; KeyError when a name is missing, IndexError when a tag has too few corners |
| Tags.ExtractCorners | cv/find_move.py:59-62 | the loop computes `CornersOf` |
| Tags.CornersErrPersists | cv/find_move.py:59-62 | a failed round fixes the loop's result |
| Scoring.RectSum | cv/find_move.py:117-121 | an empty pixel range in either direction sums to 0 |
| Scoring.CellScore | cv/find_move.py:117-122 | a cell whose truncated x or y range is empty scores 0 |
| Scoring.ColSumMonotone | cv/find_move.py:120-121 | a column sum never exceeds that of a map that is pixelwise at least as large |
| Scoring.RectSumMonotone | cv/find_move.py:117-121 | the same for a rectangle |
| Scoring.CellScoreMonotone | cv/find_move.py:117-122 | a cell scores no more on a map that is pixelwise no larger over its pixels: the least similar cells score lowest |
| Scoring.CellDiff | cv/find_move.py:117-122 | the nested pixel loop gives the cell's sum when every pixel is readable, and IndexError otherwise |
| Scoring.InsertionKeys | cv/find_move.py:107-125 | the keys are the distinct cells, each once, and no more than were inserted |
| Scoring.InsertionKeysStep | cv/find_move.py:125 | one insertion adds the cell as a new key only when it is new |
| Scoring.InsertionKeysOfDistinct | cv/find_move.py:125 | distinct cells are all kept, in order |
| Scoring.ScoreMap | cv/find_move.py:109-125 | the dictionary's keys are exactly the grid's cells |
| Scoring.ScoreMapStep | cv/find_move.py:125 | storing the next cell's score extends the dictionary of the cells before it |
| Scoring.ScoreMapValues | cv/find_move.py:109-125 | every stored score is its cell's `CellScore`, whichever repetition came last |
| Scoring.ScoredCells | cv/find_move.py:109-125 | the keys and the dictionary both hold exactly the grid's cells |
| Scoring.ScoreCells | cv/find_move.py:109-125 | the loop completes exactly when every cell is readable, giving `ScoredCells`; otherwise IndexError |
| Scoring.Insert | cv/find_move.py:130 | insertion adds one position and loses none |
| Scoring.SortFrom | cv/find_move.py:130 | the sort lists only valid positions |
| Scoring.InsertOrdered | cv/find_move.py:130 | inserting a smaller position keeps the list stably ordered |
| Scoring.SortFromCorrect | cv/find_move.py:130 | the sort is a permutation, ordered by score and then by insertion order |
| Scoring.Range | cv/find_move.py:130 | the positions `lo..hi` |
| Scoring.RangeMembers | cv/find_move.py:130 | exactly the positions from `lo` to below `hi` |
| Scoring.SortedPositionsCorrect | cv/find_move.py:130 | `sorted_cells` lists every cell exactly once, in stable ascending score order |
| Scoring.SortedPositionsMembers | cv/find_move.py:130 | the sort lists each position below the cell count, and no other |
| Scoring.OrderedDistinct | cv/find_move.py:130 | a stably ordered list has no repeated position |
| Scoring.TopTwo | cv/find_move.py:133-134 | `sorted_cells[0]` and `sorted_cells[1]` exist exactly when there are two cells, and IndexError otherwise |
| Scoring.TopTwoAreLowest | cv/find_move.py:130-134 | the two cells differ; no other cell scores less than either; ties go to the earlier cell |
| Scoring.MovedCells | cv/find_move.py:130-134 | two `cell_diffs` keys exactly when there are at least two, and IndexError otherwise |
| Scoring.MovedCellsLowest | cv/find_move.py:130-134 | the highlighted cells are the two lowest-scoring distinct cells |
| FindMove.NextGrid | cv/find_move.py:45-89 | a bound grid stays bound; the tag handling raises only ValueError or IndexError |
| FindMove.NextGridReplaces | cv/find_move.py:45-89 | ValueError exactly on an unknown id; with all four tags seen the grid becomes `BoardGrid` of their corners, and otherwise it is kept |
| FindMove.GridAfterOkBefore | cv/find_move.py:23-89 | when the tag handling of the first `n` frames raised nowhere, neither did that of any shorter prefix |
| FindMove.Comparison | cv/find_move.py:102-134 | any comparison made is against the given saved state |
| FindMove.ComparisonMeets | cv/find_move.py:102-134 | NameError before any grid; IndexError when a cell reads outside the map or fewer than two cells were scored; otherwise every cell's score and the two lowest cells |
| FindMove.CompareStates | cv/find_move.py:102-134 | the branch computes `Comparison` |
| FindMove.Rounds | cv/find_move.py:23-151 | one outcome per round |
| FindMove.RoundsIndex | cv/find_move.py:23-151 | round `k` raises the tag handling's error, or compares frame `k` with the first frame over the grid of frames `0..k` on `u`, or shows the frame |
| FindMove.MoveFinder.constructor | cv/find_move.py:19-21 | running, with no saved state and no grid |
| FindMove.MoveFinder.UpdateGrid | cv/find_move.py:45-89 | the grid after a frame's tag handling, or the error it raises with the grid unchanged |
| FindMove.MoveFinder.Step | cv/find_move.py:23-151 | one loop round: the state is saved on the first frame only; the grid is updated; the frame is shown or compared on `u`; the loop stops on `q` |
| FindMove.MoveFinder.Run | cv/find_move.py:19-151 | the loop stops at `q` or an exception; the outcomes are `Rounds` of the frames read; every comparison is against the first frame; the final grid is the one the last round's tag handling left |
| BoardView.PyEquals | bridge_data_robot-main/widowx_envs/widowx_envs/cv.py:101 | an int never equals a string |
| BoardView.SquareName | bridge_data_robot-main/widowx_envs/widowx_envs/cv.py:84-90 | label `k` is file letter `"hgfedcba"[k / 8]` and rank `k % 8 + 1` |
| BoardView.SquareNameInjective | bridge_data_robot-main/widowx_envs/widowx_envs/cv.py:84-90 | different cells get different labels |
| BoardView.LabelsUpTo | bridge_data_robot-main/widowx_envs/widowx_envs/cv.py:84-95 | the first `n` labels are `n` distinct strings |
| BoardView.LabelsStep | bridge_data_robot-main/widowx_envs/widowx_envs/cv.py:84-95 | labelling one more cell adds exactly its own label |
| BoardView.LabelIsNew | bridge_data_robot-main/widowx_envs/widowx_envs/cv.py:84-95 | a cell's label is none of the earlier cells' labels |
| BoardView.LabelledContents | bridge_data_robot-main/widowx_envs/widowx_envs/cv.py:84-95 | after `n` cells each label holds its own cell and there are no other labels |
| BoardView.BoardView.FindTags | bridge_data_robot-main/widowx_envs/widowx_envs/cv.py:37-47 | all tags go under one key, so at most one entry remains: the last tag's corners |
| BoardView.BoardView.GetCorners | bridge_data_robot-main/widowx_envs/widowx_envs/cv.py:49-55 | the four corner points in `BoardCorners` order, or the lookup error |
| BoardView.BoardView.CreateGrid | bridge_data_robot-main/widowx_envs/widowx_envs/cv.py:57-95 | as written: only the last of 64 cells remains, under "h1" |
| BoardView.CounterLabel | bridge_data_robot-main/widowx_envs/widowx_envs/cv.py:84-90 | the counters `idx` and `num` of cell `8 * idx + num` spell its label |
| BoardView.BoardView.CreateGridIntended | bridge_data_robot-main/widowx_envs/widowx_envs/cv.py:57-95 | corrected: 64 distinct labels, each holding its own cell |
| BoardView.BoardView.LocateBoard | bridge_data_robot-main/widowx_envs/widowx_envs/cv.py:98-105 | always returns early, before the corners are looked up |
| Arm.Client.constructor | bridge_data_robot-main/widowx_envs/widowx_envs/bot.py:74-75 | a fresh client has sent nothing |
| Arm.Client.Move | bridge_data_robot-main/widowx_envs/widowx_envs/bot.py:84 | `move` appends one pose command |
| Arm.Client.MoveGripper | bridge_data_robot-main/widowx_envs/widowx_envs/bot.py:34 | `move_gripper` appends one gripper command |
| PickPlace.PickAndPlaceLog | bridge_data_robot-main/widowx_envs/widowx_envs/pick_and_place.py:9-44 | 7 moves and 3 gripper commands in fixed order; the gripper opens to the given width, then home; it approaches the start square at clearance height and closes after the descent there; the traverse is at clearance height; the piece is lowered to `height` on the destination, then the release restores the width; the arm ends above the destination; orientation is (0, 1.57, 0) |
| PickPlace.PickAndPlace | bridge_data_robot-main/widowx_envs/widowx_envs/pick_and_place.py:9-44 | the routine sends exactly `PickAndPlaceLog` |
| PickPlace.Script | bridge_data_robot-main/widowx_envs/widowx_envs/pick_and_place.py:50-61 | `main` sends one pick and place from (0.17, -0.1) to (0.17, -0.02) at width 0.7 |
| Bot.PosesTable | bridge_data_robot-main/widowx_envs/widowx_envs/bot.py:59-66 | 65 entries; a1 is both entry 0 and entry 1; every square lies from a1 towards smaller x and y |
| Bot.BuildPoses | bridge_data_robot-main/widowx_envs/widowx_envs/bot.py:59-66 | the module-level loop builds the 65-entry table: a1, then the squares file by file |
| Bot.PosesTableShape | bridge_data_robot-main/widowx_envs/widowx_envs/bot.py:59-66 | 65 entries; entries 0 and 1 are both a1; entry `1 + 8 * file + rank` is `(0.45 - 0.0434 * file, 0.15 - 0.0425 * rank)` |
| Bot.PosesWithinFile | bridge_data_robot-main/widowx_envs/widowx_envs/bot.py:62-66 | along a file, x stays fixed and y steps down by 0.0425 |
| Bot.PickAndPlaceLog | bridge_data_robot-main/widowx_envs/widowx_envs/bot.py:12-45 | as written: 6 moves and 2 gripper commands; it starts at clearance height above the start square; the close follows the descent to `height`; the traverse is at clearance height; the release follows a descent to `height` and the arm lifts back to clearance height; every later move uses `xy_final[0]` and `xy_initial[1]` |
| Bot.PickAndPlaceIntendedLog | bridge_data_robot-main/widowx_envs/widowx_envs/bot.py:12-45 | corrected: the close follows the descent at the start square; the traverse is at clearance height; every move after the lift is above `xy_final`; the arm ends above the destination; all other commands are as written |
| Bot.PickAndPlaceKeepsRank | bridge_data_robot-main/widowx_envs/widowx_envs/bot.py:26 | for move `1 2` (a1 to a2), the routine as written sets the piece back down on a1 |
| Bot.PickAndPlace | bridge_data_robot-main/widowx_envs/widowx_envs/bot.py:12-45 | the routine as written sends exactly `PickAndPlaceLog` |
| Bot.PickAndPlaceIntended | bridge_data_robot-main/widowx_envs/widowx_envs/bot.py:12-45 | the corrected routine sends exactly `PickAndPlaceIntendedLog` |
| Bot.Split | bridge_data_robot-main/widowx_envs/widowx_envs/bot.py:91 | at least one field, none containing the separator |
| Bot.SplitJoin | bridge_data_robot-main/widowx_envs/widowx_envs/bot.py:91 | joining the fields gives the line back |
| Bot.SplitCount | bridge_data_robot-main/widowx_envs/widowx_envs/bot.py:91 | one more field than separators |
| Bot.ParseInt | bridge_data_robot-main/widowx_envs/widowx_envs/bot.py:95-96 | a string `int` accepts is non-empty and has no space |
| Bot.DigitsOfDecimal | bridge_data_robot-main/widowx_envs/widowx_envs/bot.py:95-96 | reading the digits of `str(n)` gives `n` |
| Bot.ParseIntDigits | bridge_data_robot-main/widowx_envs/widowx_envs/bot.py:95-96 | a string of decimal digits is read as its value |
| Bot.ParseIntNegated | bridge_data_robot-main/widowx_envs/widowx_envs/bot.py:95-96 | a minus sign followed by digits is read as the negated value |
| Bot.NegatedDecimal | bridge_data_robot-main/widowx_envs/widowx_envs/bot.py:95-96 | a minus sign followed by `str(n)` is read as `-n` |
| Bot.ParseIntNegative | bridge_data_robot-main/widowx_envs/widowx_envs/bot.py:95-96 | `int(str(-n)) == -n` for positive `n` |
| Bot.ParseIntNatural | bridge_data_robot-main/widowx_envs/widowx_envs/bot.py:95-96 | `int(str(n)) == n` for natural `n` |
| Bot.ParseIntString | bridge_data_robot-main/widowx_envs/widowx_envs/bot.py:95-96 | `int(str(i)) == i` for every integer |
| Bot.PlayLine | bridge_data_robot-main/widowx_envs/widowx_envs/bot.py:82-104 | a round starts with the rest move; it sends ten commands exactly when it plays a move, and at most two otherwise; it raises only ValueError or IndexError |
| Bot.PlayLineSkips | bridge_data_robot-main/widowx_envs/widowx_envs/bot.py:82-93 | a line is skipped, after the rest move alone, exactly when it does not hold exactly one space |
| Bot.PlayLineRejects | bridge_data_robot-main/widowx_envs/widowx_envs/bot.py:91-96 | two fields not both integers raise ValueError exactly then, after the rest move alone |
| Bot.PlayLinePair | bridge_data_robot-main/widowx_envs/widowx_envs/bot.py:82-104 | `i j` is played exactly when both lie in `-n..n-1` for `n` poses, with the home move and then the pick and place between `poses[i]` and `poses[j]`; otherwise IndexError after the rest and home moves |
| Bot.SplitOfPair | bridge_data_robot-main/widowx_envs/widowx_envs/bot.py:91-96 | `a + " " + b` splits into `[a, b]` |
| Bot.SplitNoSeparator | bridge_data_robot-main/widowx_envs/widowx_envs/bot.py:91 | a field without a space splits into itself |
| Bot.PlayTurn | bridge_data_robot-main/widowx_envs/widowx_envs/bot.py:82-104 | one round ends and sends as `PlayLine` says |
| Bot.Session | bridge_data_robot-main/widowx_envs/widowx_envs/bot.py:79-104 | the session ends with EOFError, ValueError or IndexError; it starts with the rest move, and ends there when the input runs out |
| Bot.SessionEndsAtEOF | bridge_data_robot-main/widowx_envs/widowx_envs/bot.py:79-104 | EOFError exactly when no line raised |
| Bot.SessionEndsAtFirstError | bridge_data_robot-main/widowx_envs/widowx_envs/bot.py:79-104 | otherwise the session's error is that of the first line that raised |
| Bot.SessionStep | bridge_data_robot-main/widowx_envs/widowx_envs/bot.py:82-104 | the session from line `i` is that line's round, then the rest unless the round raised |
| Bot.PlayRound | bridge_data_robot-main/widowx_envs/widowx_envs/bot.py:82-104 | one round either ends the session with its error or leaves the rest of the session to run |
| Bot.Play | bridge_data_robot-main/widowx_envs/widowx_envs/bot.py:79-104 | `main`'s loop ends with the session's error and sends the session's commands |
| Squares.TourLog | bridge_data_robot-main/widowx_envs/widowx_envs/squares.py:69-95 | 74 moves: start, `q1`, then only moves 9 cm up, never beyond a1 in x or y, and no gripper command |
| Squares.Tour | bridge_data_robot-main/widowx_envs/widowx_envs/squares.py:69-95 | the tour sends `TourLog`; `board` has 64 entries, `board[k]` equal to bot.py's `poses[k + 1]` |
| Squares.VisitFile | bridge_data_robot-main/widowx_envs/widowx_envs/squares.py:81-95 | one file's round sends the approach over its rank-0 square and one move per rank, and records the file's eight squares, rank 0 first |
| Squares.TourFile | bridge_data_robot-main/widowx_envs/widowx_envs/squares.py:80-95 | each file's round extends the tour's commands by its nine moves and the recorded board by its eight squares |
| Squares.TourStep | bridge_data_robot-main/widowx_envs/widowx_envs/squares.py:80-95 | each loop step commands the move above its square |
| Squares.TourMoves | bridge_data_robot-main/widowx_envs/widowx_envs/squares.py:69-89 | 74 moves: start, `q1`, then 72 at z 0.09 with orientation (0, 1.57, pi/4); each file's approach is above its rank-0 square |
| Squares.BoardFollowsMoves | bridge_data_robot-main/widowx_envs/widowx_envs/squares.py:88-95 | each `board` entry is the xy of the move commanded just before it |

## Left out

- Camera capture, the rotation and translation warps, and the greyscale conversion: the frame is an input.
- AprilTag detection: a frame's detections are an input, each given as an id and its corner points.
- SSIM (`structural_similarity`): the difference map is a function parameter `ssim`. The scalar score is unused in the source and is not modelled.
- shapely's prepared `intersects`: it is a predicate parameter on cells.
- Coverage of the filtered grid: `Grid.BoardGridCovers` is about the 64 lattice cells. `partition` keeps only the cells `intersects` accepts, so for a board that is not an axis-aligned rectangle (a diamond, say) the pixels of the dropped corner cells are summed by no cell. No coverage property is stated for the filtered grid.
- Polygons with fewer than three vertices: `Grid.CreateGrid` and `Grid.Partition` require three points, as shapely's `Polygon` does.
- Floating-point rounding: all arithmetic on coordinates, `np.linspace` and sums is exact. `np.pi / 4` is the constant `0.7853981633974483`.
- Drawing: `cv2.circle`, `cv2.polylines`, `cv2.imshow` and `destroyAllWindows` are left out. This includes the `polylines` call that draws each cell's outline into `diff` before the sum (find_move.py line 115). Drawing changes pixels of the difference map, so the modelled scores are those of the undrawn map.
- `cv2.waitKey`: each frame's two polls are the booleans `keyU` and `keyQ`. The camera's frame stream is the finite input list, and `FindMove.MoveFinder.Run` stops when that list runs out.
- `print` and the `print_yellow` output, `time.sleep`, `argparse`, client `init` and `stop`, and the network transport of `WidowXClient`.
- `np.savetxt` in squares.py, and the `breakpoint()` in its `except` block.
- `BoardView.__init__`, `__rotate_frame` and `__translate_frame`. `__init__` reads `self.frame` before it is assigned, and cv.py uses `config` without importing it. The methods are modelled on their own, and `BoardView.BoardView.GetCorners` treats `config.BoardCorners` as bound. The NameError cv.py would raise is not modelled.
- `locate_board`'s `draw` parameter: it is unused.
- The `KeyboardInterrupt` handler of bot.py (`reset`, `stop`): the model has no asynchronous interrupts.
- `four_corners.py`, and squares.py's `step_8`, `show_video` and `print_help`: these are uncalled or UI-only.
- Bot.ParseInt: does not accept surrounding whitespace, `_` digit separators or non-ASCII digits, which Python's `int` also accepts. Fields never contain a space, because `Split` removes every space.
- Scoring.InsertionKeys: cells are equal as values, as shapely 2 geometries compare. Under identity hashing, equal cells would stay separate keys.
- Bot.Play and FindMove.MoveFinder.Run take the operator's input and the camera frames as finite lists; a stream that never ends is not modelled.

## Findings

| source | as written | input that shows it | evidently intended | confidence | as-written member | corrected member |
|---|---|---|---|---|---|---|
| bridge_data_robot-main/widowx_envs/widowx_envs/cv.py:93-95 | `num` is reset only when it equals 7 and never incremented, so every cell is labelled "h1" and `board_cells` keeps one cell | any four corner points: 64 cells go in, one entry comes out | `num` counts 0..7 within each file, so the cells are labelled h1..h8, g1..g8, ..., a1..a8 | high (not executed) | BoardView.BoardView.CreateGrid | BoardView.BoardView.CreateGridIntended |
| bridge_data_robot-main/widowx_envs/widowx_envs/bot.py:26 | `y_final = xy_initial[1]`: the piece is carried along x only and set down on its starting y | the move `1 2` (a1 to a2): the release happens above a1 | `y_final = xy_final[1]`, as in pick_and_place.py line 23 | high (not executed) | Bot.PickAndPlaceKeepsRank | Bot.PickAndPlaceIntendedLog |

`Bot.PickAndPlace`, `Bot.PlayLine`, `Bot.PlayTurn` and `Bot.Play` play
moves with the routine as written (`Bot.PickAndPlaceLog`), as bot.py's
`main` does. `Bot.PickAndPlaceKeepsRank` exhibits the difference, and
`Bot.PickAndPlaceIntended` sends the corrected commands
(`Bot.PickAndPlaceIntendedLog`).
`BoardView.BoardView.CreateGrid` keeps the labelling loop as written, and
`BoardView.BoardView.CreateGridIntended` is the labelling its counters
evidently aim at.
