/**
 * widowx_envs/squares.py: the calibration tour. The arm goes to a start
 * pose and to the a1 corner, then visits every square file by file (an
 * approach move to the file's first square, then its eight squares),
 * recording each square's xy in `board`. Writing `board` to a CSV file,
 * sleeps, terminal output and the uncalled `step_8` are not modelled.
 */
module Squares {
  import opened Arm
  import opened Bot

  /** The starting position the tour moves to first. */
  const Start: Pose := Pose(0.3, 0.0, 0.1, 0.0, 1.57, 0.0)

  /** `q1`: the a1 corner at height 0.1. */
  const Q1: Pose := Pose(0.45, 0.15, 0.1, 0.0, 1.57, 0.0)

  /** The pose over a square the tour moves to: height 0.09, yaw a quarter turn. */
  function Above(xy: (real, real)): Pose
  {
    Pose(xy.0, xy.1, 0.09, 0.0, 1.57, QuarterPi)
  }

  /**
   * The rank move `j` of the nested loop (counting from 0 after the two
   * initial moves): nine per file, the first the approach with `rank_step`
   * still 0.0, then ranks 0 to 7.
   */
  function TourMove(j: nat): Command
  {
    var file := j / 9;
    var rank := if j % 9 == 0 then 0 else j % 9 - 1;
    MoveTo(Above(PoseAt(file, rank)))
  }

  /** Every command `main` sends, in order. */
  function TourLog(): (r: seq<Command>)
    ensures |r| == 74
    ensures r[0] == MoveTo(Start) && r[1] == MoveTo(Q1)
    // after the start and the a1 corner, the arm only hovers 9 cm up, never
    // beyond a1 in x or y, and the gripper is never commanded
    ensures forall j :: 2 <= j < |r| ==>
      r[j].MoveTo? && r[j].pose.z == 0.09 && r[j].pose.x <= Q1.x && r[j].pose.y <= Q1.y
  {
    [MoveTo(Start), MoveTo(Q1)] + seq(72, j requires 0 <= j < 72 => TourMove(j))
  }

  /** The nine moves of one file: the approach over its rank-0 square, then its eight squares. */
  function FileMoves(file: nat): seq<Command>
  {
    seq(9, j requires 0 <= j < 9 => MoveTo(Above(PoseAt(file, if j == 0 then 0 else j - 1))))
  }

  /** The eight squares of one file, rank 0 first. */
  function FileSquares(file: nat): seq<(real, real)>
  {
    seq(8, rank requires 0 <= rank < 8 => PoseAt(file, rank))
  }

  /** `main` after the client is set up: the tour, returning the `board` it records. */
  method Tour(client: Client) returns (board: seq<(real, real)>)
    modifies client
    ensures client.log == old(client.log) + TourLog()
    // `board` holds the 64 squares, entry k being bot.py's `poses[k + 1]`
    ensures board == PosesTable()[1..]
  {
    client.Move(Pose(0.3, 0.0, 0.1, 0.0, 1.57, 0.0));
    var q1 := Pose(0.45, 0.15, 0.1, 0.0, 1.57, 0.0);
    client.Move(q1);
    board := [];
    var initialPos := q1;
    assert client.log == old(client.log) + TourLog()[..2];
    for file := 0 to 8
      invariant client.log == old(client.log) + TourLog()[..2 + 9 * file]
      invariant board == PosesTable()[1..1 + 8 * file]
    {
      var squares := VisitFile(client, file, initialPos);
      TourFile(file);
      board := board + squares;
    }
    assert TourLog()[..74] == TourLog();
  }

  /**
   * One round of the outer loop of `main`: the approach move over the
   * file's first square, then one move per rank, recording each square.
   */
  method VisitFile(client: Client, file: nat, initialPos: Pose) returns (squares: seq<(real, real)>)
    requires file < 8 && initialPos == Q1
    modifies client
    ensures client.log == old(client.log) + FileMoves(file)
    ensures squares == FileSquares(file)
  {
    squares := [];
    var rankStep := 0.0;
    var fileStep := (file as real) * 0.0434;
    assert (initialPos.x - fileStep, initialPos.y - rankStep) == PoseAt(file, 0);
    client.Move(Pose(initialPos.x - fileStep, initialPos.y - rankStep, 0.09, 0.0, 1.57, QuarterPi));
    assert FileMoves(file)[..1] == [MoveTo(Above(PoseAt(file, 0)))];
    for rank := 0 to 8
      invariant client.log == old(client.log) + FileMoves(file)[..1 + rank]
      invariant squares == FileSquares(file)[..rank]
    {
      rankStep := (rank as real) * 0.0425;
      assert (initialPos.x - fileStep, initialPos.y - rankStep) == PoseAt(file, rank);
      client.Move(Pose(initialPos.x - fileStep, initialPos.y - rankStep, 0.09, 0.0, 1.57, QuarterPi));
      assert FileMoves(file)[..2 + rank] == FileMoves(file)[..1 + rank] + [MoveTo(Above(PoseAt(file, rank)))];
      assert FileSquares(file)[..rank + 1] == FileSquares(file)[..rank] + [PoseAt(file, rank)];
      squares := squares + [(initialPos.x - fileStep, initialPos.y - rankStep)];
    }
    assert FileMoves(file)[..9] == FileMoves(file);
    assert FileSquares(file)[..8] == FileSquares(file);
  }

  /** File `file`'s moves and squares extend the tour's log and the pose table by one file. */
  lemma TourFile(file: nat)
    requires file < 8
    ensures |TourLog()| == 74 && |PosesTable()| == 65
    ensures TourLog()[..2 + 9 * (file + 1)] == TourLog()[..2 + 9 * file] + FileMoves(file)
    ensures PosesTable()[1..1 + 8 * (file + 1)] == PosesTable()[1..1 + 8 * file] + FileSquares(file)
  {
    forall j | 0 <= j < 9
      ensures TourLog()[2 + 9 * file + j] == FileMoves(file)[j]
    {
      assert (9 * file + j) / 9 == file && (9 * file + j) % 9 == j;
      assert TourLog()[2 + 9 * file + j] == TourMove(9 * file + j);
    }
    forall rank | 0 <= rank < 8
      ensures PosesTable()[1 + 8 * file + rank] == FileSquares(file)[rank]
    {
      assert (8 * file + rank) / 8 == file && (8 * file + rank) % 8 == rank;
    }
  }

  /**
   * The move after the first `2 + 9 * file + rank'` commands (`rank'` being
   * 0 for the approach and `rank + 1` for a rank move) is the one over
   * square (file, rank), and the square is entry `1 + 8 * file + rank` of
   * the pose table.
   */
  lemma TourStep(file: nat, rank: nat, approach: bool)
    requires file < 8 && rank < 8 && (approach ==> rank == 0)
    ensures |TourLog()| == 74
    ensures var i := 2 + 9 * file + (if approach then 0 else 1 + rank);
      TourLog()[..i + 1] == TourLog()[..i] + [MoveTo(Above(PoseAt(file, rank)))]
    ensures PosesTable()[1 + 8 * file + rank] == PoseAt(file, rank)
  {
    var j := 9 * file + (if approach then 0 else 1 + rank);
    assert j / 9 == file && j % 9 == (if approach then 0 else 1 + rank);
    assert TourLog()[2 + j] == TourMove(j);
    assert (8 * file + rank) / 8 == file && (8 * file + rank) % 8 == rank;
  }

  /**
   * The tour sends 74 commands, all moves: the start pose, `q1`, and 72
   * moves at height 0.09 with orientation (0, 1.57, pi/4), the approach
   * to each file over that file's rank-0 square.
   */
  lemma TourMoves()
    ensures |TourLog()| == 74 && TourLog()[0] == MoveTo(Start) && TourLog()[1] == MoveTo(Q1)
    ensures forall i :: 0 <= i < 74 ==> TourLog()[i].MoveTo?
    ensures forall i :: 2 <= i < 74 ==>
      TourLog()[i].pose.z == 0.09 && TourLog()[i].pose.roll == 0.0 &&
      TourLog()[i].pose.pitch == 1.57 && TourLog()[i].pose.yaw == QuarterPi
    ensures forall file :: 0 <= file < 8 ==> TourLog()[2 + 9 * file] == MoveTo(Above(PoseAt(file, 0)))
  {
    forall file | 0 <= file < 8
      ensures TourLog()[2 + 9 * file] == MoveTo(Above(PoseAt(file, 0)))
    {
      assert (9 * file) / 9 == file && (9 * file) % 9 == 0;
      assert TourLog()[2 + 9 * file] == TourMove(9 * file);
    }
  }

  /**
   * Each entry appended to `board` is the xy of the move commanded just
   * before it: entry `8 * file + rank` of the board is where the
   * `2 + 9 * file + 1 + rank`-th command sends the arm.
   */
  lemma BoardFollowsMoves(file: nat, rank: nat)
    requires file < 8 && rank < 8
    ensures |TourLog()| == 74 && |PosesTable()[1..]| == 64
    ensures var pose := TourLog()[2 + 9 * file + 1 + rank].pose;
      (pose.x, pose.y) == PosesTable()[1..][8 * file + rank]
  {
    TourStep(file, rank, false);
    var i := 2 + 9 * file + 1 + rank;
    assert TourLog()[..i + 1][i] == TourLog()[i];
  }
}
