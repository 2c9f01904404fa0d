/**
 * widowx_envs/bot.py: the table of arm positions for the 64 squares (with
 * a1 also at index 0), the `pick_and_place` routine the bot plays a move
 * with (as written, and with its destination y corrected), and the `main`
 * loop that reads a move as two square indices and plays it with the
 * routine as written. Terminal output, sleeps, argument parsing and the
 * KeyboardInterrupt handler are not modelled.
 */
module Bot {
  import opened Py
  import opened Arm

  /** The xy of the a1 square, `A1` and `initial_tile`. */
  const A1: (real, real) := (0.45, 0.15)

  /** The distance between neighbouring files, and between neighbouring ranks. */
  const FileStep: real := 0.0434
  const RankStep: real := 0.0425

  /** The xy the nested loop appends for `file` and `rank`. */
  function PoseAt(file: nat, rank: nat): (real, real)
  {
    (A1.0 - (file as real) * FileStep, A1.1 - (rank as real) * RankStep)
  }

  /** The finished `poses` table: `initial_tile`, then the 64 squares file by file. */
  function PosesTable(): (r: seq<(real, real)>)
    ensures |r| == 65
    // a1 is listed twice, as `initial_tile` and as the square of file 0, rank 0
    ensures r[0] == A1 && r[1] == A1
    // every square lies from a1 towards smaller x and y
    ensures forall k :: 0 <= k < |r| ==> r[k].0 <= A1.0 && r[k].1 <= A1.1
  {
    [A1] + seq(64, k requires 0 <= k < 64 => PoseAt(k / 8, k % 8))
  }

  /** The module-level loop that fills `poses`. */
  method BuildPoses() returns (poses: seq<(real, real)>)
    ensures poses == PosesTable()
  {
    var initialTile := A1;
    poses := [initialTile];
    for file := 0 to 8
      invariant poses == PosesTable()[..1 + 8 * file]
    {
      var fileStep := (file as real) * 0.0434;
      for rank := 0 to 8
        invariant poses == PosesTable()[..1 + 8 * file + rank]
      {
        var rankStep := (rank as real) * 0.0425;
        assert (8 * file + rank) / 8 == file && (8 * file + rank) % 8 == rank;
        assert PosesTable()[..1 + 8 * file + rank + 1] == PosesTable()[..1 + 8 * file + rank] + [PoseAt(file, rank)];
        poses := poses + [(initialTile.0 - fileStep, initialTile.1 - rankStep)];
      }
    }
    assert PosesTable()[..65] == PosesTable();
  }

  /**
   * `poses` has 65 entries; entries 0 and 1 are both a1, and entry
   * `1 + 8 * file + rank` is the square of that file and rank.
   */
  lemma PosesTableShape(file: nat, rank: nat)
    requires file < 8 && rank < 8
    ensures |PosesTable()| == 65
    ensures PosesTable()[0] == A1 && PosesTable()[1] == A1
    ensures PosesTable()[1 + 8 * file + rank] == (0.45 - (file as real) * 0.0434, 0.15 - (rank as real) * 0.0425)
  {
    assert (8 * file + rank) / 8 == file && (8 * file + rank) % 8 == rank;
  }

  /** Within one file, consecutive squares share x and step y down by 0.0425. */
  lemma PosesWithinFile(file: nat, rank: nat)
    requires file < 8 && rank < 7
    ensures PosesTable()[2 + 8 * file + rank].0 == PosesTable()[1 + 8 * file + rank].0
    ensures PosesTable()[2 + 8 * file + rank].1 == PosesTable()[1 + 8 * file + rank].1 - 0.0425
  {
    PosesTableShape(file, rank);
    PosesTableShape(file, rank + 1);
    assert 2 + 8 * file + rank == 1 + 8 * file + (rank + 1);
  }

  /** A pose at `(x, y, z)` with the bot's orientation: yaw a quarter turn. */
  function Over(x: real, y: real, z: real): Pose
  {
    Pose(x, y, z, 0.0, 1.57, QuarterPi)
  }

  /**
   * The commands bot.py's `pick_and_place` sends, as written: its
   * destination y is taken from `xy_initial`, so the piece is carried to
   * the destination's file but set down on its own rank.
   */
  function PickAndPlaceLog(xyInitial: (real, real), xyFinal: (real, real), height: real,
                           clearanceHeight: real): (log: seq<Command>)
    // six moves, with the gripper closing at position 2 and opening at position 6
    ensures |log| == 8 && forall i :: 0 <= i < 8 ==> (log[i].Gripper? <==> i == 2 || i == 6)
    ensures log[2] == Gripper(0.0) && log[6] == Gripper(1.0)
    // it starts at clearance height above the initial square
    ensures log[0] == MoveTo(Over(xyInitial.0, xyInitial.1, clearanceHeight + height))
    // the close follows the descent to `height` at the initial square
    ensures log[1] == MoveTo(Over(xyInitial.0, xyInitial.1, height))
    // the lateral move is made at clearance height above the piece
    ensures log[3].pose == Over(xyInitial.0, xyInitial.1, clearanceHeight + height)
    ensures log[4].pose == Over(xyFinal.0, xyInitial.1, clearanceHeight + height)
    // the release follows a descent to `height`, and the arm lifts back to clearance height
    ensures log[5].pose.z == height && log[7].pose.z == clearanceHeight + height
    // every move after the lift uses `xy_final[0]` and `xy_initial[1]`
    ensures forall i :: 4 <= i < 8 && log[i].MoveTo? ==> (log[i].pose.x, log[i].pose.y) == (xyFinal.0, xyInitial.1)
    ensures forall i :: 0 <= i < 8 && log[i].MoveTo? ==>
      log[i].pose.roll == 0.0 && log[i].pose.pitch == 1.57 && log[i].pose.yaw == QuarterPi
  {
    var xInitial := xyInitial.0;
    var yInitial := xyInitial.1;
    var xFinal := xyFinal.0;
    var yFinal := xyInitial.1;
    var lifted := clearanceHeight + height;
    [MoveTo(Over(xInitial, yInitial, lifted)),
     MoveTo(Over(xInitial, yInitial, height)),
     Gripper(0.0),
     MoveTo(Over(xInitial, yInitial, lifted)),
     MoveTo(Over(xFinal, yFinal, lifted)),
     MoveTo(Over(xFinal, yFinal, height)),
     Gripper(1.0),
     MoveTo(Over(xFinal, yFinal, lifted))]
  }

  /**
   * The routine with the destination y taken from `xy_final`: the same
   * eight commands, with every move after the lift over the destination.
   */
  function PickAndPlaceIntendedLog(xyInitial: (real, real), xyFinal: (real, real), height: real,
                                   clearanceHeight: real): (log: seq<Command>)
    ensures |log| == 8 && forall i :: 0 <= i < 8 ==> (log[i].Gripper? <==> i == 2 || i == 6)
    ensures log[1] == MoveTo(Over(xyInitial.0, xyInitial.1, height)) && log[2] == Gripper(0.0)
    ensures log[5] == MoveTo(Over(xyFinal.0, xyFinal.1, height)) && log[6] == Gripper(1.0)
    // the lateral move is made at clearance height, and the arm ends there above the destination
    ensures log[4] == MoveTo(Over(xyFinal.0, xyFinal.1, clearanceHeight + height))
    ensures log[7] == MoveTo(Over(xyFinal.0, xyFinal.1, clearanceHeight + height))
    ensures forall i :: 4 <= i < 8 && log[i].MoveTo? ==> (log[i].pose.x, log[i].pose.y) == xyFinal
    ensures forall i :: 0 <= i < 8 && i != 4 && i != 5 && i != 7 ==>
      log[i] == PickAndPlaceLog(xyInitial, xyFinal, height, clearanceHeight)[i]
  {
    var lifted := clearanceHeight + height;
    [MoveTo(Over(xyInitial.0, xyInitial.1, lifted)),
     MoveTo(Over(xyInitial.0, xyInitial.1, height)),
     Gripper(0.0),
     MoveTo(Over(xyInitial.0, xyInitial.1, lifted)),
     MoveTo(Over(xyFinal.0, xyFinal.1, lifted)),
     MoveTo(Over(xyFinal.0, xyFinal.1, height)),
     Gripper(1.0),
     MoveTo(Over(xyFinal.0, xyFinal.1, lifted))]
  }

  /**
   * As written, a move between two squares of the same file (entered as
   * `1 2`, a1 to a2) puts the piece back down on its starting square, where
   * the intended routine sets it down on the destination.
   */
  lemma PickAndPlaceKeepsRank()
    ensures PickAndPlaceLog(PosesTable()[1], PosesTable()[2], 0.011, 0.07)[5] ==
      MoveTo(Over(PosesTable()[1].0, PosesTable()[1].1, 0.011))
    ensures PosesTable()[1] != PosesTable()[2]
    ensures PickAndPlaceIntendedLog(PosesTable()[1], PosesTable()[2], 0.011, 0.07)[5] ==
      MoveTo(Over(PosesTable()[2].0, PosesTable()[2].1, 0.011))
  {
    PosesTableShape(0, 0);
    PosesTableShape(0, 1);
  }

  /**
   * `pick_and_place(xy_initial, xy_final, height, clearance_height, client)`
   * of bot.py, as written: the destination y is taken from `xy_initial`.
   */
  method PickAndPlace(client: Client, xyInitial: (real, real), xyFinal: (real, real), height: real,
                      clearanceHeight: real)
    modifies client
    ensures client.log == old(client.log) + PickAndPlaceLog(xyInitial, xyFinal, height, clearanceHeight)
  {
    var xInitial := xyInitial.0;
    var yInitial := xyInitial.1;
    var xFinal := xyFinal.0;
    var yFinal := xyInitial.1;
    client.Move(Over(xInitial, yInitial, clearanceHeight + height));
    client.Move(Over(xInitial, yInitial, height));
    client.MoveGripper(0.0);
    client.Move(Over(xInitial, yInitial, clearanceHeight + height));
    client.Move(Over(xFinal, yFinal, clearanceHeight + height));
    client.Move(Over(xFinal, yFinal, height));
    client.MoveGripper(1.0);
    client.Move(Over(xFinal, yFinal, clearanceHeight + height));
  }

  /** The routine with its destination y corrected to `xy_final[1]`. */
  method PickAndPlaceIntended(client: Client, xyInitial: (real, real), xyFinal: (real, real), height: real,
                              clearanceHeight: real)
    modifies client
    ensures client.log == old(client.log) + PickAndPlaceIntendedLog(xyInitial, xyFinal, height, clearanceHeight)
  {
    var xInitial := xyInitial.0;
    var yInitial := xyInitial.1;
    var xFinal := xyFinal.0;
    var yFinal := xyFinal.1;
    client.Move(Over(xInitial, yInitial, clearanceHeight + height));
    client.Move(Over(xInitial, yInitial, height));
    client.MoveGripper(0.0);
    client.Move(Over(xInitial, yInitial, clearanceHeight + height));
    client.Move(Over(xFinal, yFinal, clearanceHeight + height));
    client.Move(Over(xFinal, yFinal, height));
    client.MoveGripper(1.0);
    client.Move(Over(xFinal, yFinal, clearanceHeight + height));
  }

  /** Python's `s.split(sep)` with an explicit one-character separator: empty fields are kept. */
  function Split(s: string, sep: char): (parts: seq<string>)
    ensures |parts| >= 1
    ensures forall i :: 0 <= i < |parts| ==> sep !in parts[i]
  {
    if s == [] then [""]
    else
      var rest := Split(s[1..], sep);
      if s[0] == sep then [""] + rest
      else [[s[0]] + rest[0]] + rest[1..]
  }

  /** `sep.join(parts)`. */
  function Join(parts: seq<string>, sep: char): string
    requires |parts| >= 1
  {
    if |parts| == 1 then parts[0] else parts[0] + [sep] + Join(parts[1..], sep)
  }

  /** The number of occurrences of `c` in `s`. */
  function Occurrences(s: string, c: char): nat
  {
    if s == [] then 0 else (if s[0] == c then 1 else 0) + Occurrences(s[1..], c)
  }

  /** Splitting loses nothing: joining the fields with the separator gives the line back. */
  lemma {:induction false} SplitJoin(s: string, sep: char)
    ensures Join(Split(s, sep), sep) == s
  {
    if s != [] {
      var rest := Split(s[1..], sep);
      SplitJoin(s[1..], sep);
      if s[0] == sep {
        assert ([""] + rest)[1..] == rest;
      } else {
        var parts := [[s[0]] + rest[0]] + rest[1..];
        if |rest| > 1 {
          assert parts[1..] == rest[1..];
          assert Join(rest, sep) == rest[0] + [sep] + Join(rest[1..], sep);
        }
      }
    }
  }

  /** A line splits into one more field than it has separators. */
  lemma {:induction false} SplitCount(s: string, sep: char)
    ensures |Split(s, sep)| == Occurrences(s, sep) + 1
  {
    if s != [] {
      SplitCount(s[1..], sep);
    }
  }

  /** The value of a string of decimal digits. */
  function DigitsValue(s: string): nat
    requires forall i :: 0 <= i < |s| ==> '0' <= s[i] <= '9'
  {
    if s == [] then 0 else DigitsValue(s[..|s| - 1]) * 10 + (s[|s| - 1] as int - '0' as int)
  }

  predicate AllDigits(s: string)
  {
    |s| >= 1 && forall i :: 0 <= i < |s| ==> '0' <= s[i] <= '9'
  }

  /**
   * Python's `int(s)` on a field: an optional sign and at least one decimal
   * digit, or None where `int` raises ValueError.
   */
  function ParseInt(s: string): (r: Option<int>)
    ensures r.Some? ==> ' ' !in s && s != ""
  {
    if AllDigits(s) then Some(DigitsValue(s) as int)
    else if |s| >= 2 && s[0] == '+' && AllDigits(s[1..]) then Some(DigitsValue(s[1..]) as int)
    else if |s| >= 2 && s[0] == '-' && AllDigits(s[1..]) then Some(-(DigitsValue(s[1..]) as int))
    else None
  }

  /** Python's `str(i)`. */
  function IntString(i: int): string
  {
    if i < 0 then "-" + DecimalString(-i) else DecimalString(i)
  }

  lemma {:induction false} DigitsOfDecimal(n: nat)
    ensures DigitsValue(DecimalString(n)) == n
  {
    if n >= 10 {
      var s := DecimalString(n);
      DigitsOfDecimal(n / 10);
      assert s[..|s| - 1] == DecimalString(n / 10);
    }
  }

  /** A string of decimal digits is read as its value. */
  lemma ParseIntDigits(s: string)
    requires AllDigits(s)
    ensures ParseInt(s) == Some(DigitsValue(s) as int)
  {
  }

  /** A minus sign followed by decimal digits is read as the negated value. */
  lemma ParseIntNegated(digits: string)
    requires AllDigits(digits)
    ensures ParseInt("-" + digits) == Some(-(DigitsValue(digits) as int))
  {
    var s := "-" + digits;
    assert s[0] == '-' && s[1..] == digits;
  }

  /** `str(-n)` for a positive `n` is read back as `-n`. */
  lemma ParseIntNegative(n: nat)
    requires n > 0
    ensures ParseInt(IntString(-(n as int))) == Some(-(n as int))
  {
    assert IntString(-(n as int)) == "-" + DecimalString(n);
    NegatedDecimal(n);
  }

  lemma NegatedDecimal(n: nat)
    ensures ParseInt("-" + DecimalString(n)) == Some(-(n as int))
  {
    DigitsOfDecimal(n);
    ParseIntNegated(DecimalString(n));
  }

  /** `str(n)` for a natural `n` is read back as `n`. */
  lemma ParseIntNatural(n: nat)
    ensures ParseInt(IntString(n)) == Some(n)
  {
    var digits := DecimalString(n);
    DigitsOfDecimal(n);
    ParseIntDigits(digits);
  }

  /** Every integer typed as Python prints it is read back as itself. */
  lemma ParseIntString(i: int)
    ensures ParseInt(IntString(i)) == Some(i)
  {
    if i < 0 {
      ParseIntNegative(-i);
    } else {
      ParseIntNatural(i);
    }
  }

  /** The pose `main` goes to before reading each move. */
  const Rest: Pose := Pose(0.1, 0.0, 0.1, 0.0, 1.57, 0.0)

  /** How one round of `while playing` ends. */
  datatype TurnEnd = Continued | Played | Raised(error: Error)

  /** One round: how it ends and the commands it sends. */
  datatype Turn = Turn(outcome: TurnEnd, commands: seq<Command>)

  /**
   * The round of `main` that reads `line` as the bot's move, over the table
   * `poses`, playing it with `pick_and_place` as written.
   */
  function PlayLine(poses: seq<(real, real)>, line: string): (turn: Turn)
    // every round starts with the rest move, and only a played move goes on past the home move
    ensures |turn.commands| >= 1 && turn.commands[0] == MoveTo(Rest)
    ensures turn.outcome == Played <==> |turn.commands| == 10
    ensures turn.outcome != Played ==> |turn.commands| <= 2
    // the only errors a round raises are those of `int` and of the table lookup
    ensures turn.outcome.Raised? ==> turn.outcome.error == ValueError || turn.outcome.error == IndexError
  {
    var fields := Split(line, ' ');
    if |fields| != 2 then Turn(Continued, [MoveTo(Rest)])
    else
      var fromSquare := ParseInt(fields[0]);
      var toSquare := ParseInt(fields[1]);
      if fromSquare.None? || toSquare.None? then Turn(Raised(ValueError), [MoveTo(Rest)])
      else
        var from := PyIndex(fromSquare.value, |poses|);
        var to := PyIndex(toSquare.value, |poses|);
        if from.None? || to.None? then Turn(Raised(IndexError), [MoveTo(Rest), MoveTo(Home)])
        else Turn(Played, [MoveTo(Rest), MoveTo(Home)] + PickAndPlaceLog(poses[from.value], poses[to.value], 0.011, 0.07))
  }

  /**
   * A line without exactly one space is passed over after the rest move,
   * without moving a piece.
   */
  lemma PlayLineSkips(poses: seq<(real, real)>, line: string)
    ensures PlayLine(poses, line).outcome == Continued <==> Occurrences(line, ' ') != 1
    ensures PlayLine(poses, line).outcome == Continued ==> PlayLine(poses, line).commands == [MoveTo(Rest)]
  {
    SplitCount(line, ' ');
  }

  /**
   * Two fields that are not both integers raise ValueError after the rest
   * move alone.
   */
  lemma PlayLineRejects(poses: seq<(real, real)>, a: string, b: string)
    requires ' ' !in a && ' ' !in b
    ensures PlayLine(poses, a + " " + b).outcome == Raised(ValueError) <==> ParseInt(a).None? || ParseInt(b).None?
    ensures ParseInt(a).None? || ParseInt(b).None? ==> PlayLine(poses, a + " " + b).commands == [MoveTo(Rest)]
  {
    SplitOfPair(a, b);
  }

  /**
   * The line `i j`, as Python prints two integers, plays a move exactly when
   * both lie in `-n..n-1` for a table of `n` poses (a negative one counting
   * from the end of the table): the home move, then the pick and place
   * between the two poses. Otherwise it raises IndexError after the rest
   * and home moves.
   */
  lemma PlayLinePair(poses: seq<(real, real)>, i: int, j: int)
    ensures var turn := PlayLine(poses, IntString(i) + " " + IntString(j));
      turn.outcome == Played <==> -|poses| <= i < |poses| && -|poses| <= j < |poses|
    ensures var turn := PlayLine(poses, IntString(i) + " " + IntString(j));
      turn.outcome != Played ==> turn.outcome == Raised(IndexError) && turn.commands == [MoveTo(Rest), MoveTo(Home)]
    ensures var turn := PlayLine(poses, IntString(i) + " " + IntString(j));
      turn.outcome == Played ==>
        turn.commands == [MoveTo(Rest), MoveTo(Home)] +
          PickAndPlaceLog(poses[if i < 0 then i + |poses| else i],
                                  poses[if j < 0 then j + |poses| else j], 0.011, 0.07)
  {
    var a, b := IntString(i), IntString(j);
    ParseIntString(i);
    ParseIntString(j);
    SplitOfPair(a, b);
    var fields := Split(a + " " + b, ' ');
    assert |fields| == 2 && ParseInt(fields[0]) == Some(i) && ParseInt(fields[1]) == Some(j);
  }

  /** Two fields without spaces, joined by one space, split back into those two fields. */
  lemma {:induction false} SplitOfPair(a: string, b: string)
    requires ' ' !in a && ' ' !in b
    ensures Split(a + " " + b, ' ') == [a, b]
  {
    if a == [] {
      assert a + " " + b == [' '] + b;
      assert (a + " " + b)[1..] == b;
      SplitNoSeparator(b);
    } else {
      SplitOfPair(a[1..], b);
      assert (a + " " + b)[1..] == a[1..] + " " + b;
      assert [a[0]] + a[1..] == a;
    }
  }

  lemma {:induction false} SplitNoSeparator(s: string)
    requires ' ' !in s
    ensures Split(s, ' ') == [s]
  {
    if s != [] {
      SplitNoSeparator(s[1..]);
      assert [s[0]] + s[1..] == s;
    }
  }

  /** One round of `while playing`, reading `line` as the bot's move. */
  method PlayTurn(client: Client, poses: seq<(real, real)>, line: string) returns (outcome: TurnEnd)
    modifies client
    ensures outcome == PlayLine(poses, line).outcome
    ensures client.log == old(client.log) + PlayLine(poses, line).commands
  {
    client.Move(Rest);
    var botMove := line;
    if |Split(botMove, ' ')| != 2 {
      return Continued;
    }
    var fromSquare := ParseInt(Split(botMove, ' ')[0]);
    if fromSquare.None? {
      return Raised(ValueError);
    }
    var toSquare := ParseInt(Split(botMove, ' ')[1]);
    if toSquare.None? {
      return Raised(ValueError);
    }
    client.Move(Home);
    var height := 0.011;
    var clearanceHeight := 0.07;
    var from := PyIndex(fromSquare.value, |poses|);
    if from.None? {
      return Raised(IndexError);
    }
    var to := PyIndex(toSquare.value, |poses|);
    if to.None? {
      return Raised(IndexError);
    }
    PickAndPlace(client, poses[from.value], poses[to.value], height, clearanceHeight);
    outcome := Played;
  }

  /**
   * `main`'s loop over the lines typed: it never leaves normally, ending at
   * the first uncaught error, or at EOFError once the input is exhausted
   * (after the rest move that precedes every read).
   */
  function Session(poses: seq<(real, real)>, lines: seq<string>): (r: (Error, seq<Command>))
    ensures r.0 == EOFError || r.0 == ValueError || r.0 == IndexError
    // the arm goes to its rest pose first, and is left there when the input runs out
    ensures |r.1| >= 1 && r.1[0] == MoveTo(Rest)
    ensures r.0 == EOFError ==> r.1[|r.1| - 1] == MoveTo(Rest)
  {
    if lines == [] then (EOFError, [MoveTo(Rest)])
    else
      var turn := PlayLine(poses, lines[0]);
      if turn.outcome.Raised? then (turn.outcome.error, turn.commands)
      else
        var rest := Session(poses, lines[1..]);
        (rest.0, turn.commands + rest.1)
  }

  /** The session ends with EOFError exactly when no line raised. */
  lemma {:induction false} SessionEndsAtEOF(poses: seq<(real, real)>, lines: seq<string>)
    ensures Session(poses, lines).0 == EOFError <==>
      forall k :: 0 <= k < |lines| ==> !PlayLine(poses, lines[k]).outcome.Raised?
  {
    if lines != [] {
      SessionEndsAtEOF(poses, lines[1..]);
      assert forall k :: 1 <= k < |lines| ==> lines[k] == lines[1..][k - 1];
    }
  }

  /** A session that raised ends with the error of the first line that raised. */
  lemma {:induction false} SessionEndsAtFirstError(poses: seq<(real, real)>, lines: seq<string>)
    ensures Session(poses, lines).0 != EOFError ==>
      exists k :: (0 <= k < |lines| &&
        (forall m :: 0 <= m < k ==> !PlayLine(poses, lines[m]).outcome.Raised?) &&
        PlayLine(poses, lines[k]).outcome == Raised(Session(poses, lines).0))
  {
    if lines != [] && !PlayLine(poses, lines[0]).outcome.Raised? && Session(poses, lines).0 != EOFError {
      SessionEndsAtFirstError(poses, lines[1..]);
      var k :| 0 <= k < |lines[1..]| &&
        (forall m :: 0 <= m < k ==> !PlayLine(poses, lines[1..][m]).outcome.Raised?) &&
        PlayLine(poses, lines[1..][k]).outcome == Raised(Session(poses, lines).0);
      assert lines[1..][k] == lines[k + 1];
      forall m | 0 <= m < k + 1
        ensures !PlayLine(poses, lines[m]).outcome.Raised?
      {
        if m > 0 {
          assert lines[m] == lines[1..][m - 1];
        }
      }
    }
  }

  /** The session from line `i` on: that line's round, then the rest unless it raised. */
  lemma SessionStep(poses: seq<(real, real)>, lines: seq<string>, i: nat)
    requires i < |lines|
    ensures var turn := PlayLine(poses, lines[i]);
      Session(poses, lines[i..]) ==
        if turn.outcome.Raised? then (turn.outcome.error, turn.commands)
        else (Session(poses, lines[i + 1..]).0, turn.commands + Session(poses, lines[i + 1..]).1)
  {
    assert lines[i..][0] == lines[i] && lines[i..][1..] == lines[i + 1..];
  }

  /**
   * One round of `while playing` on line `i`: when it raises, the error and
   * the commands are those the session from line `i` ends with; otherwise
   * the commands sent so far followed by the session from line `i + 1` are
   * the commands sent before followed by the session from line `i`.
   */
  method PlayRound(client: Client, poses: seq<(real, real)>, lines: seq<string>, i: nat) returns (raised: Option<Error>)
    requires i < |lines|
    modifies client
    ensures raised.Some? ==> raised.value == Session(poses, lines[i..]).0
    ensures raised.Some? ==> client.log == old(client.log) + Session(poses, lines[i..]).1
    ensures raised.None? ==> Session(poses, lines[i + 1..]).0 == Session(poses, lines[i..]).0
    ensures raised.None? ==>
      client.log + Session(poses, lines[i + 1..]).1 == old(client.log) + Session(poses, lines[i..]).1
  {
    SessionStep(poses, lines, i);
    var outcome := PlayTurn(client, poses, lines[i]);
    if outcome.Raised? {
      return Some(outcome.error);
    }
    ghost var rest := Session(poses, lines[i + 1..]).1;
    assert client.log + rest == old(client.log) + (PlayLine(poses, lines[i]).commands + rest);
    raised := None;
  }

  /** `main` after the client is set up: `while playing`, one round per line typed. */
  method Play(client: Client, poses: seq<(real, real)>, lines: seq<string>) returns (error: Error)
    modifies client
    ensures error == Session(poses, lines).0
    ensures client.log == old(client.log) + Session(poses, lines).1
  {
    var i := 0;
    assert lines[0..] == lines;
    while i < |lines|
      invariant 0 <= i <= |lines|
      invariant Session(poses, lines[i..]).0 == Session(poses, lines).0
      invariant client.log + Session(poses, lines[i..]).1 == old(client.log) + Session(poses, lines).1
    {
      var raised := PlayRound(client, poses, lines, i);
      if raised.Some? {
        return raised.value;
      }
      i := i + 1;
    }
    assert lines[i..] == [];
    client.Move(Rest);
    error := EOFError;
  }
}
