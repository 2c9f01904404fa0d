/**
 * `pick_and_place` of widowx_envs/pick_and_place.py: open the gripper to the
 * given width, go home, lift the piece off its square, carry it over at
 * clearance height and set it down on the destination, releasing it to the
 * same width. All moves keep the orientation (0, 1.57, 0). Sleeps are not
 * modelled.
 */
module PickPlace {
  import opened Arm

  /** A pose at `(x, y, z)` with the script's orientation. */
  function At(x: real, y: real, z: real): Pose
  {
    Pose(x, y, z, 0.0, 1.57, 0.0)
  }

  /** The commands one call of `pick_and_place` sends, in order. */
  function PickAndPlaceLog(xyInitial: (real, real), xyFinal: (real, real), height: real,
                           clearanceHeight: real, gripperWidth: real): (log: seq<Command>)
    // ten commands: gripper settings at positions 0, 4 and 8, moves everywhere else
    ensures |log| == 10 && forall i :: 0 <= i < 10 ==> (log[i].Gripper? <==> i == 0 || i == 4 || i == 8)
    // it starts with the gripper at the given width and the home move
    ensures log[0] == Gripper(gripperWidth) && log[1] == MoveTo(Home)
    // it approaches the piece at clearance height above the initial square
    ensures log[2] == MoveTo(At(xyInitial.0, xyInitial.1, clearanceHeight + height))
    // the gripper closes right after descending to the piece's height at the initial square
    ensures log[3] == MoveTo(At(xyInitial.0, xyInitial.1, height)) && log[4] == Gripper(0.0)
    // the lateral move between the squares happens at clearance height above the piece
    ensures log[5].pose == At(xyInitial.0, xyInitial.1, clearanceHeight + height)
    ensures log[6].pose == At(xyFinal.0, xyFinal.1, clearanceHeight + height)
    // every move from the traverse on is above the destination, using both coordinates of `xy_final`
    ensures forall i :: 6 <= i < 10 && log[i].MoveTo? ==> (log[i].pose.x, log[i].pose.y) == xyFinal
    // the piece is set down at its own height on the destination before the release
    ensures log[7] == MoveTo(At(xyFinal.0, xyFinal.1, height))
    // the release restores the initial gripper width, and the arm ends above the destination
    ensures log[8] == Gripper(gripperWidth)
    ensures log[9] == MoveTo(At(xyFinal.0, xyFinal.1, clearanceHeight + height))
    ensures forall i :: 0 <= i < 10 && log[i].MoveTo? ==>
      log[i].pose.roll == 0.0 && log[i].pose.pitch == 1.57 && log[i].pose.yaw == 0.0
  {
    var (xInitial, yInitial) := xyInitial;
    var (xFinal, yFinal) := xyFinal;
    var lifted := clearanceHeight + height;
    var log := [Gripper(gripperWidth),
                MoveTo(Home),
                MoveTo(At(xInitial, yInitial, lifted)),
                MoveTo(At(xInitial, yInitial, height)),
                Gripper(0.0),
                MoveTo(At(xInitial, yInitial, lifted)),
                MoveTo(At(xFinal, yFinal, lifted)),
                MoveTo(At(xFinal, yFinal, height)),
                Gripper(gripperWidth),
                MoveTo(At(xFinal, yFinal, lifted))];
    log
  }

  /** `pick_and_place(xy_initial, xy_final, height, clearance_height, client, gripper_width)`. */
  method PickAndPlace(client: Client, xyInitial: (real, real), xyFinal: (real, real), height: real,
                      clearanceHeight: real, gripperWidth: real := 1.0)
    modifies client
    ensures client.log == old(client.log) + PickAndPlaceLog(xyInitial, xyFinal, height, clearanceHeight, gripperWidth)
  {
    var xInitial := xyInitial.0;
    var yInitial := xyInitial.1;
    var xFinal := xyFinal.0;
    var yFinal := xyFinal.1;
    client.MoveGripper(gripperWidth);
    client.Move(Home);
    client.Move(At(xInitial, yInitial, clearanceHeight + height));
    client.Move(At(xInitial, yInitial, height));
    client.MoveGripper(0.0);
    client.Move(At(xInitial, yInitial, clearanceHeight + height));
    client.Move(At(xFinal, yFinal, clearanceHeight + height));
    client.Move(At(xFinal, yFinal, height));
    client.MoveGripper(gripperWidth);
    client.Move(At(xFinal, yFinal, clearanceHeight + height));
  }

  /** The script's `main`: one pick and place with a narrowed gripper. */
  method Script(client: Client)
    modifies client
    ensures client.log == old(client.log) + PickAndPlaceLog((0.17, -0.1), (0.17, -0.02), 0.04, 0.08, 0.7)
  {
    PickAndPlace(client, (0.17, -0.1), (0.17, -0.02), 0.04, 0.08, 0.7);
  }
}
