/**
 * The robot arm as the scripts drive it: a `WidowXClient` whose `move` and
 * `move_gripper` calls are recorded, in order, in a command log. The network
 * transport, timing and the arm's own motion are not modelled.
 */
module Arm {

  /** An end-effector pose: position and roll, pitch, yaw. */
  datatype Pose = Pose(x: real, y: real, z: real, roll: real, pitch: real, yaw: real)

  /** One call on the client. */
  datatype Command = MoveTo(pose: Pose) | Gripper(width: real)

  /** The home pose `[0.3, 0, 0.15, 0, 1.57, 0]` the scripts move to. */
  const Home: Pose := Pose(0.3, 0.0, 0.15, 0.0, 1.57, 0.0)

  /** `np.pi / 4` as the double the scripts pass. */
  const QuarterPi: real := 0.7853981633974483

  /** `WidowXClient`, seen only through the commands it is sent. */
  class Client {
    /** Every command sent so far, oldest first. */
    var log: seq<Command>

    constructor ()
      ensures log == []
    {
      log := [];
    }

    /** `client.move(np.array([x, y, z, roll, pitch, yaw]))`. */
    method Move(pose: Pose)
      modifies this
      ensures log == old(log) + [MoveTo(pose)]
    {
      log := log + [MoveTo(pose)];
    }

    /** `client.move_gripper(width)`. */
    method MoveGripper(width: real)
      modifies this
      ensures log == old(log) + [Gripper(width)]
    {
      log := log + [Gripper(width)];
    }
  }
}
