/**
 * The fixed board configuration of cv/config.py: which AprilTag id marks
 * which corner of the board (the `Corner` enum), and which of a tag's four
 * corner points is the board's corner (the `BoardCorners` dictionary).
 */
module Config {
  import opened Py

  /** The members of the `Corner` enum, in declaration order. */
  datatype Corner = ROBOT_L | PLAYER_R | PLAYER_L | ROBOT_R

  /** `Corner.X.value`: the AprilTag id of a corner. */
  function TagId(c: Corner): int
  {
    match c
    case ROBOT_L => 96
    case PLAYER_R => 98
    case PLAYER_L => 99
    case ROBOT_R => 97
  }

  /** `Corner.X.name`. */
  function Name(c: Corner): string
  {
    match c
    case ROBOT_L => "ROBOT_L"
    case PLAYER_R => "PLAYER_R"
    case PLAYER_L => "PLAYER_L"
    case ROBOT_R => "ROBOT_R"
  }

  /**
   * The enum call `Corner(id)`: the member whose value is `id`, or None where
   * Python raises ValueError.
   */
  function CornerOf(id: int): (r: Option<Corner>)
    ensures r.Some? <==> 96 <= id <= 99
    ensures r.Some? ==> TagId(r.value) == id
  {
    if id == 96 then Some(ROBOT_L)
    else if id == 98 then Some(PLAYER_R)
    else if id == 99 then Some(PLAYER_L)
    else if id == 97 then Some(ROBOT_R)
    else None
  }

  /** The `BoardCorners` dictionary as its items, in insertion (= iteration) order. */
  const BoardCornerItems: seq<(string, nat)> :=
    [("ROBOT_L", 0), ("PLAYER_R", 2), ("PLAYER_L", 1), ("ROBOT_R", 3)]

  /** The `BoardCorners` dictionary as a map from corner name to tag-corner index. */
  function BoardCorners(): (m: map<string, nat>)
    ensures forall i :: 0 <= i < |BoardCornerItems| ==>
      BoardCornerItems[i].0 in m && m[BoardCornerItems[i].0] == BoardCornerItems[i].1
  {
    map["ROBOT_L" := 0, "PLAYER_R" := 2, "PLAYER_L" := 1, "ROBOT_R" := 3]
  }

  /** The order in which iterating `BoardCorners` visits the corners. */
  const CornerOrder: seq<Corner> := [ROBOT_L, PLAYER_R, PLAYER_L, ROBOT_R]

  /** The id-to-corner mapping and its inverse agree in both directions. */
  lemma CornerOfTagId(c: Corner, id: int)
    ensures CornerOf(id) == Some(c) <==> TagId(c) == id
  {
  }

  /** Distinct corners carry distinct ids and distinct names. */
  lemma TagIdInjective(c: Corner, d: Corner)
    ensures TagId(c) == TagId(d) ==> c == d
    ensures Name(c) == Name(d) ==> c == d
  {
  }

  /** The dictionary's keys are exactly the four enum names. */
  lemma BoardCornersKeys()
    ensures BoardCorners().Keys == set c: Corner :: Name(c)
  {
    var m := BoardCorners();
    forall c: Corner ensures Name(c) in m {
      var i := if c == ROBOT_L then 0 else if c == PLAYER_R then 1 else if c == PLAYER_L then 2 else 3;
      assert BoardCornerItems[i].0 == Name(c);
    }
    forall k | k in m ensures exists c: Corner :: Name(c) == k {
      assert k == "ROBOT_L" || k == "PLAYER_R" || k == "PLAYER_L" || k == "ROBOT_R";
      if k == "ROBOT_L" { assert Name(ROBOT_L) == k; }
      else if k == "PLAYER_R" { assert Name(PLAYER_R) == k; }
      else if k == "PLAYER_L" { assert Name(PLAYER_L) == k; }
      else { assert Name(ROBOT_R) == k; }
    }
  }

  /**
   * The tag-corner indices are pairwise distinct and lie in 0..3: every
   * board corner is a different corner of its tag's square.
   */
  lemma BoardCornerIndicesPermutation()
    ensures BoardCorners().Values == {0, 1, 2, 3}
    ensures forall i, j :: 0 <= i < j < |BoardCornerItems| ==> BoardCornerItems[i].1 != BoardCornerItems[j].1
  {
    var m := BoardCorners();
    assert m["ROBOT_L"] == 0 && m["PLAYER_L"] == 1 && m["PLAYER_R"] == 2 && m["ROBOT_R"] == 3;
  }

  /** Iterating the dictionary visits the corner names in enum-declaration order, each once. */
  lemma BoardCornersIterationOrder()
    ensures |BoardCornerItems| == |CornerOrder| == 4
    ensures forall i :: 0 <= i < 4 ==> BoardCornerItems[i].0 == Name(CornerOrder[i])
    ensures forall i, j :: 0 <= i < j < 4 ==> BoardCornerItems[i].0 != BoardCornerItems[j].0
  {
  }
}
