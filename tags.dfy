/**
 * From detected AprilTags to board corner points: the `tag_dict` built by
 * cv/find_move.py (tag name to the tag's corner points), the four-tag gate,
 * and the extraction of one corner point per `BoardCorners` entry, shared by
 * find_move.py and `BoardView.__get_corners` in cv.py.
 */
module Tags {
  import opened Py
  import opened Geometry
  import opened Config

  /** A detection result: the tag's id and its corner points. */
  datatype Tag = Tag(id: int, corners: seq<Point>)

  /** `tag_dict`: corner name to that tag's corner points. */
  type TagDict = map<string, seq<Point>>

  /** `Corner(t.tag_id).name`, or None where the enum call raises ValueError. */
  function TagName(t: Tag): (r: Option<string>)
    ensures r.Some? <==> CornerOf(t.id).Some?
    ensures r.Some? ==> r.value in BoardCorners()
  {
    match CornerOf(t.id)
    case None => None
    case Some(c) => BoardCornersKeys(); Some(Name(c))
  }

  /** Tag `i` is the last detection of its id, so its corners are the ones kept. */
  predicate LastOfItsId(tags: seq<Tag>, i: nat)
    requires i < |tags|
  {
    forall j :: i < j < |tags| ==> tags[j].id != tags[i].id
  }

  /**
   * The dictionary the loop of cv/find_move.py leaves after the given tags:
   * each tag stored under its corner name, later ones replacing earlier ones,
   * or ValueError at the first id the enum does not know.
   */
  function TagDictOf(tags: seq<Tag>): (r: Result<TagDict>)
    // every key is a board corner's name, and an unknown id raises ValueError
    ensures r.Ok? ==> r.value.Keys <= BoardCorners().Keys
    ensures r.Err? ==> r.error == ValueError
    decreases |tags|
  {
    if tags == [] then Ok(map[])
    else
      var init := TagDictOf(tags[..|tags| - 1]);
      var t := tags[|tags| - 1];
      if init.Err? then init
      else match TagName(t)
        case None => Err(ValueError)
        case Some(name) => Ok(init.value[name := t.corners])
  }

  /** The loop completes exactly when every detected id is a known corner; otherwise it raises ValueError. */
  lemma {:induction false} TagDictOfSucceeds(tags: seq<Tag>)
    ensures TagDictOf(tags).Ok? <==> forall i :: 0 <= i < |tags| ==> TagName(tags[i]).Some?
    ensures TagDictOf(tags).Err? ==> TagDictOf(tags).error == ValueError
    decreases |tags|
  {
    if tags != [] {
      var n := |tags| - 1;
      TagDictOfSucceeds(tags[..n]);
      assert forall i :: 0 <= i < n ==> tags[..n][i] == tags[i];
    }
  }

  /** The keys of `tag_dict` are exactly the corner names of the detected tags. */
  lemma {:induction false} TagDictOfKeys(tags: seq<Tag>)
    requires TagDictOf(tags).Ok?
    ensures forall k :: k in TagDictOf(tags).value <==>
      exists i :: 0 <= i < |tags| && TagName(tags[i]) == Some(k)
    decreases |tags|
  {
    if tags != [] {
      var n := |tags| - 1;
      var init := tags[..n];
      TagDictOfKeys(init);
      var before := TagDictOf(init).value;
      var name := TagName(tags[n]).value;
      var d := TagDictOf(tags).value;
      assert d == before[name := tags[n].corners];
      forall k | k in d
        ensures exists i :: 0 <= i < |tags| && TagName(tags[i]) == Some(k)
      {
        if k == name {
          assert TagName(tags[n]) == Some(k);
        } else {
          var i :| 0 <= i < n && TagName(init[i]) == Some(k);
          assert init[i] == tags[i];
        }
      }
      forall k, i | 0 <= i < |tags| && TagName(tags[i]) == Some(k)
        ensures k in d
      {
        if i < n {
          assert TagName(init[i]) == Some(k);
          assert k in before;
        } else {
          assert i == n;
          assert TagName(tags[n]) == Some(k);
        }
      }
    }
  }

  /** Each name holds the corners of the last detected tag with that id: later tags overwrite earlier ones. */
  lemma {:induction false} TagDictOfLastWins(tags: seq<Tag>, i: nat)
    requires TagDictOf(tags).Ok? && i < |tags| && LastOfItsId(tags, i)
    ensures TagName(tags[i]).Some? && TagName(tags[i]).value in TagDictOf(tags).value
    ensures TagDictOf(tags).value[TagName(tags[i]).value] == tags[i].corners
    decreases |tags|
  {
    var n := |tags| - 1;
    var init := tags[..n];
    TagDictOfSucceeds(tags);
    if i < n {
      assert forall j :: 0 <= j < n ==> init[j] == tags[j];
      assert LastOfItsId(init, i);
      TagDictOfLastWins(init, i);
      TagIdInjective(CornerOf(tags[i].id).value, CornerOf(tags[n].id).value);
    }
  }

  /** Every value of `tag_dict` is the corner list of some detected tag. */
  lemma {:induction false} TagDictOfValues(tags: seq<Tag>)
    requires TagDictOf(tags).Ok?
    ensures forall k :: k in TagDictOf(tags).value ==>
      exists i :: 0 <= i < |tags| && TagDictOf(tags).value[k] == tags[i].corners
    decreases |tags|
  {
    if tags != [] {
      var n := |tags| - 1;
      var init := tags[..n];
      TagDictOfValues(init);
      assert forall i :: 0 <= i < n ==> init[i] == tags[i];
    }
  }

  /** Once the loop has raised, later tags change nothing. */
  lemma {:induction false} TagDictOfErrPersists(tags: seq<Tag>, n: nat)
    requires n <= |tags| && TagDictOf(tags[..n]).Err?
    ensures TagDictOf(tags) == TagDictOf(tags[..n])
    decreases |tags| - n
  {
    if n < |tags| {
      assert tags[..n + 1][..n] == tags[..n];
      TagDictOfErrPersists(tags, n + 1);
    } else {
      assert tags[..n] == tags;
    }
  }

  /** The loop of cv/find_move.py that fills `tag_dict`. */
  method BuildTagDict(tags: seq<Tag>) returns (r: Result<TagDict>)
    ensures r == TagDictOf(tags)
  {
    var tagDict: TagDict := map[];
    for n := 0 to |tags|
      invariant TagDictOf(tags[..n]) == Ok(tagDict)
    {
      assert tags[..n + 1][..n] == tags[..n];
      var name := TagName(tags[n]);
      if name.None? {
        TagDictOfErrPersists(tags, n + 1);
        return Err(ValueError);
      }
      tagDict := tagDict[name.value := tags[n].corners];
    }
    assert tags[..|tags|] == tags;
    r := Ok(tagDict);
  }

  /**
   * The gate `len(tag_dict) == 4`: a dictionary whose keys are corner names
   * has four entries exactly when all four corner names are present.
   */
  lemma FourTagsGate(d: TagDict)
    requires forall k :: k in d ==> k in BoardCorners()
    ensures |d| == 4 <==> forall i :: 0 <= i < 4 ==> BoardCornerItems[i].0 in d
  {
    var names := BoardCorners().Keys;
    BoardCornersKeys();
    assert names == {"ROBOT_L", "PLAYER_R", "PLAYER_L", "ROBOT_R"};
    assert |names| == 4;
    if forall i :: 0 <= i < 4 ==> BoardCornerItems[i].0 in d {
      assert BoardCornerItems[0].0 in d && BoardCornerItems[1].0 in d;
      assert BoardCornerItems[2].0 in d && BoardCornerItems[3].0 in d;
      assert names <= d.Keys;
      assert d.Keys == names;
    } else {
      var i :| 0 <= i < 4 && BoardCornerItems[i].0 !in d;
      assert d.Keys <= names - {BoardCornerItems[i].0};
      assert |names - {BoardCornerItems[i].0}| == 3;
      SubsetCardinality(d.Keys, names - {BoardCornerItems[i].0});
    }
  }

  lemma {:induction false} SubsetCardinality<T>(a: set<T>, b: set<T>)
    requires a <= b
    ensures |a| <= |b|
  {
    if a != {} {
      var x :| x in a;
      SubsetCardinality(a - {x}, b - {x});
    }
  }

  /** Whether `tag_dict[name][idx]` for `BoardCorners` item `i` is defined. */
  predicate CornerAvailable(d: TagDict, i: nat)
    requires i < |BoardCornerItems|
  {
    BoardCornerItems[i].0 in d && BoardCornerItems[i].1 < |d[BoardCornerItems[i].0]|
  }

  /**
   * The corner points gathered by the first `n` rounds of the loop over
   * `BoardCorners.items()`, or the error of the round that failed.
   */
  function CornersUpTo(d: TagDict, n: nat): Result<seq<Point>>
    requires n <= |BoardCornerItems|
  {
    if n == 0 then Ok([])
    else
      var prev := CornersUpTo(d, n - 1);
      var (name, idx) := BoardCornerItems[n - 1];
      if prev.Err? then prev
      else if name !in d then Err(KeyError)
      else if idx >= |d[name]| then Err(IndexError)
      else Ok(prev.value + [d[name][idx]])
  }

  /** `corners` after the whole loop over `BoardCorners.items()`. */
  function CornersOf(d: TagDict): Result<seq<Point>>
  {
    CornersUpTo(d, |BoardCornerItems|)
  }

  /**
   * Point `i` of the result is corner `idx_i` of the tag named `name_i`, in
   * dictionary order, once all of them are available; a missing name is a
   * KeyError and a tag with too few corners an IndexError, whichever the
   * loop meets first.
   */
  lemma {:induction false} CornersUpToContents(d: TagDict, n: nat)
    requires n <= |BoardCornerItems|
    ensures CornersUpTo(d, n).Ok? <==> forall i :: 0 <= i < n ==> CornerAvailable(d, i)
    ensures CornersUpTo(d, n).Ok? ==> |CornersUpTo(d, n).value| == n && forall i :: 0 <= i < n ==>
      CornerAvailable(d, i) && CornersUpTo(d, n).value[i] == d[BoardCornerItems[i].0][BoardCornerItems[i].1]
    ensures CornersUpTo(d, n).Err? ==>
      exists i :: (0 <= i < n && !CornerAvailable(d, i) &&
        (forall j :: 0 <= j < i ==> CornerAvailable(d, j)) &&
        CornersUpTo(d, n).error == (if BoardCornerItems[i].0 in d then IndexError else KeyError))
  {
    if n > 0 {
      CornersUpToContents(d, n - 1);
      if CornersUpTo(d, n - 1).Ok? && !CornerAvailable(d, n - 1) {
        assert forall j :: 0 <= j < n - 1 ==> CornerAvailable(d, j);
      }
    }
  }

  /** The whole loop: the four board corners in `BoardCorners` order, or the first lookup error. */
  lemma CornersOfContents(d: TagDict)
    ensures CornersOf(d).Ok? <==> forall i :: 0 <= i < 4 ==> CornerAvailable(d, i)
    ensures CornersOf(d).Ok? ==> |CornersOf(d).value| == 4 && forall i :: 0 <= i < 4 ==>
      CornerAvailable(d, i) && CornersOf(d).value[i] == d[BoardCornerItems[i].0][BoardCornerItems[i].1]
    ensures CornersOf(d).Err? ==> CornersOf(d).error == KeyError || CornersOf(d).error == IndexError
    ensures CornersOf(d).Err? && (forall i :: 0 <= i < 4 ==> BoardCornerItems[i].0 in d) ==>
      CornersOf(d).error == IndexError
    ensures CornersOf(d).Err? && (forall k :: k in d ==> |d[k]| == 4) ==> CornersOf(d).error == KeyError
  {
    CornersUpToContents(d, 4);
  }

  /** The loop over `BoardCorners.items()` that gathers the board's corner points. */
  method ExtractCorners(d: TagDict) returns (r: Result<seq<Point>>)
    ensures r == CornersOf(d)
  {
    var corners: seq<Point> := [];
    for i := 0 to |BoardCornerItems|
      invariant CornersUpTo(d, i) == Ok(corners)
    {
      var (name, idx) := BoardCornerItems[i];
      if name !in d {
        CornersErrPersists(d, i + 1);
        return Err(KeyError);
      }
      if idx >= |d[name]| {
        CornersErrPersists(d, i + 1);
        return Err(IndexError);
      }
      corners := corners + [d[name][idx]];
    }
    r := Ok(corners);
  }

  /** Once a round has failed, the loop's result is that round's error. */
  lemma {:induction false} CornersErrPersists(d: TagDict, n: nat)
    requires n <= |BoardCornerItems| && CornersUpTo(d, n).Err?
    ensures CornersOf(d) == CornersUpTo(d, n)
    decreases |BoardCornerItems| - n
  {
    if n < |BoardCornerItems| {
      CornersErrPersists(d, n + 1);
    }
  }
}
