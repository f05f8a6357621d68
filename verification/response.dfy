/** Building the service response from the estimator's prediction dictionaries:
    choosing the target segment id, zipping its poses, scores and contact
    points, and flattening each pose row-major (numpy's C order). The camera
    matrix of the request goes the other way, from 9 values to 3x3. */
module Assembly {
  import opened GraspTypes

  /** The key whose grasps are returned: the request's segment id when grasps
      are cropped or filtered by segment, and the sentinel -1 otherwise. */
  function TargetKey(localRegions: bool, filterGrasps: bool, segmapId: int): (key: int)
    ensures localRegions || filterGrasps ==> key == segmapId
    ensures !localRegions && !filterGrasps ==> key == -1
  {
    if localRegions || filterGrasps then segmapId else -1
  }

  /** With both flags off the request's segment id is ignored. */
  lemma TargetKeyIgnoresId(a: int, b: int)
    ensures TargetKey(false, false, a) == TargetKey(false, false, b) == -1
  {
  }

  /** Under the parameter defaults grasps are filtered by the request's id. */
  lemma DefaultTargetIsRequestId(segmapId: int)
    ensures TargetKey(DefaultConfig().localRegions, DefaultConfig().filterGrasps, segmapId) == segmapId
  {
  }

  // ---------------------------------------------------------------------
  // Row-major flattening and reshaping

  /** The rows of a matrix laid end to end. */
  function Flatten(m: Matrix): Row
  {
    if m == [] then [] else m[0] + Flatten(m[1..])
  }

  ghost predicate Rectangular(m: Matrix, width: nat)
  {
    forall i :: 0 <= i < |m| ==> |m[i]| == width
  }

  lemma {:induction false} FlattenLength(m: Matrix, width: nat)
    requires Rectangular(m, width)
    ensures |Flatten(m)| == |m| * width
  {
    if m != [] {
      FlattenLength(m[1..], width);
      assert |m| * width == width + (|m| - 1) * width;
    }
  }

  /** Element (i, j) of a matrix of the given width lands at width * i + j
      of its flattening (numpy's C order). */
  lemma {:induction false} FlattenAt(m: Matrix, width: nat, i: nat, j: nat)
    requires Rectangular(m, width)
    requires i < |m| && j < width
    ensures width * i + j < |Flatten(m)|
    ensures Flatten(m)[width * i + j] == m[i][j]
    decreases i
  {
    FlattenLength(m, width);
    assert width * i + j < |m| * width by {
      assert width * i + j < width * i + width == width * (i + 1);
      assert i + 1 <= |m|;
      MulMonotone(width, i + 1, |m|);
    }
    if i > 0 {
      var rest := m[1..];
      FlattenAt(rest, width, i - 1, j);
      assert width * i + j == width + (width * (i - 1) + j);
      assert |m[0]| == width;
    }
  }

  lemma MulMonotone(w: nat, a: nat, b: nat)
    requires a <= b
    ensures w * a <= w * b
  {
  }

  predicate IsPose(p: Pose)
  {
    |p| == 4 && forall i :: 0 <= i < 4 ==> |p[i]| == 4
  }

  /** A 4x4 pose flattens to 16 values with entry 4 * i + j equal to pose[i][j]. */
  lemma PoseFlattening(p: Pose)
    requires IsPose(p)
    ensures |Flatten(p)| == 16
    ensures forall i, j :: 0 <= i < 4 && 0 <= j < 4 ==> Flatten(p)[4 * i + j] == p[i][j]
  {
    FlattenLength(p, 4);
    forall i, j | 0 <= i < 4 && 0 <= j < 4
      ensures Flatten(p)[4 * i + j] == p[i][j]
    {
      FlattenAt(p, 4, i, j);
    }
  }

  /** Consecutive runs of `cols` values, `rows` of them. */
  function Chunk(flat: Row, rows: nat, cols: nat): Matrix
    requires |flat| == rows * cols
    decreases rows
  {
    if rows == 0 then []
    else
      assert rows * cols == cols + (rows - 1) * cols;
      [flat[..cols]] + Chunk(flat[cols..], rows - 1, cols)
  }

  /** numpy's reshape(rows, cols) of a flat array: an error unless the sizes agree. */
  function Reshape(flat: Row, rows: nat, cols: nat): (r: Result<Matrix>)
    ensures r.Ok? <==> |flat| == rows * cols
    ensures r.Err? ==> r.error == ShapeMismatch(|flat|)
  {
    if |flat| == rows * cols then Ok(Chunk(flat, rows, cols)) else Err(ShapeMismatch(|flat|))
  }

  lemma {:induction false} ChunkShape(flat: Row, rows: nat, cols: nat)
    requires |flat| == rows * cols
    ensures |Chunk(flat, rows, cols)| == rows && Rectangular(Chunk(flat, rows, cols), cols)
    decreases rows
  {
    if rows > 0 {
      assert rows * cols == cols + (rows - 1) * cols;
      ChunkShape(flat[cols..], rows - 1, cols);
    }
  }

  lemma {:induction false} FlattenChunk(flat: Row, rows: nat, cols: nat)
    requires |flat| == rows * cols
    ensures Flatten(Chunk(flat, rows, cols)) == flat
    decreases rows
  {
    if rows > 0 {
      assert rows * cols == cols + (rows - 1) * cols;
      var c := Chunk(flat, rows, cols);
      FlattenChunk(flat[cols..], rows - 1, cols);
      assert c[0] == flat[..cols];
      assert c[1..] == Chunk(flat[cols..], rows - 1, cols);
      assert flat == flat[..cols] + flat[cols..];
    }
  }

  lemma {:induction false} ChunkFlatten(m: Matrix, cols: nat)
    requires Rectangular(m, cols)
    ensures |Flatten(m)| == |m| * cols
    ensures Chunk(Flatten(m), |m|, cols) == m
  {
    FlattenLength(m, cols);
    if m != [] {
      var rest := m[1..];
      ChunkFlatten(rest, cols);
      assert Flatten(m) == m[0] + Flatten(rest);
      assert Flatten(m)[..cols] == m[0];
      assert Flatten(m)[cols..] == Flatten(rest);
      assert m == [m[0]] + rest;
    }
  }

  /** Reshaping the nine values of the camera matrix gives a 3x3 matrix whose
      row-major flattening is those nine values again, entry (i, j) being k[3 * i + j]. */
  lemma ReshapeThenFlatten(k: Row)
    requires |k| == 9
    ensures Reshape(k, 3, 3).Ok?
    ensures Flatten(Reshape(k, 3, 3).value) == k
    ensures forall i, j :: 0 <= i < 3 && 0 <= j < 3 ==> Reshape(k, 3, 3).value[i][j] == k[3 * i + j]
  {
    var m := Chunk(k, 3, 3);
    ChunkShape(k, 3, 3);
    FlattenChunk(k, 3, 3);
    forall i, j | 0 <= i < 3 && 0 <= j < 3
      ensures m[i][j] == k[3 * i + j]
    {
      FlattenAt(m, 3, i, j);
    }
  }

  /** Flattening a rectangular matrix and reshaping back gives the matrix. */
  lemma FlattenThenReshape(m: Matrix, cols: nat)
    requires Rectangular(m, cols)
    ensures Reshape(Flatten(m), |m|, cols) == Ok(m)
  {
    ChunkFlatten(m, cols);
  }

  // ---------------------------------------------------------------------
  // Zipping the per-key sequences

  /** The response entry built from one pose, score and contact point. */
  function Entry(pose: Pose, score: real, contact: Point): GraspPose
  {
    GraspPose(Flatten(pose), score, contact)
  }

  function Min3(a: nat, b: nat, c: nat): nat
  {
    if a <= b && a <= c then a else if b <= c then b else c
  }

  /** Python's zip over the three sequences, one entry per aligned triple,
      stopping at the end of the shortest. */
  function Zipped(poses: seq<Pose>, scores: seq<real>, contacts: seq<Point>): seq<GraspPose>
  {
    if poses == [] || scores == [] || contacts == [] then []
    else [Entry(poses[0], scores[0], contacts[0])] + Zipped(poses[1..], scores[1..], contacts[1..])
  }

  lemma {:induction false} ZippedAt(poses: seq<Pose>, scores: seq<real>, contacts: seq<Point>)
    ensures |Zipped(poses, scores, contacts)| == Min3(|poses|, |scores|, |contacts|)
    ensures forall i :: 0 <= i < |Zipped(poses, scores, contacts)| ==>
      Zipped(poses, scores, contacts)[i] == Entry(poses[i], scores[i], contacts[i])
  {
    if poses != [] && scores != [] && contacts != [] {
      ZippedAt(poses[1..], scores[1..], contacts[1..]);
    }
  }

  /** The response `inference` returns for a prediction and a target key: the
      zipped entries under the key, nothing when the key is absent, and the
      KeyError of a lookup in the score or contact dictionary. */
  function Response(pred: Prediction, target: int): Result<seq<GraspPose>>
  {
    if target !in pred.grasps then Ok([])
    else if target !in pred.scores || target !in pred.contacts then Err(KeyMissing(target))
    else Ok(Zipped(pred.grasps[target], pred.scores[target], pred.contacts[target]))
  }

  /** The i-th response entry comes from the i-th pose, score and contact point
      under the target key, and there are as many as the shortest of the three. */
  lemma ResponseAligned(pred: Prediction, target: int)
    requires target in pred.grasps && target in pred.scores && target in pred.contacts
    ensures Response(pred, target).Ok?
    ensures |Response(pred, target).value|
      == Min3(|pred.grasps[target]|, |pred.scores[target]|, |pred.contacts[target]|)
    ensures forall i :: 0 <= i < |Response(pred, target).value| ==>
      Response(pred, target).value[i]
        == Entry(pred.grasps[target][i], pred.scores[target][i], pred.contacts[target][i])
  {
    ZippedAt(pred.grasps[target], pred.scores[target], pred.contacts[target]);
  }

  /** Every emitted pose is its 4x4 source pose flattened to 16 values, row-major. */
  lemma ResponsePosesFlattened(pred: Prediction, target: int)
    requires target in pred.grasps && target in pred.scores && target in pred.contacts
    requires forall n :: 0 <= n < |pred.grasps[target]| ==> IsPose(pred.grasps[target][n])
    ensures Response(pred, target).Ok?
    ensures |Response(pred, target).value| <= |pred.grasps[target]|
    ensures forall n :: 0 <= n < |Response(pred, target).value| ==>
      IsPose(pred.grasps[target][n]) &&
      |Response(pred, target).value[n].pose| == 16 &&
      forall i, j :: 0 <= i < 4 && 0 <= j < 4 ==>
        Response(pred, target).value[n].pose[4 * i + j] == pred.grasps[target][n][i][j]
  {
    ResponseAligned(pred, target);
    var resp := Response(pred, target).value;
    forall n | 0 <= n < |resp|
      ensures IsPose(pred.grasps[target][n]) && |resp[n].pose| == 16
      ensures forall i, j :: 0 <= i < 4 && 0 <= j < 4 ==> resp[n].pose[4 * i + j] == pred.grasps[target][n][i][j]
    {
      PoseFlattening(pred.grasps[target][n]);
    }
  }

  /** An absent target key is an empty response, not an error. */
  lemma ResponseAbsentKey(pred: Prediction, target: int)
    requires target !in pred.grasps
    ensures Response(pred, target) == Ok([])
  {
  }

  /** Entries under keys other than the target never reach the response. */
  lemma ResponseOnlyTarget(pred: Prediction, other: Prediction, target: int)
    requires (target in pred.grasps) == (target in other.grasps)
    requires target in pred.grasps ==> other.grasps[target] == pred.grasps[target]
    requires (target in pred.scores) == (target in other.scores)
    requires target in pred.scores ==> other.scores[target] == pred.scores[target]
    requires (target in pred.contacts) == (target in other.contacts)
    requires target in pred.contacts ==> other.contacts[target] == pred.contacts[target]
    ensures Response(pred, target) == Response(other, target)
  {
  }

  /** A non-empty key set has a member to pick. */
  lemma NonEmptyHasMember(s: set<int>)
    requires s != {}
    ensures exists k :: k in s
  {
    if forall k :: k !in s {
      assert false;
    }
  }

  /** The loop of `inference`: walk the keys of the pose dictionary, skip every
      key but the target, and append one entry per zipped triple. */
  method AssembleResponse(pred: Prediction, target: int) returns (r: Result<seq<GraspPose>>)
    ensures r == Response(pred, target)
  {
    var poses: seq<GraspPose> := [];
    var keys := pred.grasps.Keys;
    while keys != {}
      invariant keys <= pred.grasps.Keys
      invariant target in pred.grasps && target !in keys ==>
        target in pred.scores && target in pred.contacts &&
        poses == Zipped(pred.grasps[target], pred.scores[target], pred.contacts[target])
      invariant target !in pred.grasps || target in keys ==> poses == []
      decreases keys
    {
      NonEmptyHasMember(keys);
      var k :| k in keys;
      keys := keys - {k};
      if k != target {
        continue;
      }
      if k !in pred.scores || k !in pred.contacts {
        return Err(KeyMissing(k));
      }
      var ps, ss, cs := pred.grasps[k], pred.scores[k], pred.contacts[k];
      var i := 0;
      while i < |ps| && i < |ss| && i < |cs|
        invariant i <= |ps| && i <= |ss| && i <= |cs|
        invariant |poses| == i
        invariant forall j :: 0 <= j < i ==> poses[j] == Entry(ps[j], ss[j], cs[j])
      {
        poses := poses + [Entry(ps[i], ss[i], cs[i])];
        i := i + 1;
      }
      ZippedAt(ps, ss, cs);
      assert poses == Zipped(ps, ss, cs);
    }
    return Ok(poses);
  }
}
