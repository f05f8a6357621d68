/** The grasp service node: its request handler, the inference step that
    builds the response and deposits the visualisation payload, and the body of
    the main loop that renders and clears that payload. */
module GraspNode {
  import opened GraspTypes
  import opened Assembly
  import opened Depth
  import opened Handoff

  /** How a service call ends: a response, no response after a logged codec
      error, or an exception that escapes the handler. */
  datatype Reply =
    | Answered(poses: seq<GraspPose>)
    | NoReply(logged: string)
    | Raised(error: Error)

  class GraspnetNode {
    const config: Config
    const estimator: Estimator

    // The hand-off fields shared with the main loop.
    var mainVis: bool
    var tmpImg: Option<ImagePair>
    var tmpGrasp: Option<GraspBundle>

    /** The flag is set exactly when both slots hold a payload. */
    predicate Valid()
      reads this
    {
      mainVis == tmpImg.Some? && mainVis == tmpGrasp.Some?
    }

    /** The hand-off state the three fields stand for. */
    function State(): HandoffState
      reads this
      requires Valid()
    {
      if mainVis then PendingRender(Payload(tmpImg.value, tmpGrasp.value)) else Idle
    }

    /** Start-up: the flag is clear and both slots are empty. */
    constructor (config: Config, estimator: Estimator)
      ensures this.config == config && this.estimator == estimator
      ensures !mainVis && tmpImg == None && tmpGrasp == None
      ensures Valid() && State() == Idle
    {
      this.config := config;
      this.estimator := estimator;
      mainVis := false;
      tmpImg := None;
      tmpGrasp := None;
    }

    /** extract_point_clouds with the node's border-skipping flag and z range. */
    function Clouds(depth: Grid, camK: Matrix, seg: SegMap, rgb: RgbImage): PointClouds
    {
      estimator.extract(depth, camK, seg, rgb, config.skipBorderObjects, config.zRange)
    }

    /** predict_scene_grasps with the node's region, filter and pass settings. */
    function Predict(clouds: PointClouds): Prediction
    {
      estimator.predict(clouds.full, clouds.segments, config.localRegions, config.filterGrasps, config.forwardPasses)
    }

    /** The end of `inference`: set the flag and overwrite both slots. */
    method Deposit(p: Payload)
      requires Valid()
      modifies this
      ensures mainVis && tmpImg == Some(p.image) && tmpGrasp == Some(p.grasp)
      ensures Valid() && State() == Step(old(State()), DepositOp(p)).0
    {
      mainVis := true;
      tmpImg := Some(p.image);
      tmpGrasp := Some(p.grasp);
    }

    /** One pass of the main loop: when the flag is set, render the slots'
        payload (returned here) and clear the flag and both slots. */
    method Poll() returns (rendered: Option<Payload>)
      requires Valid()
      modifies this
      ensures !mainVis && tmpImg == None && tmpGrasp == None
      ensures Valid() && (State(), rendered) == Step(old(State()), PollOp)
    {
      rendered := None;
      if mainVis {
        rendered := Some(Payload(tmpImg.value, tmpGrasp.value));
        mainVis := false;
        tmpImg := None;
        tmpGrasp := None;
      }
    }

    /** `inference`: run the estimator, keep the target key's grasps, and when
        visualisation is on deposit the request's images with the full,
        unfiltered prediction. A missing score or contact entry for the target
        raises before anything is deposited. */
    method Inference(rgb: RgbImage, depth: array2<Pixel>, seg: SegMap, camK: Matrix, segmapId: int)
      returns (r: Result<seq<GraspPose>>)
      requires Valid()
      modifies this
      ensures Valid()
      ensures var clouds := Clouds(Snapshot(depth), camK, seg, rgb);
        var pred := Predict(clouds);
        && r == Response(pred, TargetKey(config.localRegions, config.filterGrasps, segmapId))
        && State() == if config.visualize && r.Ok? then PendingRender(PayloadOf(rgb, seg, clouds, pred))
                      else old(State())
    {
      var clouds := Clouds(Snapshot(depth), camK, seg, rgb);
      var pred := Predict(clouds);
      var target := TargetKey(config.localRegions, config.filterGrasps, segmapId);
      r := AssembleResponse(pred, target);
      if r.Err? {
        return;
      }
      if config.visualize {
        Deposit(PayloadOf(rgb, seg, clouds, pred));
      }
    }

    /** `handle_grasp`, with the codec's results for the three image messages
        as inputs: a codec error on any of them is logged and the call ends
        without a response and without running inference; a camera matrix that
        is not nine values raises; otherwise inference runs on a NaN-free copy
        of the depth image and the decoded depth array is left as it was. */
    method HandleGrasp(rgb: Decoded<RgbImage>, seg: Decoded<SegMap>, k: Row,
                       depth: Decoded<array2<Pixel>>, segmapId: int)
      returns (reply: Reply)
      requires Valid()
      modifies this
      ensures Valid()
      ensures depth.Decoded? ==> unchanged(depth.image)
      ensures !reply.Answered? ==> State() == old(State())
      ensures rgb.CodecError? ==> reply == NoReply(rgb.message)
      ensures rgb.Decoded? && seg.CodecError? ==> reply == NoReply(seg.message)
      ensures rgb.Decoded? && seg.Decoded? && |k| != 9 ==> reply == Raised(ShapeMismatch(|k|))
      ensures rgb.Decoded? && seg.Decoded? && |k| == 9 && depth.CodecError? ==>
        reply == NoReply(depth.message)
      ensures rgb.Decoded? && seg.Decoded? && |k| == 9 && depth.Decoded? ==>
        var clouds := Clouds(CleanGrid(Snapshot(depth.image)), Reshape(k, 3, 3).value, seg.image, rgb.image);
        var pred := Predict(clouds);
        var r := Response(pred, TargetKey(config.localRegions, config.filterGrasps, segmapId));
        && reply == (if r.Ok? then Answered(r.value) else Raised(r.error))
        && State() == if config.visualize && r.Ok? then PendingRender(PayloadOf(rgb.image, seg.image, clouds, pred))
                      else old(State())
    {
      if rgb.CodecError? {
        return NoReply(rgb.message);
      }
      if seg.CodecError? {
        return NoReply(seg.message);
      }
      var camK := Reshape(k, 3, 3);
      if camK.Err? {
        return Raised(camK.error);
      }
      if depth.CodecError? {
        return NoReply(depth.message);
      }
      var image := CopyDepth(depth.image);
      ZeroNaN(image);
      var r := Inference(rgb.image, image, seg.image, camK.value, segmapId);
      reply := if r.Ok? then Answered(r.value) else Raised(r.error);
    }
  }

  /** Two requests deposit before the main loop gets to poll: the first poll
      renders only the later payload and the next poll renders nothing. */
  method DepositsThenPolls(config: Config, estimator: Estimator, a: Payload, b: Payload)
    returns (first: Option<Payload>, second: Option<Payload>)
    ensures first == Some(b) && second == None
  {
    var node := new GraspnetNode(config, estimator);
    node.Deposit(a);
    node.Deposit(b);
    first := node.Poll();
    second := node.Poll();
  }
}
