/** Values exchanged between the grasp service, the image codec, the grasp
    estimator and the render loop. Numbers are kept as `real` stand-ins for
    the float64 values of the service; the model never computes with them. */
module GraspTypes {

  datatype Option<T> = None | Some(value: T)

  /** Failures that escape a request. */
  datatype Error =
    | ShapeMismatch(size: nat)   // numpy cannot reshape a flat array of this size
    | KeyMissing(key: int)       // a prediction dictionary has no entry for this key

  datatype Result<T> = Ok(value: T) | Err(error: Error)

  /** What the image codec (cv_bridge) gives back for one image message. */
  datatype Decoded<T> = Decoded(image: T) | CodecError(message: string)

  type Row = seq<real>
  type Matrix = seq<Row>
  /** A 4x4 rigid transform in camera coordinates, as rows. */
  type Pose = Matrix
  type Point = seq<real>
  type Cloud = seq<Point>
  type Colors = seq<seq<int>>
  type RgbImage = seq<seq<seq<int>>>
  type SegMap = seq<seq<int>>

  /** One depth pixel: a float that is either NaN or a number. */
  datatype Pixel = NaN | Val(depth: real)
  type Grid = seq<seq<Pixel>>

  /** Output of extract_point_clouds: the full cloud, one cloud per segment id,
      and the colours of the full cloud. */
  datatype PointClouds = PointClouds(full: Cloud, segments: map<int, Cloud>, colors: Colors)

  /** Output of predict_scene_grasps (its fourth, unused output is dropped):
      three dictionaries keyed by segment id. */
  datatype Prediction = Prediction(
    grasps: map<int, seq<Pose>>,
    scores: map<int, seq<real>>,
    contacts: map<int, seq<Point>>)

  /** One GraspPose message of the response. */
  datatype GraspPose = GraspPose(pose: Row, score: real, contactPt: Point)

  /** Node parameters read once at start-up. */
  datatype Config = Config(
    zRange: seq<real>,
    localRegions: bool,
    filterGrasps: bool,
    skipBorderObjects: bool,
    visualize: bool,
    forwardPasses: int)

  /** The parameter defaults of the node. */
  function DefaultConfig(): Config
  {
    Config([0.2, 1.1], false, true, false, true, 5)
  }

  /** The grasp estimator, seen only through its two calls:
      extract(depth, K, segmap, rgb, skip_border_objects, z_range) and
      predict(pc_full, pc_segments, local_regions, filter_grasps, forward_passes). */
  datatype Estimator = Estimator(
    extract: (Grid, Matrix, SegMap, RgbImage, bool, seq<real>) -> PointClouds,
    predict: (Cloud, map<int, Cloud>, bool, bool, int) -> Prediction)
}
