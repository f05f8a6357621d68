# Contact-GraspNet ROS service node, modelled in Dafny

The node `GraspnetNode` serves `contact_graspnet/get_grasp_result`. Each request
carries an RGB image, a depth image, a segmentation map, the nine values of the
camera matrix and a target segment id. The handler works in five steps:

1. It decodes the images through cv_bridge. A codec error is logged and the call
   ends without a response.
2. It copies the depth image and sets every NaN pixel of the copy to 0.
3. It runs the grasp estimator. `extract_point_clouds` is followed by
   `predict_scene_grasps`, which returns three dictionaries keyed by segment id:
   poses, scores and contact points.
4. It keeps the target key's entries. It zips the three sequences under that key
   and flattens each 4x4 pose row-major into 16 values.
5. When visualisation is on, it sets the flag `main_vis` and overwrites the two
   slots `tmp_img` and `tmp_grasp`. The main loop polls these fields: it renders
   their contents and clears them.

The model has five modules:

- `GraspTypes` (`types.dfy`) holds the values:
  - a depth pixel is `NaN | Val(depth)`;
  - the estimator's outputs are plain data;
  - the estimator itself is a pair of total functions (`Estimator`) held by the node;
  - a codec result is `Decoded(image) | CodecError(message)`.
- `Assembly` (`response.dfy`) covers the target key, the row-major flattening
  and the reshape of the camera matrix. It also holds the zip over the three
  sequences and the specification `Response`. `AssembleResponse` is the
  imperative loop of `inference`, proved to compute `Response`.
- `Depth` (`depth.dfy`) holds the copy and the in-place masked assignment over a
  two-dimensional array. The copy is proved to hold the same pixels as its
  source. The masked assignment is proved against the value-level `CleanGrid`,
  and `HandleGrasp` ties the copy-then-assign pair to `CleanGrid` of the decoded
  image.
- `Handoff` (`handoff.dfy`) is the Idle / PendingRender state machine over
  values, with its single step `Step` and runs of deposits and polls (`Run`).
- `GraspNode` (`node.dfy`) holds the class `GraspnetNode`, whose fields
  `mainVis`, `tmpImg` and `tmpGrasp` are updated by `Deposit` and `Poll`. Its
  `Inference` and `HandleGrasp` methods are specified in terms of the functions
  above.

Some behaviours of the code differ from what a reader of the service might
expect. The model follows the code in each case:

- Zip truncation: one might expect sequences of different lengths under the
  target key to be an error. The code zips them, which silently truncates to
  the shortest, and nothing fails.
- The sentinel -1: one might expect it to stand for "all segments". The code
  simply takes the dictionary entry under key -1; it merges nothing.
- Missing lookups: a target key present among the poses but missing from the
  scores or contact points raises `KeyError`. That call fails and nothing is
  deposited.
- No lock: one might expect the hand-off to be an atomic mailbox. The code uses
  three plain fields written by one thread and read by another. The model
  treats deposit and poll as operations that run one after another.
- Defaults: the constructor's docstring gives z-range [0.2, 1.8] and one
  forward pass. The code passes `z_range` [0.2, 1.1] and `forward_passes` 5 to
  `rospy.get_param`, and the model uses those values.

## Model

| member | source | states |
|---|---|---|
| `Assembly.TargetKey` | contact_graspnet/ros_node.py:104 | the target key is the request's segment id when local regions or grasp filtering is on, and -1 when both are off |
| `Assembly.TargetKeyIgnoresId` | contact_graspnet/ros_node.py:104 | with both flags off, every request id yields the same key, -1 |
| `Assembly.DefaultTargetIsRequestId` | contact_graspnet/ros_node.py:47-48 | under the default parameters (no local regions, filtering on), the target key is the request's segment id |
| `Assembly.FlattenLength` | contact_graspnet/ros_node.py:110 | flattening a matrix of rows of width w gives rows*w values |
| `Assembly.FlattenAt` | contact_graspnet/ros_node.py:110 | element (i, j) of a matrix of width w lies at index w*i + j of its flattening (numpy C order) |
| `Assembly.PoseFlattening` | contact_graspnet/ros_node.py:110 | a 4x4 pose flattens to 16 values, entry 4*i + j being pose[i][j] |
| `Assembly.Reshape` | contact_graspnet/ros_node.py:82 | reshaping the camera matrix succeeds exactly when the sizes agree, and otherwise fails with the array's size |
| `Assembly.ReshapeThenFlatten` | contact_graspnet/ros_node.py:82 | nine values reshape to a 3x3 matrix whose entry (i, j) is k[3*i + j] and whose flattening gives back the nine values |
| `Assembly.FlattenThenReshape` | contact_graspnet/ros_node.py:82 | reshaping a flattened rectangular matrix to its own shape gives back the matrix |
| `Assembly.ZippedAt` | contact_graspnet/ros_node.py:108 | the zip of poses, scores and contacts has the length of the shortest, and its i-th entry is built from the i-th of each |
| `Assembly.ResponseAligned` | contact_graspnet/ros_node.py:105-113 | when all three dictionaries have the target key, the response has min-of-three entries and entry i comes from pose i, score i and contact i, in estimator order |
| `Assembly.ResponsePosesFlattened` | contact_graspnet/ros_node.py:108-112 | each emitted pose is its 4x4 source pose as 16 row-major values |
| `Assembly.ResponseAbsentKey` | contact_graspnet/ros_node.py:105-107 | a target key absent from the pose dictionary gives an empty response, not an error |
| `Assembly.ResponseOnlyTarget` | contact_graspnet/ros_node.py:105-107 | two predictions that agree on the target key give the same response, whatever their other keys hold |
| `Assembly.AssembleResponse` | contact_graspnet/ros_node.py:103-113 | the key-walking loop with its inner zip loop computes `Response`: the target key's entries, empty when it is absent, `KeyError` when scores or contacts lack it |
| `Depth.CleanGrid` | contact_graspnet/ros_node.py:84 | the sanitised depth image has the same shape and no NaN; NaN pixels become 0 and all others keep their value |
| `Depth.CleanGridFixesClean` | contact_graspnet/ros_node.py:84 | sanitisation is idempotent and leaves a NaN-free image unchanged |
| `Depth.CopyDepth` | contact_graspnet/ros_node.py:83 | the copy is a new array with the source's dimensions and pixels |
| `Depth.ZeroNaN` | contact_graspnet/ros_node.py:84 | the masked assignment turns each NaN pixel into 0 in place and leaves every other pixel alone, giving `CleanGrid` of the old image |
| `Handoff.PollRendersOnce` | contact_graspnet/ros_node.py:133-138 | a poll renders a pending payload and leaves Idle; a poll on Idle renders nothing; two polls in a row render at most once |
| `Handoff.LastDepositWins` | contact_graspnet/ros_node.py:116-138 | depositing a, then b, then polling renders exactly b |
| `Handoff.RunState` | contact_graspnet/ros_node.py:116-138 | after any non-empty run of deposits and polls the state depends only on the last operation: the last payload after a deposit, Idle after a poll |
| `Handoff.PollSeesLatest` | contact_graspnet/ros_node.py:116-138 | a poll after a run renders the run's last deposit if nothing polled since, and nothing otherwise |
| `Handoff.RendersBounded` | contact_graspnet/ros_node.py:116-138 | a run renders no more payloads than it deposits, plus the one pending at its start |
| `Handoff.RendersAtMostOnce` | contact_graspnet/ros_node.py:116-138 | counted with multiplicity, the rendered payloads are among the deposited ones plus the one pending at the start, so no deposit is rendered twice |
| `Handoff.RendersWereDeposited` | contact_graspnet/ros_node.py:116-138 | every rendered payload was deposited in the run or was pending at its start |
| `GraspNode.GraspnetNode.constructor` | contact_graspnet/ros_node.py:74-76 | the node starts with the flag clear, both slots empty, state Idle |
| `GraspNode.GraspnetNode.Deposit` | contact_graspnet/ros_node.py:116-119 | sets the flag and overwrites both slots with the new payload: state becomes PendingRender of it, whatever was pending |
| `GraspNode.GraspnetNode.Poll` | contact_graspnet/ros_node.py:133-138 | renders the slots' payload when the flag is set, then clears the flag and both slots; renders nothing when it is clear |
| `GraspNode.GraspnetNode.Inference` | contact_graspnet/ros_node.py:91-123 | returns `Response` of the estimator's prediction for the target key; when visualisation is on and no error was raised, deposits the images with the full, unfiltered pose and score dictionaries; otherwise the hand-off state is unchanged |
| `GraspNode.GraspnetNode.HandleGrasp` | contact_graspnet/ros_node.py:78-89 | a codec error on rgb, seg or depth ends the call with no response and no deposit; a camera array that is not nine values raises; otherwise inference runs on the NaN-free copy of the depth image and the decoded depth array is unchanged |
| `GraspNode.DepositsThenPolls` | contact_graspnet/ros_node.py:116-138 | through the class: two deposits and then a poll render the later payload only, and a second poll renders nothing |

## Left out

- ROS plumbing is not modelled: the node start-up, the parameter server, service registration, the `rate.sleep()` cadence and the `KeyboardInterrupt` shutdown. The configuration is a constructor argument and `DefaultConfig` holds the defaults.
- The main loop `while True` is not modelled as a loop, because it never ends. `Poll` is its body, and `Handoff.Run` describes any finite sequence of its passes together with deposits.
- TensorFlow and GPU set-up, the session, the saver, weight loading and `config_utils.load_config` are left out. They are state of a foreign library.
- The estimator's internals are not modelled. `extract_point_clouds` and `predict_scene_grasps` are opaque total functions of their arguments. Two consequences follow:
  - A failure inside either call propagates as an exception in the code. The model does not represent it, because the functions are total.
  - The model treats the estimator as deterministic: the same inputs always give the same outputs. The session handle and the fourth, unused output of `predict_scene_grasps` are not represented.
- cv_bridge decoding is an external codec. Its outcome for each image message is an input, either a decoded value or an error message. The requested encodings ("rgb8", "passthrough") are not modelled.
- Rendering (`visualize_grasps`, `show_image`), logging and the timing print are I/O. `Poll` returns the payload it would render, and `NoReply` carries the logged codec message.
- The race between the service thread and the main loop is not modelled, since the source has no lock. Deposits and polls are modelled as sequential operations only; atomicity is not claimed.
- Floating-point values are modelled as `real`, and no arithmetic is done on them. Only the depth image distinguishes NaN from a number.
- Python dictionary iteration order is not modelled. `AssembleResponse` visits the keys in any order, and the result cannot depend on the order because only the target key contributes.
