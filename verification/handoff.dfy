/** The visualisation hand-off between the service handler and the main loop,
    as a state machine over values: a deposit fills the single slot
    (overwriting whatever was there) and a poll renders the slot's payload, if
    any, and empties it. The node class keeps this state in three fields. */
module Handoff {
  import opened GraspTypes

  /** The arguments of show_image, kept in `tmp_img`. */
  datatype ImagePair = ImagePair(rgb: RgbImage, seg: SegMap)

  /** The arguments of visualize_grasps, kept in `tmp_grasp`: the full cloud,
      the unfiltered pose and score dictionaries, a flag the handler always
      passes as true, and the cloud colours. */
  datatype GraspBundle = GraspBundle(
    pcFull: Cloud,
    grasps: map<int, seq<Pose>>,
    scores: map<int, seq<real>>,
    flag: bool,
    colors: Colors)

  datatype Payload = Payload(image: ImagePair, grasp: GraspBundle)

  /** Idle: nothing to render. PendingRender: a payload awaits the main loop. */
  datatype HandoffState = Idle | PendingRender(payload: Payload)

  datatype Op = DepositOp(payload: Payload) | PollOp

  /** What the end of `inference` deposits for one request. */
  function PayloadOf(rgb: RgbImage, seg: SegMap, clouds: PointClouds, pred: Prediction): Payload
  {
    Payload(ImagePair(rgb, seg), GraspBundle(clouds.full, pred.grasps, pred.scores, true, clouds.colors))
  }

  /** One operation: the new state and what, if anything, was rendered. */
  function Step(s: HandoffState, op: Op): (HandoffState, Option<Payload>)
  {
    match op
    case DepositOp(p) => (PendingRender(p), None)
    case PollOp => if s.PendingRender? then (Idle, Some(s.payload)) else (Idle, None)
  }

  /** Operations applied one after another: the final state and every payload
      rendered, in order. */
  function Run(s: HandoffState, ops: seq<Op>): (HandoffState, seq<Payload>)
    decreases |ops|
  {
    if ops == [] then (s, [])
    else
      var step := Step(s, ops[0]);
      var rest := Run(step.0, ops[1..]);
      (rest.0, (if step.1.Some? then [step.1.value] else []) + rest.1)
  }

  /** The payloads deposited by a run, in order. */
  function Deposits(ops: seq<Op>): seq<Payload>
    decreases |ops|
  {
    if ops == [] then []
    else (if ops[0].DepositOp? then [ops[0].payload] else []) + Deposits(ops[1..])
  }

  /** The state that the last operation of a run leaves. */
  function After(op: Op): HandoffState
  {
    match op
    case DepositOp(p) => PendingRender(p)
    case PollOp => Idle
  }

  /** A poll renders a pending payload once; a second poll renders nothing. */
  lemma PollRendersOnce(s: HandoffState)
    ensures s.PendingRender? ==> Step(s, PollOp) == (Idle, Some(s.payload))
    ensures s.Idle? ==> Step(s, PollOp) == (Idle, None)
    ensures Step(Step(s, PollOp).0, PollOp) == (Idle, None)
  {
  }

  /** Depositing a and then b before a poll: the poll renders b only. */
  lemma LastDepositWins(s: HandoffState, a: Payload, b: Payload)
    ensures Run(s, [DepositOp(a), DepositOp(b), PollOp]) == (Idle, [b])
  {
    assert [DepositOp(a), DepositOp(b), PollOp][1..] == [DepositOp(b), PollOp];
    assert [DepositOp(b), PollOp][1..] == [PollOp];
    assert [PollOp][1..] == [];
    assert [b] + [] == [b] == [] + [b];
    assert Run(PendingRender(b), [PollOp]) == (Idle, [b]);
    assert Run(Step(s, DepositOp(a)).0, [DepositOp(b), PollOp]) == (Idle, [b]);
  }

  /** The state after a non-empty run depends on its last operation only:
      pending with the last payload after a deposit, idle after a poll. */
  lemma {:induction false} RunState(s: HandoffState, ops: seq<Op>)
    ensures Run(s, ops).0 == if ops == [] then s else After(ops[|ops| - 1])
    decreases |ops|
  {
    if ops != [] {
      RunState(Step(s, ops[0]).0, ops[1..]);
      if |ops| > 1 {
        assert ops[1..][|ops[1..]| - 1] == ops[|ops| - 1];
      }
    }
  }

  /** A poll after a run renders the payload of the run's last operation if it
      was a deposit, and nothing if it was a poll. */
  lemma PollSeesLatest(s: HandoffState, ops: seq<Op>)
    requires ops != []
    ensures Step(Run(s, ops).0, PollOp).1 ==
      if ops[|ops| - 1].DepositOp? then Some(ops[|ops| - 1].payload) else None
  {
    RunState(s, ops);
  }

  /** Nothing is rendered more often than it was deposited: a run renders at
      most one payload per deposit, plus the one pending at its start. */
  lemma {:induction false} RendersBounded(s: HandoffState, ops: seq<Op>)
    ensures |Run(s, ops).1| <= |Deposits(ops)| + (if s.PendingRender? then 1 else 0)
    decreases |ops|
  {
    if ops != [] {
      RendersBounded(Step(s, ops[0]).0, ops[1..]);
    }
  }

  /** Every rendered payload was deposited during the run or pending at its start. */
  lemma {:induction false} RendersWereDeposited(s: HandoffState, ops: seq<Op>)
    ensures forall p :: p in Run(s, ops).1 ==>
      p in Deposits(ops) || (s.PendingRender? && p == s.payload)
    decreases |ops|
  {
    if ops != [] {
      var next := Step(s, ops[0]).0;
      RendersWereDeposited(next, ops[1..]);
    }
  }

  /** No payload is rendered more often than it was deposited: the rendered
      payloads, counted with multiplicity, are among the deposited ones plus
      the one pending at the start. */
  lemma {:induction false} RendersAtMostOnce(s: HandoffState, ops: seq<Op>)
    ensures multiset(Run(s, ops).1)
      <= multiset(Deposits(ops)) + (if s.PendingRender? then multiset{s.payload} else multiset{})
    decreases |ops|
  {
    if ops != [] {
      RendersAtMostOnce(Step(s, ops[0]).0, ops[1..]);
    }
  }
}
