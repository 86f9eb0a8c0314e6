/**
 * The per-lane tire physics component: how the simulated body's position is
 * turned into game units (distance along the track, horizontal position in the
 * lane), how the user's push and steering forces are scaled into the vectors
 * handed to the physics engine, and the reset of the body to its start.
 *
 * The engine itself (integration, air friction, the lane walls) is not modelled:
 * force application is described only by the vector it produces.
 */
module TirePhysics {
  import opened Wrappers

  /** A 2-D vector in physics units: `x` across the lane, `y` along the track. */
  datatype Vec = Vec(x: real, y: real)

  /** Physics units per metre of race distance. */
  const DISTANCE_SCALE: real := 2.5
  /** The horizontal positions reported to the game are kept within these lane bounds. */
  const LANE_MIN: real := 10.0
  const LANE_MAX: real := 90.0
  /** Scale from a game push force to the engine force along the track. */
  const PUSH_FORCE_SCALE: real := 0.001
  /** Scale from a game steering force to the engine force across the lane. */
  const STEER_FORCE_SCALE: real := 0.0005
  /** Where the tire body is created and where a reset puts it back. */
  const START_POSITION: Vec := Vec(50.0, 0.0)
  const ZERO: Vec := Vec(0.0, 0.0)

  function Max(a: real, b: real): real { if a >= b then a else b }
  function Min(a: real, b: real): real { if a <= b then a else b }

  /** Race distance in metres for a body at track coordinate `y`: never negative. */
  function Distance(y: real): (d: real)
    ensures d >= 0.0
    ensures y >= 0.0 ==> d * DISTANCE_SCALE == y
    ensures y <= 0.0 ==> d == 0.0
  {
    Max(0.0, y / DISTANCE_SCALE)
  }

  /** Horizontal position reported for a body at lane coordinate `x`: `x` clamped to the lane. */
  function HorizontalPos(x: real): (h: real)
    ensures LANE_MIN <= h <= LANE_MAX
    ensures LANE_MIN <= x <= LANE_MAX ==> h == x
    ensures x < LANE_MIN ==> h == LANE_MIN
    ensures x > LANE_MAX ==> h == LANE_MAX
  {
    Max(LANE_MIN, Min(LANE_MAX, x))
  }

  /** A body further along the track never reports a smaller distance. */
  lemma DistanceMonotone(y1: real, y2: real)
    requires y1 <= y2
    ensures Distance(y1) <= Distance(y2)
  {
  }

  /** A body further right never reports a smaller horizontal position. */
  lemma HorizontalPosMonotone(x1: real, x2: real)
    requires x1 <= x2
    ensures HorizontalPos(x1) <= HorizontalPos(x2)
  {
  }

  /** Clamping a reported horizontal position again changes nothing. */
  lemma HorizontalPosIdempotent(x: real)
    ensures HorizontalPos(HorizontalPos(x)) == HorizontalPos(x)
  {
  }

  /**
   * The engine force applied for a game push force, or `None` when the force is
   * zero and nothing is applied. The force acts only along the track, and the
   * game force can be read back from it.
   */
  function PushVector(pushForce: real): (v: Option<Vec>)
    ensures v.Some? <==> pushForce != 0.0
    ensures v.Some? ==> v.value.x == 0.0 && v.value.y / PUSH_FORCE_SCALE == pushForce
  {
    if pushForce != 0.0 then Some(Vec(0.0, pushForce * PUSH_FORCE_SCALE)) else None
  }

  /**
   * The engine force applied for a game steering force, or `None` when it is
   * zero. The force acts only across the lane.
   */
  function SteerVector(horizontalForce: real): (v: Option<Vec>)
    ensures v.Some? <==> horizontalForce != 0.0
    ensures v.Some? ==> v.value.y == 0.0 && v.value.x / STEER_FORCE_SCALE == horizontalForce
  {
    if horizontalForce != 0.0 then Some(Vec(horizontalForce * STEER_FORCE_SCALE, 0.0)) else None
  }

  /** An applied force points the same way as the game force that caused it. */
  lemma AppliedForceKeepsDirection(f: real)
    ensures PushVector(f).Some? ==> (f > 0.0 <==> PushVector(f).value.y > 0.0)
    ensures SteerVector(f).Some? ==> (f > 0.0 <==> SteerVector(f).value.x > 0.0)
  {
  }

  /** The part of the body's state that a reset writes. */
  datatype BodyState = BodyState(position: Vec, velocity: Vec)

  /** The state of a body after a reset from state `b`. */
  function ResetBody(b: BodyState): BodyState
  {
    BodyState(START_POSITION, ZERO)
  }

  /** A reset ignores the prior state, so resetting twice is resetting once. */
  lemma ResetBodyIdempotent(b: BodyState, c: BodyState)
    ensures ResetBody(b) == ResetBody(c)
    ensures ResetBody(ResetBody(b)) == ResetBody(b)
    ensures ResetBody(b).position == START_POSITION && ResetBody(b).velocity == ZERO
  {
  }

  /** The simulated tire body of one lane. */
  class TireBody {
    var position: Vec
    var velocity: Vec

    function State(): BodyState
      reads this
    {
      BodyState(position, velocity)
    }

    /** A new body sits at the start position, at rest. */
    constructor ()
      ensures position == START_POSITION && velocity == ZERO
    {
      position := START_POSITION;
      velocity := ZERO;
    }

    /** Reset: move the body to the start position and stop it. */
    method Reset()
      modifies this
      ensures State() == ResetBody(old(State()))
    {
      position := Vec(50.0, 0.0);
      velocity := Vec(0.0, 0.0);
    }

    /**
     * The values handed to the game after a physics step: the distance and the
     * horizontal position of the body in game units.
     */
    method ReportPosition() returns (distance: real, horizontalPos: real)
      ensures distance == Distance(position.y) && horizontalPos == HorizontalPos(position.x)
      ensures distance >= 0.0 && LANE_MIN <= horizontalPos <= LANE_MAX
    {
      distance := Distance(position.y);
      horizontalPos := HorizontalPos(position.x);
    }
  }
}
