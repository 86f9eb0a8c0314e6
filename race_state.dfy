/**
 * The two-lane race game state and the effect of each of its handlers, as pure
 * transitions on the state record. The class in RaceController holds the same
 * fields and each of its methods is proved to perform exactly one of these
 * transitions.
 *
 * Beside the single-step effects, a run of the game is a sequence of events
 * (user input, timer expiries, position reports from the two tire bodies and
 * the finish-line check), and the lemmas at the end are about such runs.
 */
module RaceState {
  import opened Wrappers
  import TirePhysics

  datatype Side = Left | Right
  datatype Screen = StartScreen | GameScreen

  /** Race distance in metres at which a lane wins. */
  const FINISH_LINE: real := 100.0
  /** Push force set by a forward push. */
  const PUSH_FORCE: real := 5.0
  /** Push force set by a pull back: backwards, and weaker than a forward push. */
  const PULL_BACK_FORCE: real := -3.0
  /** Magnitude of the horizontal force set by a steer. */
  const STEER_FORCE: real := 2.0
  /** Horizontal position of a tire at the start of a race. */
  const LANE_CENTER: real := 50.0

  /**
   * The fields of the game state that belong to one lane: the car's distance
   * and horizontal position, its push count, and its pending push and
   * horizontal forces (for the left lane these are `leftCarDistance`,
   * `leftHorizontalPos`, `leftPushes`, `leftPushForce`, `leftHorizontalForce`).
   */
  datatype Lane = Lane(distance: real, horizontalPos: real, pushes: nat, pushForce: real, horizontalForce: real)

  /** The whole game state record: the two lanes and the fields they share. */
  datatype GameState = GameState(
    left: Lane,
    right: Lane,
    isGameActive: bool,
    winner: Option<Side>,
    currentScreen: Screen,
    resetTrigger: nat)

  /** The fields that both lanes share: the phase, the winner and the reset counter. */
  datatype Shared = Shared(isGameActive: bool, winner: Option<Side>, currentScreen: Screen, resetTrigger: nat)

  function Other(side: Side): Side
  {
    if side == Left then Right else Left
  }

  function LaneOf(s: GameState, side: Side): Lane
  {
    if side == Left then s.left else s.right
  }

  /** `s` with the lane of `side` replaced by `lane`. */
  function WithLane(s: GameState, side: Side, lane: Lane): GameState
  {
    if side == Left then s.(left := lane) else s.(right := lane)
  }

  function SharedOf(s: GameState): Shared
  {
    Shared(s.isGameActive, s.winner, s.currentScreen, s.resetTrigger)
  }

  /** A lane as it is at the start of every race. */
  const FreshLane: Lane := Lane(0.0, LANE_CENTER, 0, 0.0, 0.0)

  /** The state when the game is first shown. */
  const Initial: GameState := GameState(FreshLane, FreshLane, false, None, StartScreen, 0)

  /** Leaving the start screen: only the screen changes. */
  function ShowGameScreen(s: GameState): GameState
  {
    s.(currentScreen := GameScreen)
  }

  /**
   * Start (or restart) a race on the game screen: every field is written, both
   * lanes back at the start, and the reset trigger moves on by one.
   */
  function StartGame(s: GameState): GameState
  {
    GameState(FreshLane, FreshLane, true, None, GameScreen, s.resetTrigger + 1)
  }

  /** Abandon or finish a race and go back to the start screen. */
  function ResetGame(s: GameState): GameState
  {
    GameState(FreshLane, FreshLane, false, None, StartScreen, s.resetTrigger + 1)
  }

  /** User input is taken only while a race is running and nobody has won. */
  predicate Accepting(s: GameState)
  {
    s.isGameActive && s.winner.None?
  }

  /** A forward push: sets the lane's push force and counts the push. */
  function PushCar(s: GameState, side: Side): GameState
  {
    if !Accepting(s) then s
    else
      var lane := LaneOf(s, side);
      WithLane(s, side, lane.(pushForce := PUSH_FORCE, pushes := lane.pushes + 1))
  }

  /** A pull back: sets the lane's push force backwards, without counting a push. */
  function PullBackCar(s: GameState, side: Side): GameState
  {
    if !Accepting(s) then s
    else WithLane(s, side, LaneOf(s, side).(pushForce := PULL_BACK_FORCE))
  }

  /** The horizontal force for a steering direction. */
  function SteerForce(direction: Side): real
  {
    if direction == Left then -STEER_FORCE else STEER_FORCE
  }

  /** A steer: sets the lane's horizontal force. */
  function SteerCar(s: GameState, side: Side, direction: Side): GameState
  {
    if !Accepting(s) then s
    else WithLane(s, side, LaneOf(s, side).(horizontalForce := SteerForce(direction)))
  }

  /** The callback that fires 100 ms after a push or pull back: the push force returns to zero. */
  function ExpirePushForce(s: GameState, side: Side): GameState
  {
    WithLane(s, side, LaneOf(s, side).(pushForce := 0.0))
  }

  /** The callback that fires 150 ms after a steer: the horizontal force returns to zero. */
  function ExpireHorizontalForce(s: GameState, side: Side): GameState
  {
    WithLane(s, side, LaneOf(s, side).(horizontalForce := 0.0))
  }

  /** A position report from one lane's tire body; taken in every phase. */
  function UpdatePosition(s: GameState, side: Side, distance: real, horizontalPos: real): GameState
  {
    WithLane(s, side, LaneOf(s, side).(distance := distance, horizontalPos := horizontalPos))
  }

  /** The finish-line check: the left lane is looked at first, and only while there is no winner. */
  function DetectWinner(s: GameState): GameState
  {
    if s.left.distance >= FINISH_LINE && s.winner.None? then
      s.(winner := Some(Left), isGameActive := false)
    else if s.right.distance >= FINISH_LINE && s.winner.None? then
      s.(winner := Some(Right), isGameActive := false)
    else
      s
  }

  // ---------------------------------------------------------------------------
  // Single-step effects

  /** Push, pull back and steer leave the state unchanged unless a race is running without a winner. */
  lemma InputIgnoredUnlessAccepting(s: GameState, side: Side, direction: Side)
    requires !Accepting(s)
    ensures PushCar(s, side) == s
    ensures PullBackCar(s, side) == s
    ensures SteerCar(s, side, direction) == s
  {
  }

  /** An accepted push sets that lane's push force to 5 and adds exactly one push; nothing else changes. */
  lemma PushCarEffect(s: GameState, side: Side)
    requires Accepting(s)
    ensures LaneOf(PushCar(s, side), side)
         == LaneOf(s, side).(pushForce := PUSH_FORCE, pushes := LaneOf(s, side).pushes + 1)
    ensures LaneOf(PushCar(s, side), Other(side)) == LaneOf(s, Other(side))
    ensures SharedOf(PushCar(s, side)) == SharedOf(s)
  {
  }

  /**
   * An accepted pull back sets that lane's push force to -3, weaker than the
   * forward push; no push count changes and nothing else does either.
   */
  lemma PullBackCarEffect(s: GameState, side: Side)
    requires Accepting(s)
    ensures LaneOf(PullBackCar(s, side), side) == LaneOf(s, side).(pushForce := PULL_BACK_FORCE)
    ensures LaneOf(PullBackCar(s, side), Other(side)) == LaneOf(s, Other(side))
    ensures SharedOf(PullBackCar(s, side)) == SharedOf(s)
    ensures PULL_BACK_FORCE < 0.0 && -PULL_BACK_FORCE < PUSH_FORCE
  {
  }

  /** An accepted steer sets only that lane's horizontal force: -2 to the left, +2 to the right. */
  lemma SteerCarEffect(s: GameState, side: Side, direction: Side)
    requires Accepting(s)
    ensures LaneOf(SteerCar(s, side, direction), side)
         == LaneOf(s, side).(horizontalForce := if direction == Left then -2.0 else 2.0)
    ensures LaneOf(SteerCar(s, side, direction), Other(side)) == LaneOf(s, Other(side))
    ensures SharedOf(SteerCar(s, side, direction)) == SharedOf(s)
  {
  }

  /** Each expiry callback zeroes one force field of one lane; the phase and winner stay as they are. */
  lemma ExpiryEffect(s: GameState, side: Side)
    ensures LaneOf(ExpirePushForce(s, side), side) == LaneOf(s, side).(pushForce := 0.0)
    ensures LaneOf(ExpirePushForce(s, side), Other(side)) == LaneOf(s, Other(side))
    ensures SharedOf(ExpirePushForce(s, side)) == SharedOf(s)
    ensures LaneOf(ExpireHorizontalForce(s, side), side) == LaneOf(s, side).(horizontalForce := 0.0)
    ensures LaneOf(ExpireHorizontalForce(s, side), Other(side)) == LaneOf(s, Other(side))
    ensures SharedOf(ExpireHorizontalForce(s, side)) == SharedOf(s)
  {
  }

  /**
   * Starting puts both lanes back at the start and opens a race without a
   * winner; resetting does the same but closes the race and shows the start
   * screen. Both bump the reset trigger by one.
   */
  lemma StartAndResetEffect(s: GameState)
    ensures LaneOf(StartGame(s), Left) == FreshLane && LaneOf(StartGame(s), Right) == FreshLane
    ensures SharedOf(StartGame(s)) == Shared(true, None, GameScreen, s.resetTrigger + 1)
    ensures LaneOf(ResetGame(s), Left) == FreshLane && LaneOf(ResetGame(s), Right) == FreshLane
    ensures SharedOf(ResetGame(s)) == Shared(false, None, StartScreen, s.resetTrigger + 1)
    ensures ResetGame(s) == StartGame(s).(isGameActive := false, currentScreen := StartScreen)
  {
  }

  /** A position report writes only that lane's distance and horizontal position, in any phase. */
  lemma UpdatePositionEffect(s: GameState, side: Side, distance: real, horizontalPos: real)
    ensures LaneOf(UpdatePosition(s, side, distance, horizontalPos), side)
         == LaneOf(s, side).(distance := distance, horizontalPos := horizontalPos)
    ensures LaneOf(UpdatePosition(s, side, distance, horizontalPos), Other(side)) == LaneOf(s, Other(side))
    ensures SharedOf(UpdatePosition(s, side, distance, horizontalPos)) == SharedOf(s)
  {
  }

  /**
   * The finish-line check declares the left lane winner exactly when it has
   * reached the line and nobody has won yet; the right lane only when the left
   * lane has not reached it. A declared winner ends the race. Once a winner is
   * recorded the check changes nothing, and it never touches a lane.
   */
  lemma DetectWinnerEffect(s: GameState)
    ensures s.winner.None? ==>
      (DetectWinner(s).winner == Some(Left) <==> s.left.distance >= FINISH_LINE)
    ensures s.winner.None? ==>
      (DetectWinner(s).winner == Some(Right) <==>
         s.left.distance < FINISH_LINE && s.right.distance >= FINISH_LINE)
    ensures DetectWinner(s).winner != s.winner ==> !DetectWinner(s).isGameActive
    ensures DetectWinner(s).winner == s.winner ==> DetectWinner(s) == s
    ensures s.winner.Some? ==> DetectWinner(s) == s
    ensures LaneOf(DetectWinner(s), Left) == LaneOf(s, Left)
    ensures LaneOf(DetectWinner(s), Right) == LaneOf(s, Right)
  {
  }

  /** Running the finish-line check again after it has run changes nothing. */
  lemma DetectWinnerIdempotent(s: GameState)
    ensures DetectWinner(DetectWinner(s)) == DetectWinner(s)
  {
  }

  // ---------------------------------------------------------------------------
  // Runs of the game

  /** Everything that can change the game state. */
  datatype Event =
    | OpenGame                                                // start screen left
    | Start                                                   // "Start Physics Race"
    | Reset                                                   // "Back to Menu" or closing the winner dialog
    | Push(side: Side)
    | PullBack(side: Side)
    | Steer(side: Side, direction: Side)
    | PushTimeout(side: Side)                                 // 100 ms after a push or pull back
    | SteerTimeout(side: Side)                                // 150 ms after a steer
    | PositionReport(side: Side, distance: real, horizontalPos: real)
    | FinishCheck                                             // the effect run after distances or winner change

  function Apply(s: GameState, e: Event): GameState
  {
    match e
    case OpenGame => ShowGameScreen(s)
    case Start => StartGame(s)
    case Reset => ResetGame(s)
    case Push(side) => PushCar(s, side)
    case PullBack(side) => PullBackCar(s, side)
    case Steer(side, direction) => SteerCar(s, side, direction)
    case PushTimeout(side) => ExpirePushForce(s, side)
    case SteerTimeout(side) => ExpireHorizontalForce(s, side)
    case PositionReport(side, distance, horizontalPos) => UpdatePosition(s, side, distance, horizontalPos)
    case FinishCheck => DetectWinner(s)
  }

  function Run(s: GameState, events: seq<Event>): GameState
    decreases |events|
  {
    if events == [] then s else Run(Apply(s, events[0]), events[1..])
  }

  /** Running two pieces of a run one after the other is running them together. */
  lemma {:induction false} RunAppend(s: GameState, a: seq<Event>, b: seq<Event>)
    ensures Run(s, a + b) == Run(Run(s, a), b)
    decreases |a|
  {
    if a == [] {
      assert a + b == b;
    } else {
      assert (a + b)[0] == a[0];
      assert (a + b)[1..] == a[1..] + b;
      RunAppend(Apply(s, a[0]), a[1..], b);
    }
  }

  /**
   * Both cars reported past the line before the check runs: the left lane wins,
   * the race ends, and a second check changes nothing.
   */
  lemma {:induction false} SimultaneousFinishGoesLeft(s: GameState, dl: real, dr: real, hl: real, hr: real)
    requires s.winner.None?
    requires dl >= FINISH_LINE && dr >= FINISH_LINE
    ensures var r := Run(s, [PositionReport(Left, dl, hl), PositionReport(Right, dr, hr), FinishCheck]);
      r.winner == Some(Left) && !r.isGameActive
    ensures var r := Run(s, [PositionReport(Left, dl, hl), PositionReport(Right, dr, hr), FinishCheck]);
      Run(s, [PositionReport(Left, dl, hl), PositionReport(Right, dr, hr), FinishCheck, FinishCheck]) == r
  {
    var a := UpdatePosition(s, Left, dl, hl);
    var b := UpdatePosition(a, Right, dr, hr);
    assert Run(s, [PositionReport(Left, dl, hl), PositionReport(Right, dr, hr), FinishCheck])
        == Run(b, [FinishCheck]);
    assert Run(s, [PositionReport(Left, dl, hl), PositionReport(Right, dr, hr), FinishCheck, FinishCheck])
        == Run(b, [FinishCheck, FinishCheck]);
    assert Run(b, [FinishCheck, FinishCheck]) == Run(DetectWinner(b), [FinishCheck]);
  }

  /** Events other than starting or resetting a race. */
  predicate Continues(e: Event)
  {
    !e.Start? && !e.Reset?
  }

  /**
   * What every reachable state satisfies: a recorded winner means the race is
   * over, a running race is on the game screen, and each force holds either
   * zero or one of the values the handlers write.
   */
  predicate Consistent(s: GameState)
  {
    && (s.winner.Some? ==> !s.isGameActive)
    && (s.isGameActive ==> s.currentScreen == GameScreen)
    && PushForceValue(s.left.pushForce) && PushForceValue(s.right.pushForce)
    && SteerForceValue(s.left.horizontalForce) && SteerForceValue(s.right.horizontalForce)
  }

  /** The values a push force can hold: none, a forward push or a pull back. */
  predicate PushForceValue(f: real)
  {
    f == 0.0 || f == PUSH_FORCE || f == PULL_BACK_FORCE
  }

  /** The values a horizontal force can hold: none, or a steer either way. */
  predicate SteerForceValue(f: real)
  {
    f == 0.0 || f == STEER_FORCE || f == -STEER_FORCE
  }

  lemma InitialConsistent()
    ensures Consistent(Initial)
  {
  }

  lemma PhaseChangesKeepConsistent(s: GameState)
    requires Consistent(s)
    ensures Consistent(ShowGameScreen(s))
    ensures Consistent(StartGame(s)) && Consistent(ResetGame(s))
    ensures Consistent(DetectWinner(s))
  {
  }

  lemma InputKeepsConsistent(s: GameState, side: Side, direction: Side)
    requires Consistent(s)
    ensures Consistent(PushCar(s, side))
    ensures Consistent(PullBackCar(s, side))
    ensures Consistent(SteerCar(s, side, direction))
  {
  }

  lemma TimersAndReportsKeepConsistent(s: GameState, side: Side, distance: real, horizontalPos: real)
    requires Consistent(s)
    ensures Consistent(ExpirePushForce(s, side))
    ensures Consistent(ExpireHorizontalForce(s, side))
    ensures Consistent(UpdatePosition(s, side, distance, horizontalPos))
  {
  }

  lemma ApplyPreservesConsistent(s: GameState, e: Event)
    requires Consistent(s)
    ensures Consistent(Apply(s, e))
  {
    match e
    case OpenGame => PhaseChangesKeepConsistent(s);
    case Start => PhaseChangesKeepConsistent(s);
    case Reset => PhaseChangesKeepConsistent(s);
    case FinishCheck => PhaseChangesKeepConsistent(s);
    case Push(side) => InputKeepsConsistent(s, side, side);
    case PullBack(side) => InputKeepsConsistent(s, side, side);
    case Steer(side, direction) => InputKeepsConsistent(s, side, direction);
    case PushTimeout(side) => TimersAndReportsKeepConsistent(s, side, 0.0, 0.0);
    case SteerTimeout(side) => TimersAndReportsKeepConsistent(s, side, 0.0, 0.0);
    case PositionReport(side, distance, horizontalPos) =>
      TimersAndReportsKeepConsistent(s, side, distance, horizontalPos);
  }

  /** Every run from a consistent state ends in a consistent state. */
  lemma {:induction false} RunPreservesConsistent(s: GameState, events: seq<Event>)
    requires Consistent(s)
    ensures Consistent(Run(s, events))
    decreases |events|
  {
    if events != [] {
      ApplyPreservesConsistent(s, events[0]);
      RunPreservesConsistent(Apply(s, events[0]), events[1..]);
    }
  }

  /**
   * Once a winner is recorded, no run without a start or reset changes it,
   * reopens the race or adds a push to either lane.
   */
  lemma {:induction false} WinnerIsFinal(s: GameState, events: seq<Event>)
    requires s.winner.Some? && !s.isGameActive
    requires forall e :: e in events ==> Continues(e)
    ensures Run(s, events).winner == s.winner
    ensures !Run(s, events).isGameActive
    ensures Run(s, events).left.pushes == s.left.pushes && Run(s, events).right.pushes == s.right.pushes
    decreases |events|
  {
    if events != [] {
      assert events[0] in events;
      assert forall e :: e in events[1..] ==> e in events;
      WinnerIsFinal(Apply(s, events[0]), events[1..]);
    }
  }

  /**
   * At most one winner per race: in a run without a start or reset, a winner
   * recorded at any point is the winner at every later point.
   */
  lemma AtMostOneWinner(s: GameState, before: seq<Event>, after: seq<Event>)
    requires Consistent(s)
    requires forall e :: e in after ==> Continues(e)
    requires Run(s, before).winner.Some?
    ensures Run(s, before + after).winner == Run(s, before).winner
  {
    RunAppend(s, before, after);
    RunPreservesConsistent(s, before);
    WinnerIsFinal(Run(s, before), after);
  }

  /** The number of forward pushes on one side in a run. */
  function CountPushes(events: seq<Event>, side: Side): nat
    decreases |events|
  {
    if events == [] then 0
    else (if events[0] == Push(side) then 1 else 0) + CountPushes(events[1..], side)
  }

  /**
   * Without a start or reset, a lane's push count never goes down, and it goes
   * up by at most one per forward push on that side (pull backs and the other
   * side's pushes do not count).
   */
  lemma {:induction false} PushCountBounded(s: GameState, events: seq<Event>, side: Side)
    requires forall e :: e in events ==> Continues(e)
    ensures LaneOf(s, side).pushes <= LaneOf(Run(s, events), side).pushes
    ensures LaneOf(Run(s, events), side).pushes <= LaneOf(s, side).pushes + CountPushes(events, side)
    decreases |events|
  {
    if events != [] {
      assert events[0] in events;
      assert forall e :: e in events[1..] ==> e in events;
      PushCountBounded(Apply(s, events[0]), events[1..], side);
    }
  }

  /** Both cars are short of the finish line. */
  predicate BeforeFinish(s: GameState)
  {
    s.left.distance < FINISH_LINE && s.right.distance < FINISH_LINE
  }

  /**
   * While a race runs and no car reaches the finish line (no start or reset,
   * and every position report is short of the line; finish-line checks may
   * run at any point), every forward push is counted exactly once and the
   * game keeps taking input.
   */
  lemma {:induction false} PushCountExact(s: GameState, events: seq<Event>, side: Side)
    requires Accepting(s) && BeforeFinish(s)
    requires forall e :: e in events ==>
      Continues(e) && (e.PositionReport? ==> e.distance < FINISH_LINE)
    ensures Accepting(Run(s, events)) && BeforeFinish(Run(s, events))
    ensures LaneOf(Run(s, events), side).pushes == LaneOf(s, side).pushes + CountPushes(events, side)
    decreases |events|
  {
    if events != [] {
      assert events[0] in events;
      assert forall e :: e in events[1..] ==> e in events;
      PushCountExact(Apply(s, events[0]), events[1..], side);
    }
  }

  // ---------------------------------------------------------------------------
  // Connection to the tire physics

  /** The position report a lane's tire body sends for a body at `position`. */
  function ReportFrom(side: Side, position: TirePhysics.Vec): Event
  {
    PositionReport(side, TirePhysics.Distance(position.y), TirePhysics.HorizontalPos(position.x))
  }

  /** Distances are never negative and horizontal positions stay within the lane. */
  predicate InLaneBounds(s: GameState)
  {
    && s.left.distance >= 0.0 && s.right.distance >= 0.0
    && TirePhysics.LANE_MIN <= s.left.horizontalPos <= TirePhysics.LANE_MAX
    && TirePhysics.LANE_MIN <= s.right.horizontalPos <= TirePhysics.LANE_MAX
  }

  /** Events that are position reports come from a tire body. */
  ghost predicate FromTireBody(e: Event)
  {
    e.PositionReport? ==> exists p: TirePhysics.Vec :: e == ReportFrom(e.side, p)
  }

  /**
   * When every position report is made by a tire body, distances stay
   * non-negative and horizontal positions stay within the lane for the whole run.
   */
  lemma {:induction false} RunKeepsLaneBounds(s: GameState, events: seq<Event>)
    requires InLaneBounds(s)
    requires forall e :: e in events ==> FromTireBody(e)
    ensures InLaneBounds(Run(s, events))
    decreases |events|
  {
    if events != [] {
      var e := events[0];
      assert e in events;
      if e.PositionReport? {
        var p: TirePhysics.Vec :| e == ReportFrom(e.side, p);
        assert e.distance >= 0.0;
        assert TirePhysics.LANE_MIN <= e.horizontalPos <= TirePhysics.LANE_MAX;
      }
      assert forall e :: e in events[1..] ==> e in events;
      RunKeepsLaneBounds(Apply(s, e), events[1..]);
    }
  }

  /**
   * In a consistent state, the force each lane's tire body receives is either
   * nothing, the scaled forward push or pull back along the track, or the
   * scaled steer across the lane.
   */
  lemma ForcesReachingTire(s: GameState, side: Side)
    requires Consistent(s)
    ensures var v := TirePhysics.PushVector(LaneOf(s, side).pushForce);
      v == None || v == Some(TirePhysics.Vec(0.0, 0.005)) || v == Some(TirePhysics.Vec(0.0, -0.003))
    ensures var v := TirePhysics.SteerVector(LaneOf(s, side).horizontalForce);
      v == None || v == Some(TirePhysics.Vec(0.001, 0.0)) || v == Some(TirePhysics.Vec(-0.001, 0.0))
  {
  }

  /**
   * A tire body reset by a start or reset (the reset trigger changes) reports
   * exactly the distance and horizontal position that start and reset write
   * into both lanes.
   */
  lemma ResetBodyReportsFreshLane(s: GameState, b: TirePhysics.BodyState)
    ensures StartGame(s).resetTrigger != s.resetTrigger && ResetGame(s).resetTrigger != s.resetTrigger
    ensures var p := TirePhysics.ResetBody(b).position;
      TirePhysics.Distance(p.y) == FreshLane.distance && TirePhysics.HorizontalPos(p.x) == FreshLane.horizontalPos
    ensures LaneOf(StartGame(s), Left) == LaneOf(StartGame(s), Right) == FreshLane
  {
  }
}
