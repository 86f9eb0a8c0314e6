/**
 * The race controller: one mutable game-state store that every handler
 * overwrites. Each method performs, in place, exactly the transition of the
 * same name in RaceState, so every property proved there about the transitions
 * and about runs holds of the store.
 */
module RaceController {
  import opened Wrappers
  import opened RaceState

  class RacingGame {
    /** The left lane's distance, horizontal position, push count and pending forces. */
    var left: Lane
    /** The same for the right lane. */
    var right: Lane
    var isGameActive: bool
    var winner: Option<Side>
    var currentScreen: Screen
    /** Bumped on every start and reset; the tire bodies reset when it changes. */
    var resetTrigger: nat

    /** The store's current contents as a state record. */
    function State(): GameState
      reads this
    {
      GameState(left, right, isGameActive, winner, currentScreen, resetTrigger)
    }

    /** The store as the game is first shown: on the start screen, no race, both tires at the start. */
    constructor ()
      ensures State() == Initial
    {
      left := Lane(0.0, 50.0, 0, 0.0, 0.0);
      right := Lane(0.0, 50.0, 0, 0.0, 0.0);
      isGameActive := false;
      winner := None;
      currentScreen := StartScreen;
      resetTrigger := 0;
    }

    method ShowGameScreen()
      modifies this
      ensures State() == RaceState.ShowGameScreen(old(State()))
    {
      currentScreen := GameScreen;
    }

    method StartGame()
      modifies this
      ensures State() == RaceState.StartGame(old(State()))
    {
      left := Lane(0.0, 50.0, 0, 0.0, 0.0);
      right := Lane(0.0, 50.0, 0, 0.0, 0.0);
      isGameActive := true;
      winner := None;
      currentScreen := GameScreen;
      resetTrigger := resetTrigger + 1;
    }

    method ResetGame()
      modifies this
      ensures State() == RaceState.ResetGame(old(State()))
    {
      left := Lane(0.0, 50.0, 0, 0.0, 0.0);
      right := Lane(0.0, 50.0, 0, 0.0, 0.0);
      isGameActive := false;
      winner := None;
      currentScreen := StartScreen;
      resetTrigger := resetTrigger + 1;
    }

    method PushCar(side: Side)
      modifies this
      ensures State() == RaceState.PushCar(old(State()), side)
    {
      if !isGameActive || winner.Some? {
        return;
      }
      if side == Left {
        left := left.(pushForce := 5.0, pushes := left.pushes + 1);
      } else {
        right := right.(pushForce := 5.0, pushes := right.pushes + 1);
      }
    }

    method PullBackCar(side: Side)
      modifies this
      ensures State() == RaceState.PullBackCar(old(State()), side)
    {
      if !isGameActive || winner.Some? {
        return;
      }
      if side == Left {
        left := left.(pushForce := -3.0);
      } else {
        right := right.(pushForce := -3.0);
      }
    }

    method SteerCar(side: Side, direction: Side)
      modifies this
      ensures State() == RaceState.SteerCar(old(State()), side, direction)
    {
      if !isGameActive || winner.Some? {
        return;
      }
      var force := if direction == Left then -2.0 else 2.0;
      if side == Left {
        left := left.(horizontalForce := force);
      } else {
        right := right.(horizontalForce := force);
      }
    }

    /** The timer callback scheduled by a push or pull back. */
    method ExpirePushForce(side: Side)
      modifies this
      ensures State() == RaceState.ExpirePushForce(old(State()), side)
    {
      if side == Left {
        left := left.(pushForce := 0.0);
      } else {
        right := right.(pushForce := 0.0);
      }
    }

    /** The timer callback scheduled by a steer. */
    method ExpireHorizontalForce(side: Side)
      modifies this
      ensures State() == RaceState.ExpireHorizontalForce(old(State()), side)
    {
      if side == Left {
        left := left.(horizontalForce := 0.0);
      } else {
        right := right.(horizontalForce := 0.0);
      }
    }

    method HandleLeftPositionUpdate(distance: real, horizontalPos: real)
      modifies this
      ensures State() == UpdatePosition(old(State()), Left, distance, horizontalPos)
    {
      left := left.(distance := distance, horizontalPos := horizontalPos);
    }

    method HandleRightPositionUpdate(distance: real, horizontalPos: real)
      modifies this
      ensures State() == UpdatePosition(old(State()), Right, distance, horizontalPos)
    {
      right := right.(distance := distance, horizontalPos := horizontalPos);
    }

    /** The finish-line effect, left lane first. */
    method DetectWinner()
      modifies this
      ensures State() == RaceState.DetectWinner(old(State()))
    {
      if left.distance >= 100.0 && winner.None? {
        winner := Some(Left);
        isGameActive := false;
      } else if right.distance >= 100.0 && winner.None? {
        winner := Some(Right);
        isGameActive := false;
      }
    }
  }
}
