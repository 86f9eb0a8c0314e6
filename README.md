# Thumb race rally — a Dafny model of the race controller and tire physics

The game is a two-lane race. Each lane has a tire that the player pushes forward. The
game component also has handlers to pull a tire back and to steer it. The shown track
wires only the push buttons to the game (src/components/RaceTrack.tsx:4-10, :52-53),
so nothing in the shown files calls those two handlers. The model covers them anyway.
A physics body per lane turns the forces into motion. It reports the tire's distance
and horizontal position back to the game, and the first lane to reach 100 m wins. This project models the game's own logic:

- **RaceController** (`race_controller.dfy`): the mutable game-state store of
  `RacingGame.tsx`, as the class `RacingGame`. Every handler is a method that
  overwrites fields of the store. This covers showing the game screen, start,
  reset, push, pull back, steer, the two timer callbacks that clear a force, the two
  position-update handlers and the finish-line effect. Each method is proved to
  perform exactly one pure transition of `RaceState`.
- **RaceState** (`race_state.dfy`): the game-state record, with one `Lane` record
  per side holding distance, horizontal position, push count, push force and
  horizontal force. It also has the shared fields (active, winner, screen, reset
  trigger) and one pure transition per handler. The lemmas state each
  transition's effect and frame. A run is a sequence of events. For runs, the
  lemmas prove the reachable-state invariant, that a winner is final, the
  push-count bounds, and that lane bounds are kept when positions come from the
  tire bodies.
- **TirePhysics** (`tire_physics.dfy`): the conversion of the body's position to
  game units, the scaling of game forces into engine force vectors, and the
  `TireBody` class whose reset puts the body back at (50, 0) at rest.
- **Wrappers** (`wrappers.dfy`): `Option`, used for "no winner" and "no force applied".

Distances, positions and forces are `real`. The source only uses literal constants,
comparisons, `max`/`min`, and multiplication and division by constants on them.

Three things the source does not do, which a reader might expect:

- Nothing clamps a distance at the finish line.
- Position reports still change distances after a winner is recorded, because the
  handlers have no guard.
- A start or reset does not cancel a pending timer. The timer still fires later and
  zeroes its force field. See the late-timer line under "## Left out".

## Model

| member | source | states |
|---|---|---|
| TirePhysics.Distance | src/components/TirePhysics.tsx:46 | the reported distance is never negative; for y ≥ 0 it is y / 2.5 (times 2.5 gives y back); for y ≤ 0 it is 0 |
| TirePhysics.HorizontalPos | src/components/TirePhysics.tsx:47 | the reported horizontal position always lies in [10, 90]; it equals x inside that range, 10 below it and 90 above it |
| TirePhysics.DistanceMonotone | src/components/TirePhysics.tsx:46 | a larger y never gives a smaller distance |
| TirePhysics.HorizontalPosMonotone | src/components/TirePhysics.tsx:47 | a larger x never gives a smaller horizontal position |
| TirePhysics.HorizontalPosIdempotent | src/components/TirePhysics.tsx:47 | clamping an already reported position changes nothing |
| TirePhysics.PushVector | src/components/TirePhysics.tsx:67-76 | a push force is applied if and only if it is non-zero; the vector has no x part and its y part divided by 0.001 is the push force |
| TirePhysics.SteerVector | src/components/TirePhysics.tsx:78-87 | a steering force is applied if and only if it is non-zero; the vector has no y part and its x part divided by 0.0005 is the steering force |
| TirePhysics.AppliedForceKeepsDirection | src/components/TirePhysics.tsx:68-86 | an applied vector points the same way as the game force that caused it, for pushes and for steering |
| TirePhysics.ResetBodyIdempotent | src/components/TirePhysics.tsx:90-95 | a reset gives position (50, 0) and velocity (0, 0) whatever the prior state, so two resets equal one |
| TirePhysics.TireBody.constructor | src/components/TirePhysics.tsx:23-29 | a new tire body starts at (50, 0) with zero velocity |
| TirePhysics.TireBody.Reset | src/components/TirePhysics.tsx:89-95 | after the reset the body's position and velocity are those of ResetBody, i.e. (50, 0) and (0, 0) |
| TirePhysics.TireBody.ReportPosition | src/components/TirePhysics.tsx:44-49 | the values handed to the game are Distance of the body's y and HorizontalPos of its x: a non-negative distance and a position in [10, 90] |
| RaceState.InputIgnoredUnlessAccepting | src/components/RacingGame.tsx:96-166 | push, pull back and steer leave the whole state unchanged when the game is inactive or a winner is set |
| RaceState.PushCarEffect | src/components/RacingGame.tsx:96-120 | an accepted push sets that side's push force to 5 and adds exactly one to its push count; the other lane and the shared fields are unchanged |
| RaceState.PullBackCarEffect | src/components/RacingGame.tsx:122-142 | an accepted pull back sets that side's push force to -3, whose magnitude is below the forward 5, and changes no push count and nothing else |
| RaceState.SteerCarEffect | src/components/RacingGame.tsx:144-166 | an accepted steer sets only that side's horizontal force, to -2 for left and +2 for right |
| RaceState.ExpiryEffect | src/components/RacingGame.tsx:106-161 | each timer callback zeroes exactly one force field of one side; the other lane, the phase, the winner, the screen and the reset trigger are unchanged |
| RaceState.StartAndResetEffect | src/components/RacingGame.tsx:56-94 | start and reset both put each lane at distance 0, position 50, no pushes, no forces, clear the winner and add one to the reset trigger; start makes the game active on the game screen, reset makes it inactive on the start screen, and that is their only difference |
| RaceState.UpdatePositionEffect | src/components/RacingGame.tsx:168-182 | a position update writes only its side's distance and horizontal position, in any phase |
| RaceState.DetectWinnerEffect | src/components/RacingGame.tsx:184-200 | with no winner yet, left wins if and only if its distance is at least 100, and right wins if and only if left is below 100 and right is at least 100; declaring a winner makes the game inactive; with a winner already set nothing changes; lanes are never touched |
| RaceState.DetectWinnerIdempotent | src/components/RacingGame.tsx:184-200 | running the finish-line check twice is the same as running it once |
| RaceState.SimultaneousFinishGoesLeft | src/components/RacingGame.tsx:184-200 | when both cars are reported past the line before the check runs, left wins, the game ends, and a further check changes nothing |
| RaceState.InitialConsistent | src/components/RacingGame.tsx:30-45 | the initial state satisfies the reachable-state invariant |
| RaceState.RunPreservesConsistent | src/components/RacingGame.tsx:49-200 | every sequence of handler calls keeps the invariant: a winner implies the game is inactive, an active game is on the game screen, push forces are 0, 5 or -3, and horizontal forces are 0, 2 or -2 |
| RaceState.WinnerIsFinal | src/components/RacingGame.tsx:96-200 | once a winner is recorded, no sequence of calls without a start or reset changes it, reactivates the game or changes a push count |
| RaceState.AtMostOneWinner | src/components/RacingGame.tsx:184-200 | in a run without a start or reset, a winner recorded at any point is still the winner at every later point |
| RaceState.PushCountBounded | src/components/RacingGame.tsx:96-142 | without a start or reset, a side's push count never decreases and grows by at most the number of pushes on that side; pull backs and the other side's pushes add nothing |
| RaceState.PushCountExact | src/components/RacingGame.tsx:96-200 | while the game accepts input, no start or reset happens and every position report is short of the finish line (finish checks may run at any point), each push on a side adds exactly one to that side's count, both cars stay short of the line and the game keeps accepting input |
| RaceState.ResetBodyReportsFreshLane | src/components/TirePhysics.tsx:89-95 | start and reset change the reset trigger, and a body reset to (50, 0) then reports distance 0 and horizontal position 50, exactly the lane values start and reset write |
| RaceState.RunKeepsLaneBounds | src/components/TirePhysics.tsx:44-49 | when every position update comes from a tire body's report, distances stay non-negative and horizontal positions stay in [10, 90] for the whole run |
| RaceState.ForcesReachingTire | src/components/TirePhysics.tsx:66-87 | in every reachable state, a tire body receives no force, (0, 0.005) for a push, (0, -0.003) for a pull back, or (±0.001, 0) for a steer |
| RaceController.RacingGame.constructor | src/components/RacingGame.tsx:30-45 | the store starts on the start screen, inactive and with no winner; both lanes are at distance 0, position 50, with no pushes and no forces, and the reset trigger is 0 |
| RaceController.RacingGame.ShowGameScreen | src/components/RacingGame.tsx:49-54 | only the screen changes, to the game screen |
| RaceController.RacingGame.StartGame | src/components/RacingGame.tsx:56-74 | the store becomes exactly the StartGame transition of its old contents (see StartAndResetEffect) |
| RaceController.RacingGame.ResetGame | src/components/RacingGame.tsx:76-94 | the store becomes exactly the ResetGame transition of its old contents (see StartAndResetEffect) |
| RaceController.RacingGame.PushCar | src/components/RacingGame.tsx:96-120 | the store becomes exactly the PushCar transition: unchanged unless accepting, otherwise as PushCarEffect says |
| RaceController.RacingGame.PullBackCar | src/components/RacingGame.tsx:122-142 | the store becomes exactly the PullBackCar transition: unchanged unless accepting, otherwise as PullBackCarEffect says |
| RaceController.RacingGame.SteerCar | src/components/RacingGame.tsx:144-166 | the store becomes exactly the SteerCar transition: unchanged unless accepting, otherwise as SteerCarEffect says |
| RaceController.RacingGame.ExpirePushForce | src/components/RacingGame.tsx:106-137 | the callback set by a push or pull back zeroes that side's push force and nothing else |
| RaceController.RacingGame.ExpireHorizontalForce | src/components/RacingGame.tsx:154-161 | the callback set by a steer zeroes that side's horizontal force and nothing else |
| RaceController.RacingGame.HandleLeftPositionUpdate | src/components/RacingGame.tsx:168-174 | writes the left lane's distance and horizontal position and nothing else |
| RaceController.RacingGame.HandleRightPositionUpdate | src/components/RacingGame.tsx:176-182 | writes the right lane's distance and horizontal position and nothing else |
| RaceController.RacingGame.DetectWinner | src/components/RacingGame.tsx:184-200 | the store becomes exactly the DetectWinner transition: left is checked before right, and the check runs only while there is no winner (see DetectWinnerEffect) |

## Left out

- The physics engine is left out: its creation, `Engine.update` integration, air friction, restitution and the lane wall bodies (src/components/TirePhysics.tsx:18-37, :42). It is a foreign library working in floating point. Force application is modelled only as the vector handed to `applyForce`, and the body's position and velocity change only through the reset.
- The animation-frame loop and its cleanup are left out (src/components/TirePhysics.tsx:40-63). So is the scheduling done by `setTimeout`. A timer firing is the explicit call `ExpirePushForce` or `ExpireHorizontalForce`, and the 100 ms and 150 ms delays are not represented. A late timer can clear a newer force of the same side. That follows from call order, and the model allows any order.
- React hook wiring is left out: `useState`, the `useEffect` dependency lists and `useRef`. The guards of push, pull back and steer read the current state. The source reads the `gameState` captured at render time, which can be stale.
- The finish-line effect is the explicit call `DetectWinner` (event `FinishCheck`). React runs it after renders that change a distance or the winner, and the model does not fix that schedule.
- The `confetti` calls (src/components/RacingGame.tsx:187-191, :194-198) are an external visual effect.
- Rendering is left out: all JSX, the start screen, the winner dialog, the 3-D tire, the track and the statistics panel. The only arithmetic in the track and the statistics panel is the unclamped percentage `distance / 100 * 100` used for placement. The 3-D tire's geometry uses sine and cosine and does not feed back into the game.
- Number width: JavaScript numbers are doubles. The model uses exact `real` values and unbounded naturals for the push counts and the reset trigger. So rounding in `y / 2.5` and in the force scaling is not modelled, and neither is the loss of precision past 2^53.
