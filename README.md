# Balloon car game: a verified model of its simulation core

`a3.js` is a small canvas game. A car drives left and right along a road at
height 300 while four balloons rise from the bottom of the canvas. Whenever
the car's bounding box overlaps a balloon's, the balloon is sent back to the
bottom and the score goes up by one. The arrow keys steer the car. A
fixed-timestep loop decouples the simulation from the display rate. Each
animation frame adds the elapsed real time to an accumulator. The loop then
runs one simulation tick per whole timestep (1000/60 ms) the accumulator
holds, and hands the leftover, as a fraction of a timestep, to the renderer
for interpolation.

This project models that core in Dafny:

- `Entities` (`entities.dfy`) holds the constants (car 100 by 40 centred at
  height 300, balloon radius 30, steering speed 5) and the `Balloon` record
  with the four starting balloons.
- `Collision` (`collision.dfy`) holds the bounding-box test `detectCollision`
  as a pure function, with lemmas about its geometry.
- `Simulation` (`simulation.dfy`) holds one tick as a function on a value
  `World`: the car moves, then each balloon rises, wraps and is checked
  against the car. `Ticks` is `n` ticks in a row, and lemmas cover what they
  do to the car, the score and the balloons.
- `Input` (`input.dfy`) holds the keydown/keyup listeners as a function on
  the velocity, folded over an event sequence to show last-writer-wins.
- `Clock` (`clock.dfy`) holds the timestep, the frame gate, the number of
  catch-up ticks an accumulator holds and the interpolation fraction.
- `GameLoop` (`game.dfy`) holds `class Game`. Its fields are the game's
  mutable globals, and the balloon array is updated in place. Its methods
  `Update`, `MainLoop`, `OnKeyDown` and `OnKeyUp` are the source's `update`,
  `mainLoop` and the two listeners. Each method is proved against the
  functions above.

The class carries a ghost tick counter. Its invariant `Valid()` says three
things. The accumulator holds less than one timestep. The velocity is 0, 5
or -5. Every processed frame is accounted for: the ticks run, times the
timestep, plus the leftover accumulator, equal the time of the last
processed frame. Because the invariant holds after every frame, the
interpolation fraction handed to the renderer always lies in [0, 1).

## Model

| member | source | states |
|---|---|---|
| Entities.InitialBalloons | a3.js:16-21 | there are four balloons, all starting at y = 600 with a positive rising speed |
| Collision.DetectCollision | a3.js:41-58 | the car at carX and a balloon collide exactly when their centres are less than 50 + 30 apart horizontally and less than 20 + 30 apart vertically |
| Collision.CollisionIsSymmetricOverlap | a3.js:53-54 | the test is the strict overlap of the car's box and the balloon's box, whichever box is taken first |
| Collision.CollisionIffCommonPoint | a3.js:53-54 | the car and a balloon collide exactly when some point lies strictly inside both boxes |
| Collision.TouchingEdgesDoNotCollide | a3.js:54 | boxes that only touch along a vertical or horizontal edge do not collide, because every comparison is strict |
| Collision.NearBalloonCollides | a3.js:41-58 | a balloon level with the road and 30 to the right of the car's centre is hit |
| Collision.FarBalloonMisses | a3.js:41-58 | a balloon level with the road and 200 to the right of the car's centre is missed |
| Simulation.Rise | a3.js:182-185 | a balloon keeps its x, speed and colour; it rises by its speed, and it re-enters at canvas height + 30 when it is then wholly above the top edge |
| Simulation.Advance | a3.js:181-191 | after its callback a balloon's y is either its old y minus its speed or canvas height + 30; a hit or a balloon above the top always ends at canvas height + 30; a balloon moved to the bottom was hit or wrapped; x, speed and colour do not change |
| Simulation.CountTrue | a3.js:189 | the number of hits counted never exceeds the number of balloons checked |
| Simulation.CountTrueIsCardinality | a3.js:187-189 | counting hit flags one by one gives the size of the set of positions flagged |
| Simulation.HitCountPrefix | a3.js:181-191 | checking one more balloon adds one to the count exactly when that balloon is hit |
| Simulation.HitCountIsNumberOfBalloonsHit | a3.js:187-189 | the points scored in a tick are exactly the number of balloons that collide with the car at their risen, wrapped position |
| Simulation.TickWorld | a3.js:174-192 | a tick moves the car by exactly its velocity, leaves the velocity alone, keeps the number of balloons, and raises the score by at most one per balloon without ever lowering it |
| Simulation.TickWorldFrom | a3.js:174-192 | a state whose car has moved by its velocity, whose balloons have each run their callback, and whose score has gained the hits, is the state one tick produces |
| Simulation.TickScoresHits | a3.js:187-189 | the score grows by exactly the number of balloons hit by the car at its new position |
| Simulation.TickMovesBalloons | a3.js:181-191 | each balloon in the ticked state is its callback's result for the car's new position: it keeps x, speed and colour; it is at canvas height + 30 when it was hit or had risen wholly above the top edge, and otherwise at its old y minus its speed |
| Simulation.IterateInduction | a3.js:164-168 | a property that holds at the start and survives each step holds after any number of repeated ticks |
| Simulation.TicksSucc | a3.js:164-168 | one more catch-up tick is one more application of `update` |
| Simulation.TicksTravel | a3.js:164-168 | over n ticks the velocity stays put and the car travels its velocity n times |
| Simulation.TicksMoveCar | a3.js:164-168 | over n ticks the car moves exactly n times its velocity |
| Simulation.TicksScoreBounds | a3.js:164-168 | over n ticks the score never decreases and gains at most n times the number of balloons |
| Simulation.TicksKeepBalloons | a3.js:164-168 | over n ticks there are still as many balloons, and each keeps its x, speed and colour |
| Input.Apply | a3.js:26-38 | keydown ArrowRight sets the velocity to +5 and keydown ArrowLeft to -5; keyup of either arrow sets it to 0; any other key changes nothing |
| Input.LastArrowEvent | a3.js:26-38 | nothing is found exactly when no event concerns an arrow key; what is found is an arrow event of the sequence with no arrow event after it |
| Input.LastWriterWins | a3.js:26-38 | after any sequence of key events the velocity is fixed by the last arrow event alone (+5, -5 or 0), or is the starting velocity if there was none |
| Input.VelocityStaysValid | a3.js:24-38 | from 0, +5 or -5, no sequence of key events leads anywhere else |
| Clock.CatchUpTicksUnique | a3.js:164-168 | the number of catch-up ticks is the n that leaves less than one timestep, and nothing negative, in the accumulator |
| Clock.CatchUpTicksAtLeast | a3.js:164 | an accumulator from which n timesteps can be taken gets at least n ticks |
| Clock.Interpolation | a3.js:170 | a leftover in [0, timestep) gives a fraction in [0, 1) that scales back to the leftover |
| Clock.InterpolatedCarBetween | a3.js:86 | the car drawn at carX + carVelocity × fraction (with the fraction from a3.js:170) lies between its position now and after the next tick, and at its position when the fraction is zero |
| GameLoop.Game.constructor | a3.js:4-24 | the game starts with the car still at 0, score 0, the four initial balloons, an empty accumulator and last frame time 0 |
| GameLoop.Game.Update | a3.js:174-192 | the in-place tick turns the state into exactly `TickWorld` of the old state |
| GameLoop.Game.UpdateBalloon | a3.js:181-191 | the forEach callback turns balloon i into `Advance` of it, leaves every other balloon alone, and adds one to the score exactly when that balloon is hit |
| GameLoop.Game.MainLoop | a3.js:154-172 | a frame arriving less than 1000/60 ms after the last one changes nothing; otherwise the last frame time becomes the timestamp, exactly floor((old delta + elapsed) / timestep) ticks run (at least one), delta keeps the remainder in [0, timestep), the renderer gets delta / timestep in [0, 1), the score never decreases and the velocity is untouched |
| GameLoop.Game.CatchUp | a3.js:164-168 | the catch-up loop runs exactly floor(delta / timestep) ticks, takes that many timesteps out of the accumulator and stops with 0 <= delta < timestep |
| GameLoop.Game.OnKeyDown | a3.js:26-32 | ArrowRight sets the velocity to +5, ArrowLeft to -5, and any other key leaves it unchanged |
| GameLoop.Game.OnKeyUp | a3.js:34-38 | releasing either arrow sets the velocity to 0, whatever else is held; releasing any other key changes nothing |

## Left out

- Drawing: the trees, car, wheels, balloons and score text, and `draw`
  itself (a3.js:60-146, a3.js:194-206), are calls into the browser's 2D
  context. Only the interpolation fraction handed to `draw` is modelled, as
  `MainLoop`'s `Drawn` result, together with the car's interpolated drawing
  position from `drawCar` (a3.js:86), as `Clock.InterpolatedCarX`.
- Scheduling and event wiring: `requestAnimationFrame` and
  `document.addEventListener` are host plumbing. `MainLoop`, `OnKeyDown`
  and `OnKeyUp` are called directly with the timestamp or the key.
- Cosmetics: `wheelAngle`, `angle` and the sine-based tree sway change
  nothing the simulation reads.
- Floating point: positions, speeds and times are Dafny `real`s. The model
  covers ideal arithmetic. A timestep of 1000/60 or a speed of 0.7 is exact
  here but rounded in JavaScript doubles.
- Unused state: `carSpeed` is never read and `updateCount` is never read
  after it is counted.
- Canvas size: `canvas.height` is read from the page. Here it is the
  constructor's `canvasHeight` and is fixed for the game's lifetime.
- Keys: only `ArrowLeft` and `ArrowRight` are told apart. Every other key
  is `Other`, since the listeners compare only against those two names.
- Start-up: the first frame's timestamp comes from the browser. The time
  accounting in `Valid()` starts from the source's `lastFrameTimeMs = 0`.
- GameLoop.Game.UpdateBalloon, GameLoop.Game.CatchUp: the forEach callback
  and the catch-up `while` loop are separate methods so that each one's
  frame and invariants stay small. Their behaviour is the inline code's.
