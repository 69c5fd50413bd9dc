# Cube scramble/solve sequencer in Dafny

This project models the animation step sequencer of the spinning Rubik's-cube
page (`script.js`). It covers four things:

- the four pieces of module state: the scramble step list, the running flag,
  the current step index and the scrambled flag;
- `scrambleCube`, which queues ten random quarter turns;
- `solveCube`, which replaces the list by its inverse: the order is reversed
  and every angle is negated;
- the per-frame stepping and idle logic of `animate`.

Two files:

- `sequencer.dfy` (module `Sequencer`) holds the data model and the
  specification of each operation as a function on a `State` value. It also
  has a class `Cube` whose fields are the module state and whose methods
  `Scramble`, `Solve` and `Tick` update them in place. Each method is proved
  to move its state exactly as the matching function does, and to keep the
  sequencer invariant `Inv`.
- `playback.dfy` (module `Playback`) proves properties over many frames.
  Playing a list of N steps takes N·20 frames plus one completion frame,
  after which the turns of every step have been added to the group
  rotation. Applying a list and then its negated reversal restores x, y and
  z, and playing both to completion does too, leaving only the two
  completion frames' idle increments. But the completion frame empties the
  list, so a solve after a finished scramble has nothing to replay, and the
  scramble is never undone (see "## Findings").

Two further facts about the code are proved. The completion of a list is a
frame of its own, so N steps keep the sequencer running for N·20 frames and
it goes idle on frame N·20+1 (`PlaysToCompletion`). And `scrambleCube` never
touches `isScrambled`, so a scramble started from a scrambled, idle cube runs
with both flags true through all of its stepping frames, and a solve requested
at any point meanwhile is ignored
(`SolveIgnoredWhileRescrambling`).

Units. Rotations are integers. A quarter turn (π/2) is 20 units, so each frame
of a step moves its axis by exactly ±1 unit (`angle / 20`). The idle spin
(0.003 rad per frame on Y) is kept as a separate count `idleY`, since it is not
a whole number of units. A step's `counter` property, absent until its first
frame, is an `Option<nat>`. The axis chosen by `Math.random` is passed in:
`Scramble` takes the ten axes as an argument.

## Model

| member | source | states |
|---|---|---|
| Sequencer.Initial | script.js:40-43 | the state at load (empty list, not animating, cursor 0, not scrambled, group unrotated) satisfies the sequencer invariant |
| Sequencer.CountOf | script.js:82 | `step.counter \|\| 0`; no contract of its own, characterised by TickWhileStepping |
| Sequencer.Turn | script.js:80 | `group.rotation[axis] += d`; no contract of its own, characterised by TickWhileStepping and AppliedOne |
| Sequencer.Spin | script.js:95 | the idle increment on Y; no contract of its own, characterised by TickFinishing, TickIdle and IdleTicks |
| Sequencer.Negated | script.js:64-66 | the `map` that negates each angle and drops the counter; no contract of its own, characterised by SolveSpec and AxisSumNegated |
| Sequencer.Advance | script.js:77-91 | the stepping and completion branches of `animate`; no contract of its own, characterised by TickWhileStepping and TickFinishing |
| Sequencer.TickSpec | script.js:74-96 | one whole `animate` frame; no contract of its own, characterised by TickKeepsInv, TickWhileStepping, TickFinishing and TickIdle |
| Sequencer.FreshSteps | script.js:53-57 | one step per chosen axis, in order, each a positive quarter turn with no frame counter |
| Sequencer.ScrambleSpec | script.js:45-58 | while animating, the state is unchanged; otherwise the list becomes ten fresh quarter-turn steps on the given axes, cursor 0, animating true, with the scrambled flag and the rotation untouched; the sequencer invariant is preserved |
| Sequencer.Reverse | script.js:67 | the result has the same length and holds the elements in the opposite order |
| Sequencer.SolveSpec | script.js:60-72 | when animating or not scrambled, the state is unchanged; otherwise step k of the new list is step n-1-k of the old one with the angle negated and no counter, cursor 0, animating true, scrambled false, rotation untouched; the invariant is preserved; from a consistent idle state the list it reverses is empty |
| Sequencer.TickKeepsInv | script.js:74-96 | a frame preserves the invariant (cursor in range, counters 20 before the cursor, none after it, below 20 at it, empty list when idle); the idle count grows by one exactly when the frame ends not animating |
| Sequencer.TickWhileStepping | script.js:78-85 | a stepping frame turns only the current step's axis, by +1 or -1 according to the angle's sign, sets that step's counter to one more than before, and advances the cursor exactly when the counter reaches 20; the flags stay as they were |
| Sequencer.TickFinishing | script.js:86-96 | the frame after the last step clears animating, empties the list, resets the cursor, sets scrambled, and applies one idle increment in the same frame |
| Sequencer.TickIdle | script.js:93-96 | an idle frame adds one idle increment and changes nothing else |
| Sequencer.Cube.constructor | script.js:40-43 | the initial module state: empty list, not animating, cursor 0, not scrambled |
| Sequencer.Cube.Scramble | script.js:45-58 | the fields change exactly as `ScrambleSpec` says, and the invariant is kept |
| Sequencer.Cube.Solve | script.js:60-72 | the fields change exactly as `SolveSpec` says, and the invariant is kept |
| Sequencer.Cube.Tick | script.js:74-96 | the fields change exactly as one frame of `animate` does, and the invariant is kept |
| Playback.FramesPerStep | script.js:80-84 | every step takes twenty frames |
| Playback.TicksAdd | script.js:74-96 | playing m frames and then n frames is the same as playing m+n frames |
| Playback.TicksKeepInv | script.js:74-96 | any number of frames preserves the invariant |
| Playback.IdleTicks | script.js:93-96 | n idle frames add n idle increments and change nothing else |
| Playback.TickUsesOneFrame | script.js:78-85 | a stepping frame keeps the sequencer animating with the same list length and scrambled flag, and reduces the frames still to play by exactly one |
| Playback.RunsForRemaining | script.js:78-91 | the sequencer stays animating, with the invariant, the list length and the scrambled flag kept, for as many frames as remain in the list, and at that point the cursor is at the end |
| Playback.PartialStep | script.js:80-84 | the first j < 20 frames of a step count it up to j and turn its axis by j units in its direction, without moving the cursor |
| Playback.StepCompletes | script.js:80-84 | twenty frames of a fresh step turn its axis by the whole angle, set its counter to 20 and move the cursor on |
| Playback.AfterStepFacts | script.js:78-85 | a completed step keeps the invariant, the list and the flags |
| Playback.AppliedStep | script.js:80 | applying one step and then the rest of a list is the same as applying the whole list |
| Playback.PlaysRest | script.js:78-85 | playing the rest of the list from the cursor leaves the sequencer animating with the cursor at the end and adds every remaining step's angle to its axis |
| Playback.PlaysToCompletion | script.js:78-96 | a freshly started list of N steps is still animating after N·20 frames, and after N·20+1 frames leaves the rotation turned by every step's angle plus one idle increment, with the list emptied, the cursor reset, not animating and scrambled |
| Playback.AxisSumAppend | script.js:80 | the turn a list makes on an axis is the sum of the turns of its two halves |
| Playback.AxisSumReverse | script.js:67 | reversing a list does not change the turn it makes on any axis |
| Playback.AxisSumNegated | script.js:64-66 | negating every angle negates the turn a list makes on each axis |
| Playback.ReversalCancels | script.js:64-67 | applying a list and then its negated, reversed copy returns x, y and z to where they started |
| Playback.PlayThenReversalRestores | script.js:64-96 | playing a fresh list to completion and then its negated reversal to completion leaves the sequencer idle with an empty list, x, y and z back where they started, and two idle increments added |
| Playback.SolveReplaying | script.js:60-72 | the intended solve: `solveCube` applied to the list the last scramble played instead of the emptied one; no contract of its own, characterised by ReplayingSolveUndoesScramble |
| Playback.ReplayingSolveUndoesScramble | script.js:45-96 | with the intended solve, a scramble played out and then solved and played out leaves x, y and z as they were before the scramble |
| Playback.FreshStepsTotal | script.js:53-57 | a scramble of k steps turns the cube by k quarter turns in total over the three axes |
| Playback.ScrambleThenSolve | script.js:45-96 | after a scramble plays out, the list is empty and the cube is idle and scrambled; the solve that follows replays an empty list, and its one frame sets scrambled back to true; the total turn over the axes is still ten quarter turns more than before the scramble, so the scramble is not undone |
| Playback.SolveIgnoredWhileRescrambling | script.js:46-61 | a scramble started from a scrambled idle cube keeps the scrambled flag through all of its 20·N stepping frames, so after any number of them up to 20·N the sequencer is both animating and scrambled and a solve requested then leaves the state unchanged |

## Left out

- The Three.js scene, camera, cubies, renderer and the `renderer.render` call (script.js:1-38, 98) are not modelled. The model tracks only the group's rotation.
- `requestAnimationFrame` (script.js:75) is not modelled: each call of `Cube.Tick` is one frame, and the caller drives the frames.
- The direct `animate();` call at load (script.js:100) plays one idle frame before any input. The model does not make that call itself: `Cube`'s constructor gives the state before it, and the caller plays that frame with `Tick` like any other.
- The resize handler and the `window` exports (script.js:102-111) are not modelled; they are browser plumbing.
- `Math.random` (script.js:54) is not modelled: `Scramble` takes the ten chosen axes as an argument, so any sequence of axes is covered.
- Floating point is not modelled. Angles are whole units where a quarter turn is 20, so `angle / 20` is exact. The idle spin is a count of 0.003 rad increments, not an amount added to Y, and rounding in the browser's additions is not captured.
- The step objects that `animate` updates in place (`step.counter`, script.js:82) are modelled as an update of one element of a `seq`. The list is never shared, since `solveCube` builds fresh objects, so no aliasing is lost.

## Findings

| source | as written | input that shows it | evidently intended | confidence | as-written member | corrected member |
|---|---|---|---|---|---|---|
| script.js:88 | the completion frame empties the step list, so the later `solveCube` reverses an empty list, its one frame sets `isScrambled` back to true, and the cube keeps its scrambled orientation | from any idle state, scramble, play 201 frames, solve, play one frame: x + y + z, in step units with the idle spin counted apart, is still ten quarter turns (200 units) more than before | `solveCube` reverses the scramble just played ("Reverse the scramble steps", script.js:63; "Smooth Scramble + Solve", script.js:1), returning x, y and z to where they were | high; not executed | Playback.ScrambleThenSolve | Playback.ReplayingSolveUndoesScramble |

`Cube` and the functions it is proved against keep the code as written. The
intended solve is `SolveReplaying`, which is `solveCube`'s own logic given the
list the scramble played.
