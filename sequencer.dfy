/** The animation step sequencer of the cube viewer (script.js:40-96).

    The viewer keeps a list of rotation steps, a cursor into it and two flags.
    A scramble fills the list with ten quarter turns, a solve replaces the list
    by its reversal with every angle negated, and the per-frame tick plays the
    current step one twentieth at a time, finishes the sequence when the cursor
    runs off the end, and otherwise spins the whole group slowly about Y.

    Angles are kept in integer units: a quarter turn is 20 units, so the
    per-tick increment `angle / 20` is exactly one unit. The idle spin, a
    constant that does not divide a quarter turn, is counted separately as a
    number of idle increments on Y.
 */
module Sequencer {

  /** Number of steps a scramble generates (script.js:53). */
  const ScrambleLength: nat := 10

  /** Number of ticks over which one step is played (script.js:80, 83). */
  const Subdivisions: nat := 20

  /** A quarter turn in rotation units; one unit per tick (script.js:55, 80). */
  const QuarterTurn: int := 20

  datatype Axis = X | Y | Z

  datatype Option<T> = None | Some(value: T)

  /** One rotation request. `counter` is absent on a freshly created step and
      holds the number of ticks already applied once the tick has touched it. */
  datatype Step = Step(axis: Axis, angle: int, counter: Option<nat>)

  /** The group's accumulated rotation: x, y and z in units, and the number of
      idle-spin increments applied to y. */
  datatype Rotation = Rotation(x: int, y: int, z: int, idleY: nat)

  /** Everything the sequencer reads and writes (script.js:40-43, plus the
      group's rotation that the tick adds to). */
  datatype State = State(
    steps: seq<Step>,
    cursor: nat,
    animating: bool,
    scrambled: bool,
    rotation: Rotation)

  /** The state when the script loads: no steps, idle, not scrambled. It
      satisfies the invariant every operation keeps. */
  function Initial(): (s: State)
    ensures Inv(s)
  {
    State([], 0, false, false, Rotation(0, 0, 0, 0))
  }

  /** `step.counter || 0`: an absent counter reads as zero. */
  function CountOf(c: Option<nat>): nat {
    match c
    case None => 0
    case Some(n) => n
  }

  /** `group.rotation[axis] += d`. */
  function Turn(r: Rotation, axis: Axis, d: int): Rotation {
    match axis
    case X => r.(x := r.x + d)
    case Y => r.(y := r.y + d)
    case Z => r.(z := r.z + d)
  }

  /** `group.rotation.y += 0.003`, counted as one idle increment. */
  function Spin(r: Rotation): Rotation {
    r.(idleY := r.idleY + 1)
  }

  /** Every queued angle is a quarter turn, one way or the other. */
  predicate IsQuarter(angle: int) {
    angle == QuarterTurn || angle == -QuarterTurn
  }

  /** What holds of every state the operations below can reach from Initial():
      the cursor stays within the list, every step is a quarter turn either way,
      the steps before the cursor are done (counter 20), the steps after it are
      untouched (no counter), the step at the cursor is unfinished, and an idle
      sequencer holds no steps. */
  predicate Inv(s: State) {
    && s.cursor <= |s.steps|
    && (forall i :: 0 <= i < |s.steps| ==> IsQuarter(s.steps[i].angle))
    && (forall i :: 0 <= i < s.cursor ==> s.steps[i].counter == Some(Subdivisions))
    && (forall i :: s.cursor < i < |s.steps| ==> s.steps[i].counter == None)
    && (s.cursor < |s.steps| ==> CountOf(s.steps[s.cursor].counter) < Subdivisions)
    && (!s.animating ==> s.steps == [] && s.cursor == 0)
  }

  /** The list the scramble loop pushes, one fresh quarter turn per chosen axis
      (script.js:53-57). */
  function FreshSteps(axes: seq<Axis>): (steps: seq<Step>)
    ensures |steps| == |axes|
    ensures forall i :: 0 <= i < |axes| ==> steps[i] == Step(axes[i], QuarterTurn, None)
  {
    if axes == [] then []
    else FreshSteps(axes[..|axes| - 1]) + [Step(axes[|axes| - 1], QuarterTurn, None)]
  }

  /** `scrambleCube()` (script.js:45-58) with the random axis choices given as
      `axes`: ignored while animating; otherwise ten fresh quarter turns, the
      cursor at the start, animating, and the scrambled flag left alone. */
  function ScrambleSpec(s: State, axes: seq<Axis>): (t: State)
    requires |axes| == ScrambleLength
    ensures s.animating ==> t == s
    ensures !s.animating ==>
      && |t.steps| == ScrambleLength
      && (forall i :: 0 <= i < |t.steps| ==> t.steps[i] == Step(axes[i], QuarterTurn, None))
      && t.cursor == 0 && t.animating
      && t.scrambled == s.scrambled && t.rotation == s.rotation
    ensures Inv(s) ==> Inv(t)
  {
    if s.animating then s
    else s.(steps := FreshSteps(axes), cursor := 0, animating := true)
  }

  /** The element-wise half of `solveCube`'s map: a fresh step object with the
      same axis, the negated angle and no counter (script.js:64-67). */
  function Negated(steps: seq<Step>): seq<Step> {
    seq(|steps|, i requires 0 <= i < |steps| => Step(steps[i].axis, -steps[i].angle, None))
  }

  /** `Array.prototype.reverse` (script.js:67). */
  function Reverse<T>(s: seq<T>): (r: seq<T>)
    ensures |r| == |s|
    ensures forall k :: 0 <= k < |s| ==> r[k] == s[|s| - 1 - k]
  {
    if s == [] then [] else [s[|s| - 1]] + Reverse(s[..|s| - 1])
  }

  /** `solveCube()` (script.js:60-72): ignored while animating or when not
      scrambled; otherwise the list is replaced by its negated reversal, the
      cursor goes back to the start, animation starts and the scrambled flag
      is cleared at once. From a reachable state the list it reverses is
      always empty, because completion clears it (script.js:88). */
  function SolveSpec(s: State): (t: State)
    ensures s.animating || !s.scrambled ==> t == s
    ensures !s.animating && s.scrambled ==>
      && |t.steps| == |s.steps|
      && (forall k :: 0 <= k < |s.steps| ==>
            t.steps[k] == Step(s.steps[|s.steps| - 1 - k].axis, -s.steps[|s.steps| - 1 - k].angle, None))
      && t.cursor == 0 && t.animating && !t.scrambled
      && t.rotation == s.rotation
    ensures Inv(s) ==> Inv(t)
    ensures Inv(s) && !s.animating && s.scrambled ==> t.steps == []
  {
    if s.animating || !s.scrambled then s
    else s.(steps := Reverse(Negated(s.steps)), cursor := 0, animating := true, scrambled := false)
  }

  /** The sequencing half of `animate()` (script.js:77-91): play one twentieth
      of the current step, or end a sequence whose cursor has run off the end. */
  function Advance(s: State): State {
    if s.animating && s.cursor < |s.steps| then
      var step := s.steps[s.cursor];
      var n := CountOf(step.counter) + 1;
      s.(rotation := Turn(s.rotation, step.axis, step.angle / Subdivisions),
         steps := s.steps[s.cursor := step.(counter := Some(n))],
         cursor := if n >= Subdivisions then s.cursor + 1 else s.cursor)
    else if s.animating then
      s.(animating := false, steps := [], cursor := 0, scrambled := true)
    else
      s
  }

  /** One `animate()` frame (script.js:74-96): advance, then spin about Y if
      the sequencer is idle afterwards. */
  function TickSpec(s: State): State {
    var a := Advance(s);
    if !a.animating then a.(rotation := Spin(a.rotation)) else a
  }

  /** Every frame keeps the reachable-state invariant, and spins exactly when
      it ends idle (script.js:74-96). */
  lemma TickKeepsInv(s: State)
    requires Inv(s)
    ensures Inv(TickSpec(s))
    ensures TickSpec(s).rotation.idleY == s.rotation.idleY + (if TickSpec(s).animating then 0 else 1)
  {
  }

  /** A tick in the middle of a sequence touches only the current step: its
      counter goes up by one, its axis turns by exactly one unit in the
      direction of its angle, and the cursor moves on exactly when the counter
      reaches 20 (script.js:78-85). */
  lemma TickWhileStepping(s: State)
    requires s.animating && s.cursor < |s.steps|
    requires IsQuarter(s.steps[s.cursor].angle)
    requires CountOf(s.steps[s.cursor].counter) < Subdivisions
    ensures var t := TickSpec(s);
      var step := s.steps[s.cursor];
      var n := CountOf(step.counter) + 1;
      && t.animating && t.scrambled == s.scrambled
      && t.steps == s.steps[s.cursor := step.(counter := Some(n))]
      && n <= Subdivisions
      && t.cursor == (if n == Subdivisions then s.cursor + 1 else s.cursor)
      && (step.angle == QuarterTurn ==> t.rotation == Turn(s.rotation, step.axis, 1))
      && (step.angle == -QuarterTurn ==> t.rotation == Turn(s.rotation, step.axis, -1))
  {
  }

  /** The tick after the last step ends the sequence, clears the list, resets
      the cursor, marks the cube scrambled and already spins idly, all in the
      same frame (script.js:86-96). */
  lemma TickFinishing(s: State)
    requires s.animating && s.cursor >= |s.steps|
    ensures TickSpec(s) ==
      s.(animating := false, steps := [], cursor := 0, scrambled := true, rotation := Spin(s.rotation))
  {
  }

  /** An idle tick adds one idle increment to Y and changes nothing else
      (script.js:94-95). */
  lemma TickIdle(s: State)
    requires !s.animating
    ensures TickSpec(s) == s.(rotation := Spin(s.rotation))
  {
  }

  /** The sequencer's module-level state and the group rotation, updated in
      place by the three entry points. */
  class Cube {
    var steps: seq<Step>
    var cursor: nat
    var animating: bool
    var scrambled: bool
    var rotation: Rotation

    /** The module state as one value. */
    function Snapshot(): State
      reads this
    {
      State(steps, cursor, animating, scrambled, rotation)
    }

    /** The sequencer invariant, on the fields. */
    ghost predicate Valid()
      reads this
    {
      Inv(Snapshot())
    }

    /** The declarations at script.js:40-43, with the group unrotated. */
    constructor ()
      ensures Snapshot() == Initial()
      ensures Valid()
    {
      steps := [];
      animating := false;
      cursor := 0;
      scrambled := false;
      rotation := Rotation(0, 0, 0, 0);
    }

    /** `scrambleCube()`; `axes[i]` is the axis `Math.random` picks in round i. */
    method Scramble(axes: seq<Axis>)
      requires |axes| == ScrambleLength
      modifies this
      ensures Snapshot() == ScrambleSpec(old(Snapshot()), axes)
      ensures old(Valid()) ==> Valid()
    {
      if animating {
        return;
      }
      steps := [];
      cursor := 0;
      animating := true;
      var i := 0;
      while i < ScrambleLength
        invariant 0 <= i <= ScrambleLength
        invariant steps == FreshSteps(axes[..i])
        invariant cursor == 0 && animating
        invariant scrambled == old(scrambled) && rotation == old(rotation)
      {
        assert axes[..i + 1][..i] == axes[..i];
        steps := steps + [Step(axes[i], QuarterTurn, None)];
        i := i + 1;
      }
      assert axes[..ScrambleLength] == axes;
    }

    /** `solveCube()`. */
    method Solve()
      modifies this
      ensures Snapshot() == SolveSpec(old(Snapshot()))
      ensures old(Valid()) ==> Valid()
    {
      if animating || !scrambled {
        return;
      }
      steps := Reverse(Negated(steps));
      cursor := 0;
      animating := true;
      scrambled := false;
    }

    /** One `animate()` frame, without the rendering and the rescheduling. */
    method Tick()
      modifies this
      ensures Snapshot() == TickSpec(old(Snapshot()))
      ensures old(Valid()) ==> Valid()
    {
      if animating && cursor < |steps| {
        var step := steps[cursor];
        rotation := Turn(rotation, step.axis, step.angle / Subdivisions);
        var n := CountOf(step.counter) + 1;
        steps := steps[cursor := step.(counter := Some(n))];
        if n >= Subdivisions {
          cursor := cursor + 1;
        }
      } else if animating {
        animating := false;
        steps := [];
        cursor := 0;
        scrambled := true;
      }

      if !animating {
        rotation := Spin(rotation);
      }
      if old(Valid()) {
        TickKeepsInv(old(Snapshot()));
      }
    }
  }
}
