/** What the sequencer does over many frames: how long a sequence plays, the
    rotation it leaves behind, and what a solve after a finished scramble
    really does (script.js:45-96). */
module Playback {
  import opened Sequencer

  /** The state after `n` frames. */
  function Ticks(s: State, n: nat): State
    decreases n
  {
    if n == 0 then s else Ticks(TickSpec(s), n - 1)
  }

  /** Total angle of the steps in `steps` that turn about `a`. */
  function AxisSum(steps: seq<Step>, a: Axis): int {
    if steps == [] then 0
    else (if steps[0].axis == a then steps[0].angle else 0) + AxisSum(steps[1..], a)
  }

  /** `r` with every step of `steps` applied in full. */
  function Applied(r: Rotation, steps: seq<Step>): Rotation {
    Rotation(r.x + AxisSum(steps, X), r.y + AxisSum(steps, Y), r.z + AxisSum(steps, Z), r.idleY)
  }

  /** Frames needed to play `count` fresh steps, twenty each. */
  function Frames(count: nat): nat {
    if count == 0 then 0 else Subdivisions + Frames(count - 1)
  }

  /** Playing `count` fresh steps takes twenty frames per step. */
  lemma {:induction false} FramesPerStep(count: nat)
    ensures Frames(count) == count * Subdivisions
    decreases count
  {
    if count > 0 {
      FramesPerStep(count - 1);
      assert count * Subdivisions == (count - 1) * Subdivisions + Subdivisions;
    }
  }

  /** Frames still to play before the current sequence runs off its end. */
  function Remaining(s: State): int {
    if s.cursor < |s.steps| then
      Frames(|s.steps| - s.cursor) - CountOf(s.steps[s.cursor].counter)
    else 0
  }

  /** Frames compose. */
  lemma {:induction false} TicksAdd(s: State, m: nat, n: nat)
    ensures Ticks(s, m + n) == Ticks(Ticks(s, m), n)
    decreases m
  {
    if m > 0 {
      TicksAdd(TickSpec(s), m - 1, n);
      assert Ticks(s, m + n) == Ticks(TickSpec(s), (m - 1) + n);
    }
  }

  /** The last of `n + 1` frames is one tick after the first `n`. */
  lemma TicksLast(s: State, n: nat)
    ensures Ticks(s, n + 1) == TickSpec(Ticks(s, n))
  {
    TicksAdd(s, n, 1);
    assert Ticks(Ticks(s, n), 1) == TickSpec(Ticks(s, n));
  }

  /** Every state reached by ticking keeps the reachable-state invariant. */
  lemma {:induction false} TicksKeepInv(s: State, n: nat)
    requires Inv(s)
    ensures Inv(Ticks(s, n))
    decreases n
  {
    if n > 0 {
      TickKeepsInv(s);
      TicksKeepInv(TickSpec(s), n - 1);
    }
  }

  /** While idle, `n` frames add exactly `n` idle increments to Y and change
      nothing else: no X or Z rotation, no sequencer state (script.js:94-95). */
  lemma {:induction false} IdleTicks(s: State, n: nat)
    requires !s.animating
    ensures Ticks(s, n) == s.(rotation := s.rotation.(idleY := s.rotation.idleY + n))
    decreases n
  {
    if n > 0 {
      TickIdle(s);
      IdleTicks(TickSpec(s), n - 1);
    }
  }

  /** Each stepping frame keeps the sequence running and uses up exactly one
      of the remaining frames (script.js:78-85). */
  lemma TickUsesOneFrame(s: State)
    requires Inv(s) && s.animating && s.cursor < |s.steps|
    ensures TickSpec(s).animating && |TickSpec(s).steps| == |s.steps|
    ensures TickSpec(s).scrambled == s.scrambled
    ensures Remaining(TickSpec(s)) == Remaining(s) - 1
  {
    TickWhileStepping(s);
    var t := TickSpec(s);
    var n := CountOf(s.steps[s.cursor].counter) + 1;
    if n == Subdivisions && t.cursor < |t.steps| {
      assert t.steps[t.cursor] == s.steps[s.cursor + 1];
    }
  }

  /** A running sequence stays running, with its scrambled flag untouched, for
      exactly `Remaining(s)` frames, so every step gets its 20 increments, and
      the frame after that ends it (script.js:78-91). */
  lemma {:induction false} RunsForRemaining(s: State, n: nat)
    requires Inv(s) && s.animating
    requires n <= Remaining(s)
    ensures Inv(Ticks(s, n)) && Ticks(s, n).animating && |Ticks(s, n).steps| == |s.steps|
    ensures Ticks(s, n).scrambled == s.scrambled
    ensures Remaining(Ticks(s, n)) == Remaining(s) - n
    ensures n == Remaining(s) ==> Ticks(s, n).cursor == |s.steps|
    decreases n
  {
    if n > 0 {
      assert s.cursor < |s.steps|;
      TickUsesOneFrame(s);
      TickKeepsInv(s);
      RunsForRemaining(TickSpec(s), n - 1);
    } else if s.cursor < |s.steps| {
      assert Frames(|s.steps| - s.cursor) >= Subdivisions;
    }
  }

  /** The current step with `j` more frames applied, while it is still
      unfinished: its counter up by `j`, its axis turned by `j` units in its
      direction. */
  function Counted(s: State, j: nat): State
    requires s.cursor < |s.steps|
  {
    var step := s.steps[s.cursor];
    s.(steps := s.steps[s.cursor := step.(counter := Some(CountOf(step.counter) + j))],
       rotation := Turn(s.rotation, step.axis, if step.angle == QuarterTurn then j else -(j as int)))
  }

  /** One frame of counting followed by `j` more is `j + 1` frames of it. */
  lemma CountedTwice(s: State, j: nat)
    requires s.cursor < |s.steps|
    ensures Counted(Counted(s, 1), j) == Counted(s, j + 1)
  {
    var c := s.cursor;
    var step := s.steps[c];
    var n := CountOf(step.counter);
    assert s.steps[c := step.(counter := Some(n + 1))][c := step.(counter := Some(n + 1 + j))]
        == s.steps[c := step.(counter := Some(n + j + 1))];
  }

  /** `j` frames into an unfinished step only count it up and turn its axis
      by one unit each (script.js:78-85). */
  lemma {:induction false} PartialStep(s: State, j: nat)
    requires s.animating && s.cursor < |s.steps|
    requires IsQuarter(s.steps[s.cursor].angle)
    requires CountOf(s.steps[s.cursor].counter) + j < Subdivisions
    ensures Ticks(s, j) == if j == 0 then s else Counted(s, j)
    decreases j
  {
    if j > 0 {
      TickWhileStepping(s);
      var s1 := TickSpec(s);
      assert s1 == Counted(s, 1);
      if j > 1 {
        PartialStep(s1, j - 1);
        CountedTwice(s, j - 1);
      }
    }
  }

  /** The state once the current step has been played in full: its counter
      reads 20, the cursor is on the next step and the step's axis has turned
      by the step's whole angle. */
  function AfterStep(s: State): State
    requires s.cursor < |s.steps|
  {
    var step := s.steps[s.cursor];
    s.(steps := s.steps[s.cursor := step.(counter := Some(Subdivisions))],
       cursor := s.cursor + 1,
       rotation := Turn(s.rotation, step.axis, step.angle))
  }

  /** The twentieth frame of a step finishes it and moves the cursor on. */
  lemma LastFrame(s: State)
    requires s.animating && s.cursor < |s.steps|
    requires IsQuarter(s.steps[s.cursor].angle)
    requires s.steps[s.cursor].counter == None
    ensures TickSpec(Counted(s, Subdivisions - 1)) == AfterStep(s)
  {
    var c := s.cursor;
    var step := s.steps[c];
    var p := Counted(s, Subdivisions - 1);
    TickWhileStepping(p);
    var t := TickSpec(p);
    assert t.steps == s.steps[c := step.(counter := Some(Subdivisions))] by {
      assert p.steps[c := step.(counter := Some(Subdivisions))]
          == s.steps[c := step.(counter := Some(Subdivisions))];
    }
  }

  /** Twenty frames play a fresh step in full (script.js:78-85). */
  lemma StepCompletes(s: State)
    requires s.animating && s.cursor < |s.steps|
    requires IsQuarter(s.steps[s.cursor].angle)
    requires s.steps[s.cursor].counter == None
    ensures Ticks(s, Subdivisions) == AfterStep(s)
  {
    var n: nat := Subdivisions - 1;
    PartialStep(s, n);
    TicksLast(s, n);
    LastFrame(s);
    assert n + 1 == Subdivisions;
  }

  /** Completing a fresh step keeps the invariant and leaves the next step
      fresh; the rotation still owed by the rest of the list stays the same. */
  lemma AfterStepFacts(s: State)
    requires Inv(s) && s.animating && s.cursor < |s.steps|
    requires s.steps[s.cursor].counter == None
    ensures var t := AfterStep(s);
      && Inv(t) && t.animating && t.scrambled == s.scrambled
      && |t.steps| == |s.steps| && t.cursor == s.cursor + 1
      && (t.cursor < |t.steps| ==> t.steps[t.cursor].counter == None)
      && Applied(t.rotation, t.steps[t.cursor..]) == Applied(s.rotation, s.steps[s.cursor..])
  {
    var c := s.cursor;
    var step := s.steps[c];
    var t := AfterStep(s);
    assert t.steps[c + 1..] == s.steps[c + 1..];
    assert s.steps[c..] == [step] + s.steps[c + 1..];
    AppliedOne(s.rotation, step);
    AppliedStep(s.rotation, step, s.steps[c + 1..]);
  }

  /** One step turns only its own axis, by its whole angle. */
  lemma AppliedOne(r: Rotation, step: Step)
    ensures Applied(r, [step]) == Turn(r, step.axis, step.angle)
  {
    assert [step][0] == step && [step][1..] == [];
    forall a: Axis
      ensures AxisSum([step], a) == if step.axis == a then step.angle else 0
    {
      assert AxisSum([step], a) == (if step.axis == a then step.angle else 0) + AxisSum([], a);
    }
  }

  /** Applying one step and then the rest is applying the whole list. */
  lemma AppliedStep(r: Rotation, step: Step, rest: seq<Step>)
    ensures Applied(Applied(r, [step]), rest) == Applied(r, [step] + rest)
  {
    assert ([step] + rest)[0] == step;
    assert ([step] + rest)[1..] == rest;
    assert [step][1..] == [];
    assert AxisSum([], X) == 0 && AxisSum([], Y) == 0 && AxisSum([], Z) == 0;
  }

  /** From a step boundary, the rest of the sequence plays in twenty frames
      per step: after those `k` frames the sequence is still running with the
      cursor at the end, and the rotation is the old one plus the full angle
      of every remaining step on its own axis. */
  lemma {:induction false} PlaysRest(s: State, left: nat, k: nat)
    requires Inv(s) && s.animating
    requires s.cursor < |s.steps| ==> s.steps[s.cursor].counter == None
    requires left == |s.steps| - s.cursor && k == Frames(left)
    ensures var t := Ticks(s, k);
      && t.animating && t.scrambled == s.scrambled
      && |t.steps| == |s.steps| && t.cursor == |s.steps|
      && t.rotation == Applied(s.rotation, s.steps[s.cursor..])
    decreases left
  {
    var c := s.cursor;
    if left == 0 {
      assert s.steps[c..] == [];
    } else {
      var m: nat := Subdivisions;
      var rest: nat := Frames(left - 1);
      assert k == m + rest;
      var s1 := AfterStep(s);
      AfterStepFacts(s);
      PlaysRest(s1, left - 1, rest);
      StepCompletes(s);
      TicksAdd(s, m, rest);
      var t := Ticks(s1, rest);
      assert Ticks(s, k) == t;
      assert t.rotation == Applied(s.rotation, s.steps[c..]);
      assert t.cursor == |s.steps|;
    }
  }

  /** A freshly started sequence of N steps runs for 20 * N frames and ends on
      the next one: idle, list cleared, cursor reset, cube marked scrambled,
      every step's angle applied in full on its axis and one idle increment
      applied in the final frame (script.js:78-96). */
  lemma PlaysToCompletion(s: State)
    requires Inv(s) && s.animating && s.cursor == 0
    requires |s.steps| > 0 ==> s.steps[0].counter == None
    ensures Ticks(s, |s.steps| * Subdivisions).animating
    ensures Ticks(s, |s.steps| * Subdivisions + 1) ==
      s.(steps := [], cursor := 0, animating := false, scrambled := true,
         rotation := Spin(Applied(s.rotation, s.steps)))
  {
    var k := Frames(|s.steps|);
    FramesPerStep(|s.steps|);
    PlaysRest(s, |s.steps|, k);
    TicksLast(s, k);
    assert s.steps[0..] == s.steps;
    TickFinishing(Ticks(s, k));
  }

  /** The turn of a concatenation is the sum of the turns of its parts. */
  lemma {:induction false} AxisSumAppend(p: seq<Step>, q: seq<Step>, a: Axis)
    ensures AxisSum(p + q, a) == AxisSum(p, a) + AxisSum(q, a)
    decreases |p|
  {
    if p == [] {
      assert p + q == q;
    } else {
      assert (p + q)[0] == p[0];
      assert (p + q)[1..] == p[1..] + q;
      AxisSumAppend(p[1..], q, a);
    }
  }

  /** Reversing a list leaves its turn on every axis unchanged. */
  lemma {:induction false} AxisSumReverse(steps: seq<Step>, a: Axis)
    ensures AxisSum(Reverse(steps), a) == AxisSum(steps, a)
    decreases |steps|
  {
    if steps != [] {
      var n := |steps|;
      var init := steps[..n - 1];
      var last := steps[n - 1];
      assert Reverse(steps) == [last] + Reverse(init);
      assert ([last] + Reverse(init))[1..] == Reverse(init);
      AxisSumReverse(init, a);
      assert steps == init + [last];
      AxisSumAppend(init, [last], a);
      assert [last][1..] == [];
    }
  }

  /** Negating every angle negates the turn on every axis. */
  lemma {:induction false} AxisSumNegated(steps: seq<Step>, a: Axis)
    ensures AxisSum(Negated(steps), a) == -AxisSum(steps, a)
    decreases |steps|
  {
    if steps != [] {
      assert Negated(steps)[1..] == Negated(steps[1..]);
      AxisSumNegated(steps[1..], a);
    }
  }

  /** `solveCube`'s map and reverse are a true inverse: applying a list and
      then its negated reversal puts every axis back where it was
      (script.js:64-67). */
  lemma ReversalCancels(r: Rotation, steps: seq<Step>)
    ensures Applied(Applied(r, steps), Reverse(Negated(steps))) == r
  {
    forall a: Axis
      ensures AxisSum(Reverse(Negated(steps)), a) == -AxisSum(steps, a)
    {
      AxisSumReverse(Negated(steps), a);
      AxisSumNegated(steps, a);
    }
  }

  /** Fresh steps on `axes` add one quarter turn per axis chosen to X + Y + Z,
      whatever the axes are. */
  lemma {:induction false} FreshStepsTotal(axes: seq<Axis>)
    ensures AxisSum(FreshSteps(axes), X) + AxisSum(FreshSteps(axes), Y) + AxisSum(FreshSteps(axes), Z)
      == |axes| * QuarterTurn
    decreases |axes|
  {
    if axes != [] {
      var steps := FreshSteps(axes);
      assert steps[1..] == FreshSteps(axes[1..]);
      FreshStepsTotal(axes[1..]);
    }
  }

  /** Playing a fresh list to completion and then its negated reversal (the
      list `solveCube` builds at script.js:64-67) to completion puts x, y and z
      back where they were; only the two completion frames' idle increments
      remain. */
  lemma PlayThenReversalRestores(s: State)
    requires Inv(s) && s.animating && s.cursor == 0
    requires |s.steps| > 0 ==> s.steps[0].counter == None
    ensures var k := |s.steps| * Subdivisions + 1;
      var done := Ticks(s, k);
      var back := Ticks(done.(steps := Reverse(Negated(s.steps)), animating := true, scrambled := false), k);
      && !back.animating && back.steps == []
      && back.rotation == s.rotation.(idleY := s.rotation.idleY + 2)
  {
    var k := |s.steps| * Subdivisions + 1;
    PlaysToCompletion(s);
    var done := Ticks(s, k);
    var rev := Reverse(Negated(s.steps));
    var u := done.(steps := rev, animating := true, scrambled := false);
    assert |rev| == |s.steps|;
    forall i | 0 <= i < |rev|
      ensures IsQuarter(rev[i].angle) && rev[i].counter == None
    {
      assert rev[i] == Negated(s.steps)[|s.steps| - 1 - i];
    }
    assert Inv(u);
    PlaysToCompletion(u);
    ReversalCancels(s.rotation, s.steps);
  }

  /** The solve `solveCube` evidently intends (the "Reverse the scramble steps"
      of script.js:63): the solve of script.js:60-72, applied to the list the
      last scramble played rather than to the list the completion frame
      emptied at script.js:88. */
  function SolveReplaying(s: State, played: seq<Step>): State {
    SolveSpec(s.(steps := played))
  }

  /** With that solve, a scramble played out and then solved leaves x, y and z
      as they were before the scramble. */
  lemma ReplayingSolveUndoesScramble(s: State, axes: seq<Axis>)
    requires Inv(s) && !s.animating && |axes| == ScrambleLength
    ensures var k := |axes| * Subdivisions + 1;
      var played := Ticks(ScrambleSpec(s, axes), k);
      var solved := Ticks(SolveReplaying(played, FreshSteps(axes)), k);
      && played.scrambled && !played.animating
      && !solved.animating && solved.steps == []
      && solved.rotation == s.rotation.(idleY := s.rotation.idleY + 2)
  {
    var started := ScrambleSpec(s, axes);
    PlaysToCompletion(started);
    PlayThenReversalRestores(started);
  }

  /** What a scramble followed by a solve really does, starting from any idle
      reachable state. The scramble plays for 201 frames and leaves the cube
      scrambled with an empty list (script.js:88-90). The solve then reverses
      that empty list and clears the flag (script.js:64-71). The very next
      frame finishes the empty "solve" and sets the flag again, changing nothing
      but one idle increment. The ten quarter turns of the scramble are never
      undone. */
  lemma ScrambleThenSolve(s: State, axes: seq<Axis>)
    requires Inv(s) && !s.animating && |axes| == ScrambleLength
    ensures var played := Ticks(ScrambleSpec(s, axes), |axes| * Subdivisions + 1);
      var solving := SolveSpec(played);
      && !played.animating && played.scrambled && played.steps == []
      && solving.animating && !solving.scrambled && solving.steps == []
      && TickSpec(solving) == played.(rotation := Spin(played.rotation))
      && TickSpec(solving).rotation.x + TickSpec(solving).rotation.y + TickSpec(solving).rotation.z
         == s.rotation.x + s.rotation.y + s.rotation.z + ScrambleLength * QuarterTurn
  {
    var started := ScrambleSpec(s, axes);
    PlaysToCompletion(started);
    FreshStepsTotal(axes);
    var played := Ticks(started, |axes| * Subdivisions + 1);
    TickFinishing(SolveSpec(played));
  }

  /** A scramble started from a scrambled, idle cube keeps the scrambled flag
      (script.js:46-50) through every one of its 20 * N stepping frames, so a
      solve requested at any point while it plays is ignored (script.js:61):
      the sequencer is then both animating and scrambled. */
  lemma SolveIgnoredWhileRescrambling(s: State, axes: seq<Axis>, n: nat)
    requires Inv(s) && !s.animating && s.scrambled && |axes| == ScrambleLength
    requires n <= |axes| * Subdivisions
    ensures var t := Ticks(ScrambleSpec(s, axes), n);
      t.animating && t.scrambled && SolveSpec(t) == t
  {
    var u := ScrambleSpec(s, axes);
    FramesPerStep(|axes|);
    assert Remaining(u) == Frames(|axes|);
    RunsForRemaining(u, n);
  }
}
