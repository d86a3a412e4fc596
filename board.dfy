/** The BlinkCore driver as a stateful object: the process-wide table of
    persisted servo angles, the PWM channel write, the servo operations
    (setServo, sweepServo, moveServosSync in its 8-servo and 4-servo
    forms), the channel initialisation and motorRun. What reaches the bus
    and how long the driver pauses are kept as logs. */
module BlinkCore {
  import opened Numbers
  import opened Pca9685
  import opened ServoMath
  import Drive

  /** The accumulator set-up of moveServosSync: every servo's accumulator
      starts at its persisted angle and advances by delta / steps per frame. */
  method StartAccumulators(starts: seq<int>, deltas: seq<int>, steps: int)
    returns (current: seq<real>, inc: seq<real>)
    requires |starts| == |deltas| && steps >= 1
    ensures |current| == |inc| == |starts|
    ensures forall j :: 0 <= j < |starts| ==> current[j] == starts[j] as real
    ensures forall j :: 0 <= j < |starts| ==> inc[j] == Increment(starts[j], starts[j] + deltas[j], steps)
  {
    current := [];
    inc := [];
    var i := 0;
    while i < |starts|
      invariant 0 <= i <= |starts| && |current| == i && |inc| == i
      invariant forall j :: 0 <= j < i ==> current[j] == starts[j] as real
      invariant forall j :: 0 <= j < i ==> inc[j] == Increment(starts[j], starts[j] + deltas[j], steps)
    {
      current := current + [starts[i] as real];
      inc := inc + [deltas[i] as real / steps as real];
      i := i + 1;
    }
  }

  /** The bookkeeping of one servo within a frame: once servo i + 1 has
      advanced its accumulator and, when it moves, been persisted at the
      rounded value, the frame's progress covers one more servo. */
  lemma FrameStateStep(pos: seq<int>, pos': seq<int>, pos0: seq<int>, deltas: seq<int>,
                       current: seq<real>, inc: seq<real>, next: seq<real>, next': seq<real>, i: nat)
    requires |deltas| == |current| == |inc| == |next| && i < |next| <= |pos| == |pos0|
    requires forall j :: 0 <= j < i ==> next[j] == current[j] + inc[j]
    requires forall j :: i <= j < |next| ==> next[j] == current[j]
    requires forall j :: i <= j < |pos| ==> pos[j] == pos0[j]
    requires forall j :: 0 <= j < i ==> pos[j] == (if deltas[j] != 0 then Round(next[j]) else pos0[j])
    requires deltas[i] == 0 ==> inc[i] == 0.0
    requires next' == next[i := current[i] + inc[i]]
    requires pos' == (if deltas[i] != 0 then pos[i := Round(next'[i])] else pos)
    ensures |next'| == |next| && |pos'| == |pos|
    ensures forall j :: 0 <= j < i + 1 ==> next'[j] == current[j] + inc[j]
    ensures forall j :: i + 1 <= j < |next| ==> next'[j] == current[j]
    ensures forall j :: i + 1 <= j < |pos| ==> pos'[j] == pos0[j]
    ensures forall j :: 0 <= j < i + 1 ==> pos'[j] == (if deltas[j] != 0 then Round(next'[j]) else pos0[j])
  {
  }

  class Board {
    /** servoCurrentPos: the persisted angle of S1..S8, at indices 0..7. */
    var pos: seq<int>
    /** Every buffer written to the PWM expander, in order. */
    ghost var writes: seq<Frame>
    /** Every basic.pause, in milliseconds, in order. */
    ghost var pauses: seq<int>

    ghost predicate Valid()
      reads this
    {
      |pos| == SERVOS
    }

    /** Process start: every servo is persisted at 90 degrees. */
    constructor ()
      ensures Valid()
      ensures pos == Repeat(DEFAULT_ANGLE, SERVOS)
      ensures writes == [] && pauses == []
    {
      pos := Repeat(DEFAULT_ANGLE, SERVOS);
      writes := [];
      pauses := [];
    }

    /** setPwm: a channel outside 0..15 is ignored; otherwise the 5-byte
        payload is built in a buffer and written. */
    method SetPwm(channel: int, on: int, off: int)
      modifies this
      ensures writes == old(writes) + PwmWrite(channel, on, off)
      ensures pauses == old(pauses) && pos == old(pos)
    {
      if channel < 0 || channel > 15 {
        return;
      }
      var buf := new Byte[5];
      buf[0] := LED0_ON_L + 4 * channel;
      buf[1] := LowByte(on);
      buf[2] := HighByte(on);
      buf[3] := LowByte(off);
      buf[4] := HighByte(off);
      assert buf[..] == PwmFrame(channel, on, off);
      writes := writes + [buf[..]];
    }

    /** setServo: the degree is not clamped; channel index + 7 gets on tick 0
        and the off tick of the pulse width. */
    method SetServo(index: int, degree: int)
      modifies this
      ensures writes == old(writes) + ServoWrites(index, degree)
      ensures pauses == old(pauses) && pos == old(pos)
    {
      var vUs := degree * 1800 / 180 + 600;
      // the fractional quotient is truncated by setPwm's bit operations
      var value := TruncPeriod(vUs * 4096);
      SetPwm(index + 7, 0, value);
    }

    /** sweepServo: one degree per iteration toward `degree`, writing and
        persisting every intermediate angle, with one pause of `delay` per
        angle. An integral degree is always reached, in range or not. */
    method SweepServo(index: int, degree: int, delay: int)
      requires Valid() && ValidServo(index)
      modifies this
      ensures pos == old(pos)[index - 1 := degree]
      ensures writes == old(writes) + PlanWrites(ServoCmds(index, SweepPath(old(pos[index - 1]), degree)))
      ensures pauses == old(pauses) + Repeat(delay, Dist(degree, old(pos[index - 1])))
    {
      var i := index - 1;
      ghost var path := SweepPath(pos[i], degree);
      ghost var done: seq<int> := [];
      while pos[i] != degree
        invariant |pos| == SERVOS && pos == old(pos)[i := pos[i]]
        invariant done + SweepPath(pos[i], degree) == path
        invariant writes == old(writes) + PlanWrites(ServoCmds(index, done))
        invariant pauses == old(pauses) + Repeat(delay, |done|)
        decreases Dist(degree, pos[i])
      {
        done := SweepStep(index, degree, delay, done, path, old(pos), old(writes), old(pauses));
      }
      assert done == path;
    }

    /** One iteration of sweepServo: the servo moves one degree toward
        `degree`, is written there, and the sweep pauses. `done` holds the
        angles written so far, and the rest of the path is still ahead. */
    method SweepStep(index: int, degree: int, delay: int, ghost done: seq<int>, ghost path: seq<int>,
                     ghost pos0: seq<int>, ghost writes0: seq<Frame>, ghost pauses0: seq<int>)
      returns (ghost done': seq<int>)
      requires ValidServo(index) && |pos| == |pos0| == SERVOS && pos == pos0[index - 1 := pos[index - 1]]
      requires pos[index - 1] != degree
      requires done + SweepPath(pos[index - 1], degree) == path
      requires writes == writes0 + PlanWrites(ServoCmds(index, done))
      requires pauses == pauses0 + Repeat(delay, |done|)
      modifies this
      ensures |pos| == SERVOS && pos == pos0[index - 1 := pos[index - 1]]
      ensures pos[index - 1] == (if old(pos[index - 1]) > degree then old(pos[index - 1]) - 1 else old(pos[index - 1]) + 1)
      ensures Dist(degree, pos[index - 1]) < Dist(degree, old(pos[index - 1]))
      ensures done' == done + [pos[index - 1]]
      ensures done' + SweepPath(pos[index - 1], degree) == path
      ensures writes == writes0 + PlanWrites(ServoCmds(index, done'))
      ensures pauses == pauses0 + Repeat(delay, |done'|)
    {
      var i := index - 1;
      var cur := pos[i];
      var angle := if cur > degree then cur - 1 else cur + 1;
      WriteAndPersist(i, angle);
      assert pos == pos0[i := angle];
      ghost var rest := SweepPath(angle, degree);
      assert SweepPath(cur, degree) == [angle] + rest;
      AppendAssoc(done, [angle], rest);
      pauses := pauses + [delay];
      RepeatLogSnoc(pauses0, delay, |done|);
      SweepLogSnoc(writes0, index, done, angle);
      done' := done + [angle];
    }

    /** Writes servo i + 1 with goals[i] and persists it, for every i. */
    method SnapServos(goals: seq<int>)
      requires Valid() && |goals| <= SERVOS
      modifies this
      ensures pos == goals + old(pos)[|goals|..]
      ensures writes == old(writes) + PlanWrites(SnapPlan(goals))
      ensures pauses == old(pauses)
    {
      var i := 0;
      while i < |goals|
        invariant 0 <= i <= |goals|
        invariant pos == goals[..i] + old(pos)[i..]
        invariant writes == old(writes) + PlanWrites(SnapPlan(goals[..i]))
        invariant pauses == old(pauses)
      {
        SnapNext(i, goals[i], goals[..i], old(pos), old(writes));
        assert goals[..i] + [goals[i]] == goals[..i + 1];
        i := i + 1;
      }
      assert goals[..i] == goals;
    }

    /** One step of a snap: after servos 1..i have been written with
        `done`, servo i + 1 is written and persisted with `angle`. */
    method SnapNext(i: nat, angle: int, ghost done: seq<int>, ghost pos0: seq<int>, ghost writes0: seq<Frame>)
      requires i == |done| < SERVOS == |pos0|
      requires pos == done + pos0[|done|..]
      requires writes == writes0 + PlanWrites(SnapPlan(done))
      modifies this
      ensures pos == (done + [angle]) + pos0[|done| + 1..]
      ensures writes == writes0 + PlanWrites(SnapPlan(done + [angle]))
      ensures pauses == old(pauses)
    {
      SpliceNext(done, pos0, angle);
      WriteAndPersist(i, angle);
      SnapLogSnoc(writes0, done, angle);
    }

    /** The preparation pass of moveServosSync: the targets clamped in
        place, the persisted starts, their differences and the largest
        distance. */
    method PrepareMove(targets: seq<int>) returns (tg: seq<int>, starts: seq<int>, deltas: seq<int>, maxDist: int)
      requires Valid() && |targets| <= SERVOS
      ensures tg == Clamped(targets)
      ensures starts == pos[..|targets|]
      ensures |deltas| == |targets|
      ensures forall j :: 0 <= j < |targets| ==> deltas[j] == tg[j] - starts[j]
      ensures maxDist == MaxDist(starts, tg)
    {
      var n := |targets|;
      tg := targets;
      starts := [];
      deltas := [];
      maxDist := 0;
      var i := 0;
      while i < n
        invariant 0 <= i <= n && |tg| == n && |starts| == i && |deltas| == i
        invariant forall j :: 0 <= j < i ==> tg[j] == Clamp(targets[j])
        invariant forall j :: i <= j < n ==> tg[j] == targets[j]
        invariant starts == pos[..i]
        invariant forall j :: 0 <= j < i ==> deltas[j] == tg[j] - starts[j]
        invariant maxDist == MaxDist(starts, tg[..i])
      {
        var t := Clamp(tg[i]);
        var start := pos[i];
        MaxDistSnoc(starts, tg[..i], start, t);
        assert tg[i := t][..i + 1] == tg[..i] + [t];
        assert pos[..i + 1] == pos[..i] + [start];
        tg := tg[i := t];
        starts := starts + [start];
        var d := t - start;
        deltas := deltas + [d];
        var absd := Abs(d);
        maxDist := if absd > maxDist then absd else maxDist;
        i := i + 1;
      }
      assert tg[..n] == tg;
    }

    /** One interpolation frame: every servo with something to do advances
        its accumulator by its increment and is written and persisted at the
        rounded value; a servo with nothing to do is left alone. */
    method InterpFrame(starts: seq<int>, goals: seq<int>, steps: int, step: nat,
                       deltas: seq<int>, current: seq<real>, inc: seq<real>)
      returns (next: seq<real>)
      requires Valid() && |starts| == |goals| <= SERVOS && 0 <= step < steps
      requires |deltas| == |current| == |inc| == |goals|
      requires forall j :: 0 <= j < |goals| ==> deltas[j] == goals[j] - starts[j]
      requires forall j :: 0 <= j < |goals| ==> inc[j] == Increment(starts[j], goals[j], steps)
      requires forall j :: 0 <= j < |goals| ==> current[j] == Accum(starts[j], inc[j], step)
      modifies this
      ensures |next| == |goals|
      ensures forall j :: 0 <= j < |goals| ==> next[j] == current[j] + inc[j]
      ensures |pos| == SERVOS && forall j :: |goals| <= j < SERVOS ==> pos[j] == old(pos[j])
      ensures forall j :: 0 <= j < |goals| ==> pos[j] == (if deltas[j] != 0 then Round(next[j]) else old(pos[j]))
      ensures writes == old(writes) + PlanWrites(FramePlan(starts, goals, steps, step + 1, |goals|))
      ensures pauses == old(pauses)
    {
      next := current;
      var i := 0;
      while i < |goals|
        invariant 0 <= i <= |goals| && |next| == |goals|
        invariant forall j :: 0 <= j < i ==> next[j] == current[j] + inc[j]
        invariant forall j :: i <= j < |goals| ==> next[j] == current[j]
        invariant |pos| == SERVOS && forall j :: i <= j < SERVOS ==> pos[j] == old(pos[j])
        invariant forall j :: 0 <= j < i ==> pos[j] == (if deltas[j] != 0 then Round(next[j]) else old(pos[j]))
        invariant writes == old(writes) + PlanWrites(FramePlan(starts, goals, steps, step + 1, i))
        invariant pauses == old(pauses)
      {
        next := FrameServo(starts, goals, steps, step, i, deltas, current, inc, next, old(pos), old(writes));
        i := i + 1;
      }
    }

    /** Servo i + 1 in one frame: when it has something to do, its
        accumulator advances by the increment and it is written and
        persisted at the rounded value; otherwise nothing happens. */
    method FrameServo(ghost starts: seq<int>, ghost goals: seq<int>, steps: int, step: nat, i: nat,
                      deltas: seq<int>, current: seq<real>, inc: seq<real>, next: seq<real>,
                      ghost pos0: seq<int>, ghost writes0: seq<Frame>)
      returns (next': seq<real>)
      requires |starts| == |goals| <= SERVOS && i < |goals| && 0 <= step < steps
      requires |deltas| == |current| == |inc| == |next| == |goals|
      requires deltas[i] == goals[i] - starts[i]
      requires inc[i] == Increment(starts[i], goals[i], steps) && current[i] == Accum(starts[i], inc[i], step)
      requires forall j :: 0 <= j < i ==> next[j] == current[j] + inc[j]
      requires forall j :: i <= j < |goals| ==> next[j] == current[j]
      requires |pos| == SERVOS == |pos0| && forall j :: i <= j < SERVOS ==> pos[j] == pos0[j]
      requires forall j :: 0 <= j < i ==> pos[j] == (if deltas[j] != 0 then Round(next[j]) else pos0[j])
      requires writes == writes0 + PlanWrites(FramePlan(starts, goals, steps, step + 1, i))
      modifies this
      ensures |next'| == |goals|
      ensures forall j :: 0 <= j < i + 1 ==> next'[j] == current[j] + inc[j]
      ensures forall j :: i + 1 <= j < |goals| ==> next'[j] == current[j]
      ensures |pos| == SERVOS && forall j :: i + 1 <= j < SERVOS ==> pos[j] == pos0[j]
      ensures forall j :: 0 <= j < i + 1 ==> pos[j] == (if deltas[j] != 0 then Round(next'[j]) else pos0[j])
      ensures writes == writes0 + PlanWrites(FramePlan(starts, goals, steps, step + 1, i + 1))
      ensures pauses == old(pauses)
    {
      ghost var p := pos;
      var cur := current[i];
      FramePlanNext(starts, goals, steps, step, i, cur);
      var acc := cur;
      if deltas[i] != 0 {
        acc := cur + inc[i];
        var angle := Round(acc);
        WriteAndPersist(i, angle);
        AppendAssoc(writes0, PlanWrites(FramePlan(starts, goals, steps, step + 1, i)), ServoWrites(i + 1, angle));
      } else {
        IncrementZero(starts[i], steps);
      }
      next' := next[i := acc];
      FrameStateStep(p, pos, pos0, deltas, current, inc, next, next', i);
    }

    /** setServo(i + 1, angle) followed by persisting the angle in the table. */
    method WriteAndPersist(i: nat, angle: int)
      requires i < |pos|
      modifies this
      ensures pos == old(pos)[i := angle]
      ensures writes == old(writes) + ServoWrites(i + 1, angle)
      ensures pauses == old(pauses)
    {
      SetServo(i + 1, angle);
      pos := pos[i := angle];
    }

    /** The interpolation loop of moveServosSync: `steps` frames and
        `steps` pauses of `frameDelay`. */
    method RunFrames(starts: seq<int>, goals: seq<int>, steps: int, frameDelay: int,
                     deltas: seq<int>, current: seq<real>, inc: seq<real>)
      requires Valid() && |starts| == |goals| <= SERVOS && steps >= 1
      requires |deltas| == |current| == |inc| == |goals|
      requires forall j :: 0 <= j < |goals| ==> deltas[j] == goals[j] - starts[j]
      requires forall j :: 0 <= j < |goals| ==> inc[j] == Increment(starts[j], goals[j], steps)
      requires forall j :: 0 <= j < |goals| ==> current[j] == starts[j] as real
      modifies this
      ensures |pos| == SERVOS && pos[|goals|..] == old(pos)[|goals|..]
      ensures forall j :: 0 <= j < |goals| ==>
        pos[j] == (if deltas[j] != 0 then FrameAngle(starts[j], goals[j], steps, steps) else old(pos[j]))
      ensures writes == old(writes) + PlanWrites(InterpPlan(starts, goals, steps, steps))
      ensures pauses == old(pauses) + Repeat(frameDelay, steps)
    {
      var acc := current;
      var step := 0;
      while step < steps
        invariant 0 <= step <= steps && |acc| == |goals|
        invariant forall j :: 0 <= j < |goals| ==> acc[j] == Accum(starts[j], inc[j], step)
        invariant |pos| == SERVOS && forall j :: |goals| <= j < SERVOS ==> pos[j] == old(pos[j])
        invariant forall j :: 0 <= j < |goals| ==>
          pos[j] == (if deltas[j] != 0 && step > 0 then FrameAngle(starts[j], goals[j], steps, step) else old(pos[j]))
        invariant writes == old(writes) + PlanWrites(InterpPlan(starts, goals, steps, step))
        invariant pauses == old(pauses) + Repeat(frameDelay, step)
      {
        acc := RunFrame(starts, goals, steps, frameDelay, step, deltas, acc, inc, old(pos), old(writes), old(pauses));
        step := step + 1;
      }
    }

    /** Frame step + 1 of the interpolation loop and the pause after it. */
    method RunFrame(starts: seq<int>, goals: seq<int>, steps: int, frameDelay: int, step: nat,
                    deltas: seq<int>, acc: seq<real>, inc: seq<real>,
                    ghost pos0: seq<int>, ghost writes0: seq<Frame>, ghost pauses0: seq<int>)
      returns (acc': seq<real>)
      requires Valid() && |starts| == |goals| <= SERVOS && 0 <= step < steps
      requires |deltas| == |acc| == |inc| == |goals|
      requires forall j :: 0 <= j < |goals| ==> deltas[j] == goals[j] - starts[j]
      requires forall j :: 0 <= j < |goals| ==> inc[j] == Increment(starts[j], goals[j], steps)
      requires forall j :: 0 <= j < |goals| ==> acc[j] == Accum(starts[j], inc[j], step)
      requires |pos0| == SERVOS && forall j :: |goals| <= j < SERVOS ==> pos[j] == pos0[j]
      requires forall j :: 0 <= j < |goals| ==>
        pos[j] == (if deltas[j] != 0 && step > 0 then FrameAngle(starts[j], goals[j], steps, step) else pos0[j])
      requires writes == writes0 + PlanWrites(InterpPlan(starts, goals, steps, step))
      requires pauses == pauses0 + Repeat(frameDelay, step)
      modifies this
      ensures |acc'| == |goals|
      ensures forall j :: 0 <= j < |goals| ==> acc'[j] == Accum(starts[j], inc[j], step + 1)
      ensures |pos| == SERVOS && forall j :: |goals| <= j < SERVOS ==> pos[j] == pos0[j]
      ensures forall j :: 0 <= j < |goals| ==>
        pos[j] == (if deltas[j] != 0 then FrameAngle(starts[j], goals[j], steps, step + 1) else pos0[j])
      ensures writes == writes0 + PlanWrites(InterpPlan(starts, goals, steps, step + 1))
      ensures pauses == pauses0 + Repeat(frameDelay, step + 1)
    {
      ghost var done := InterpPlan(starts, goals, steps, step);
      ghost var frame := FramePlan(starts, goals, steps, step + 1, |goals|);
      acc' := InterpFrame(starts, goals, steps, step, deltas, acc, inc);
      pauses := pauses + [frameDelay];
      RepeatLogSnoc(pauses0, frameDelay, step);
      assert InterpPlan(starts, goals, steps, step + 1) == done + frame;
      PlanWritesAppend(done, frame);
      AppendAssoc(writes0, PlanWrites(done), PlanWrites(frame));
    }

    /** moveServosSync for the servos S1..S|targets|: clamp the targets, find
        the largest distance, snap at once when there is nothing to move or
        no time, otherwise run `steps` interpolation frames with one pause
        each, and always finish with an exact snap to the clamped targets. */
    method MoveSync(targets: seq<int>, duration: int)
      requires Valid() && |targets| <= SERVOS
      modifies this
      ensures pos == Clamped(targets) + old(pos)[|targets|..]
      ensures writes == old(writes) + PlanWrites(MovePlan(old(pos)[..|targets|], Clamped(targets), duration))
      ensures pauses == old(pauses) + MovePauses(old(pos)[..|targets|], Clamped(targets), duration)
    {
      var n := |targets|;
      var tg, starts, deltas, maxDist := PrepareMove(targets);

      if maxDist == 0 || duration <= 0 {
        SnapServos(tg);
        assert MovePlan(starts, tg, duration) == SnapPlan(tg);
        return;
      }

      var steps := maxDist;
      if steps < 1 {
        steps := 1;
      }
      var frameDelay := duration / steps;
      if frameDelay < 1 {
        frameDelay := 1;
      }
      assert steps == Steps(starts, tg) && frameDelay == FrameDelay(duration, steps);
      var current, inc := StartAccumulators(starts, deltas, steps);
      RunFrames(starts, tg, steps, frameDelay, deltas, current, inc);
      SnapServos(tg);
      MoveLog(old(writes), starts, tg, duration);
    }

    /** moveServosSync of main.ts: S1..S8, duration last. */
    method MoveServosSync(s1: int, s2: int, s3: int, s4: int, s5: int, s6: int, s7: int, s8: int, duration: int)
      requires Valid()
      modifies this
      ensures pos == Clamped([s1, s2, s3, s4, s5, s6, s7, s8])
      ensures writes == old(writes) + PlanWrites(MovePlan(old(pos), Clamped([s1, s2, s3, s4, s5, s6, s7, s8]), duration))
      ensures pauses == old(pauses) + MovePauses(old(pos), Clamped([s1, s2, s3, s4, s5, s6, s7, s8]), duration)
    {
      assert old(pos)[..SERVOS] == old(pos);
      assert old(pos)[SERVOS..] == [];
      MoveSync([s1, s2, s3, s4, s5, s6, s7, s8], duration);
    }

    /** moveServosSync of servo.ts: duration first, then S1..S4; S5..S8 keep
        their persisted angles. */
    method MoveServosSync4(duration: int, s1: int, s2: int, s3: int, s4: int)
      requires Valid()
      modifies this
      ensures pos == Clamped([s1, s2, s3, s4]) + old(pos)[4..]
      ensures writes == old(writes) + PlanWrites(MovePlan(old(pos)[..4], Clamped([s1, s2, s3, s4]), duration))
      ensures pauses == old(pauses) + MovePauses(old(pos)[..4], Clamped([s1, s2, s3, s4]), duration)
    {
      MoveSync([s1, s2, s3, s4], duration);
    }

    /** initPCA9685: write MODE1 = 0, zero all 16 channels in order, then
        re-apply every persisted servo angle. */
    method InitPCA9685()
      requires Valid()
      modifies this
      ensures writes == old(writes) + [[MODE1, 0]] + CallWrites(ZeroCalls(CHANNELS)) + PlanWrites(SnapPlan(pos))
      ensures pauses == old(pauses) && pos == old(pos)
    {
      writes := writes + [[MODE1, 0]];
      ZeroChannels();
      RestoreServos();
    }

    /** The first loop of initPCA9685: every channel 0..15 switched off. */
    method ZeroChannels()
      modifies this
      ensures writes == old(writes) + CallWrites(ZeroCalls(CHANNELS))
      ensures pauses == old(pauses) && pos == old(pos)
    {
      var idx := 0;
      while idx < 16
        invariant 0 <= idx <= 16
        invariant writes == old(writes) + CallWrites(ZeroCalls(idx))
        invariant pauses == old(pauses) && pos == old(pos)
      {
        SetPwm(idx, 0, 0);
        ZeroCallsLogSnoc(old(writes), idx);
        idx := idx + 1;
      }
    }

    /** The second loop of initPCA9685: every servo written with its
        persisted angle, S1 first. */
    method RestoreServos()
      requires Valid()
      modifies this
      ensures writes == old(writes) + PlanWrites(SnapPlan(pos))
      ensures pauses == old(pauses) && pos == old(pos)
    {
      ghost var p := SnapPlan(pos);
      var i := 1;
      while i <= 8
        invariant 1 <= i <= 9
        invariant writes == old(writes) + PlanWrites(p[..i - 1])
        invariant pauses == old(pauses) && pos == old(pos)
      {
        var value := pos[i - 1];
        SetServo(i, value);
        PlanPrefixLogSnoc(old(writes), p, i - 1);
        i := i + 1;
      }
      assert p[..SERVOS] == p;
    }

    /** motorRun: performs the setPwm calls Drive.MotorRun describes. */
    method MotorRun(index: int, speed: int)
      modifies this
      ensures writes == old(writes) + CallWrites(Drive.MotorRun(index, speed))
      ensures pauses == old(pauses) && pos == old(pos)
    {
      var s := speed * 16;
      if s >= 4096 {
        s := 4095;
      }
      if s <= -4096 {
        s := -4095;
      }
      if index > 4 || index <= 0 {
        return;
      }
      var pp := (index - 1) * 2;
      var pn := (index - 1) * 2 + 1;
      Drive.MotorRunFrames(index, speed);
      assert s == Drive.ScaleSpeed(speed);
      if s >= 0 {
        SetPwm(pp, 0, s);
        SetPwm(pn, 0, 0);
      } else {
        SetPwm(pp, 0, 0);
        SetPwm(pn, 0, -s);
      }
    }

    /** lineFollowStep, with the two digital sensor readings as parameters:
        the speed limit is clamped to 0..255 and two motorRun calls, M1A
        then M2A, follow the decision table. */
    method LineFollowStep(maxSpeed: int, left: int, right: int)
      modifies this
      ensures writes == old(writes) + CallWrites(Drive.LineFollowCalls(maxSpeed, left, right))
      ensures pauses == old(pauses) && pos == old(pos)
    {
      var m := maxSpeed;
      if m < 0 {
        m := 0;
      }
      if m > 255 {
        m := 255;
      }
      var slowSpeed := Drive.SLOW_SPEED;
      var a, b;
      if left == Drive.ON_LINE && right == Drive.ON_LINE {
        a, b := m, m;
      } else if left == Drive.ON_LINE && right != Drive.ON_LINE {
        a, b := slowSpeed, m;
      } else if right == Drive.ON_LINE && left != Drive.ON_LINE {
        a, b := m, slowSpeed;
      } else {
        a, b := 0, 0;
      }
      assert [Drive.MotorCmd(Drive.M1A, a), Drive.MotorCmd(Drive.M2A, b)] == Drive.LineFollowStep(maxSpeed, left, right);
      MotorRun(Drive.M1A, a);
      MotorRun(Drive.M2A, b);
      CallWritesAppend(Drive.MotorRun(Drive.M1A, a), Drive.MotorRun(Drive.M2A, b));
      AppendAssoc(old(writes), CallWrites(Drive.MotorRun(Drive.M1A, a)), CallWrites(Drive.MotorRun(Drive.M2A, b)));
    }
  }
}
