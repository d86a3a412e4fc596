/** The arithmetic of the servo motion engine: degrees to PWM ticks, the
    clamp and interpolation of a synchronised move, the one-degree path of a
    sweep, and the sequence of servo writes ("plan") each operation issues. */
module ServoMath {
  import opened Numbers
  import opened Pca9685

  /** Servos S1..S8; servo i is driven by PWM channel i + 7. */
  const SERVOS: int := 8
  const DEFAULT_ANGLE: int := 90

  /** The clamp moveServosSync applies to every target: the angle in
      [0, 180] nearest to the requested one. */
  function Clamp(t: int): (r: int)
    ensures 0 <= r <= 180
    ensures forall a :: 0 <= a <= 180 ==> Dist(t, r) <= Dist(t, a)
  {
    if t < 0 then 0 else if t > 180 then 180 else t
  }

  function Clamped(targets: seq<int>): (g: seq<int>)
    ensures |g| == |targets|
    ensures forall i :: 0 <= i < |g| ==> g[i] == Clamp(targets[i])
  {
    seq(|targets|, i requires 0 <= i < |targets| => Clamp(targets[i]))
  }

  /** One period of 50 Hz, in microseconds. */
  const PERIOD_US: int := 20000

  /** `a / 20000` rounded toward zero: what the `&` and `>>` of setPwm make of
      the fractional tick value setServo computes. */
  function TruncPeriod(a: int): (q: int)
    ensures 0 <= a ==> 0 <= q * PERIOD_US <= a < q * PERIOD_US + PERIOD_US
    ensures a < 0 ==> q * PERIOD_US - PERIOD_US < a <= q * PERIOD_US <= 0
  {
    if a >= 0 then a / PERIOD_US else -((-a) / PERIOD_US)
  }

  /** The pulse width in microseconds for a degree: 600 us plus 10 us per degree. */
  function ServoPulse(degree: int): (us: int)
    ensures us == 600 + 10 * degree
  {
    degree * 1800 / 180 + 600
  }

  /** The off tick setServo writes: the pulse as a fraction of the 20000 us
      period of 50 Hz, in 4096ths, truncated. */
  function ServoTick(degree: int): int {
    TruncPeriod(ServoPulse(degree) * 4096)
  }

  lemma TruncTicksMonotone(x: int, y: int)
    requires x <= y
    ensures TruncPeriod(x) <= TruncPeriod(y)
  {
  }

  /** A larger angle never gives a shorter pulse. */
  lemma ServoTickMonotone(d1: int, d2: int)
    requires d1 <= d2
    ensures ServoTick(d1) <= ServoTick(d2)
  {
    TruncTicksMonotone(ServoPulse(d1) * 4096, ServoPulse(d2) * 4096);
  }

  /** Over the nominal range 0..180 degrees the off tick stays within
      122..491 (0.6 ms .. 2.4 ms), and the centre 90 gives 307. */
  lemma ServoTickRange(degree: int)
    requires 0 <= degree <= 180
    ensures 122 <= ServoTick(degree) <= 491
    ensures ServoTick(0) == 122 && ServoTick(90) == 307 && ServoTick(180) == 491
  {
    assert ServoTick(0) == 122;
    assert ServoTick(90) == 307;
    assert ServoTick(180) == 491;
    ServoTickMonotone(0, degree);
    ServoTickMonotone(degree, 180);
  }

  /** Math.round: the nearest integer, halves rounded up. */
  function Round(x: real): (r: int)
    ensures r as real - 0.5 <= x < r as real + 0.5
  {
    (x + 0.5).Floor
  }

  /** The per-frame increment of a servo moving from s to g in `steps`
      frames: delta / steps, as an exact rational. */
  function Increment(s: int, g: int, steps: int): real
    requires steps >= 1
  {
    (g - s) as real / steps as real
  }

  /** A servo already at its goal does not move: its increment is 0. */
  lemma IncrementZero(s: int, steps: int)
    requires steps >= 1
    ensures Increment(s, s, steps) == 0.0
  {
  }

  /** The accumulator of a servo after k frames: its start, plus the
      increment added once per frame. */
  function Accum(s: int, inc: real, k: nat): real
  {
    if k == 0 then s as real else Accum(s, inc, k - 1) + inc
  }

  /** k additions of the increment are k times the increment. */
  lemma {:induction false} AccumClosed(s: int, inc: real, k: nat)
    ensures Accum(s, inc, k) == s as real + k as real * inc
  {
    if k > 0 {
      AccumClosed(s, inc, k - 1);
      assert (k - 1) as real * inc + inc == k as real * inc;
    }
  }

  /** k of `steps` equal parts of d lie between 0 and d, and all of them
      make d. */
  lemma ScaleParts(k: nat, steps: int, d: real)
    requires 1 <= steps && k <= steps
    ensures 0.0 <= d ==> 0.0 <= k as real * (d / steps as real) <= d
    ensures d < 0.0 ==> d <= k as real * (d / steps as real) <= 0.0
    ensures k == steps ==> k as real * (d / steps as real) == d
  {
    var part := d / steps as real;
    assert steps as real * part == d;
    assert d - k as real * part == (steps - k) as real * part;
    if 0.0 <= d {
      assert 0.0 <= part;
    } else {
      assert part < 0.0;
    }
  }

  /** The angle a moving servo is written with in frame k. */
  function FrameAngle(s: int, g: int, steps: int, k: nat): int
    requires steps >= 1
  {
    Round(Accum(s, Increment(s, g, steps), k))
  }

  /** Rounding a value that lies between two integers stays between them. */
  lemma RoundBetween(x: real, s: int, g: int)
    requires (s as real <= x <= g as real) || (g as real <= x <= s as real)
    ensures Between(Round(x), s, g)
  {
  }

  /** Every interpolated angle lies between the start and the target; frame
      0 is the start and frame `steps` is the target itself. */
  lemma FrameAngleBetween(s: int, g: int, steps: int, k: nat)
    requires steps >= 1 && k <= steps
    ensures Between(FrameAngle(s, g, steps, k), s, g)
    ensures k == 0 ==> FrameAngle(s, g, steps, k) == s
    ensures k == steps ==> FrameAngle(s, g, steps, k) == g
  {
    var x := Accum(s, Increment(s, g, steps), k);
    AccumClosed(s, Increment(s, g, steps), k);
    ScaleParts(k, steps, (g - s) as real);
    RoundBetween(x, s, g);
  }

  /** The largest |goal - start| over all servos, computed as the source's
      loop does, in index order. */
  function MaxDist(starts: seq<int>, goals: seq<int>): nat
    requires |starts| == |goals|
    decreases |goals|
  {
    if |goals| == 0 then 0
    else
      var n := |goals| - 1;
      var m := MaxDist(starts[..n], goals[..n]);
      var a := Dist(goals[n], starts[n]);
      if a > m then a else m
  }

  /** MaxDist bounds every servo's distance and is attained by one of them;
      with no servos it is 0. */
  lemma {:induction false} MaxDistIsMax(starts: seq<int>, goals: seq<int>)
    requires |starts| == |goals|
    ensures forall i :: 0 <= i < |goals| ==> Dist(goals[i], starts[i]) <= MaxDist(starts, goals)
    ensures |goals| > 0 ==> exists i :: 0 <= i < |goals| && Dist(goals[i], starts[i]) == MaxDist(starts, goals)
    ensures |goals| == 0 ==> MaxDist(starts, goals) == 0
    decreases |goals|
  {
    if |goals| > 0 {
      var n := |goals| - 1;
      MaxDistIsMax(starts[..n], goals[..n]);
      var m := MaxDist(starts[..n], goals[..n]);
      assert forall i :: 0 <= i < n ==> goals[..n][i] == goals[i] && starts[..n][i] == starts[i];
      if Dist(goals[n], starts[n]) < m {
        var j :| 0 <= j < n && Dist(goals[..n][j], starts[..n][j]) == m;
        assert Dist(goals[j], starts[j]) == MaxDist(starts, goals);
      }
    }
  }

  /** Conversely, a bound that some servo attains is the MaxDist. */
  lemma MaxDistUnique(starts: seq<int>, goals: seq<int>, m: int)
    requires |starts| == |goals| && 0 < |goals|
    requires forall i :: 0 <= i < |goals| ==> Dist(goals[i], starts[i]) <= m
    requires exists i :: 0 <= i < |goals| && Dist(goals[i], starts[i]) == m
    ensures m == MaxDist(starts, goals)
  {
    MaxDistIsMax(starts, goals);
  }

  /** One more servo: the larger of the old maximum and its distance. */
  lemma MaxDistSnoc(starts: seq<int>, goals: seq<int>, s: int, g: int)
    requires |starts| == |goals|
    ensures MaxDist(starts + [s], goals + [g])
            == if Dist(g, s) > MaxDist(starts, goals) then Dist(g, s) else MaxDist(starts, goals)
  {
    assert (starts + [s])[..|starts|] == starts;
    assert (goals + [g])[..|goals|] == goals;
  }

  /** No servo has to move exactly when the largest distance is zero. */
  lemma MaxDistZero(starts: seq<int>, goals: seq<int>)
    requires |starts| == |goals|
    ensures MaxDist(starts, goals) == 0 <==> starts == goals
  {
    MaxDistIsMax(starts, goals);
    if MaxDist(starts, goals) == 0 {
      assert forall i :: 0 <= i < |goals| ==> starts[i] == goals[i];
    }
  }

  /** The number of interpolation frames: the largest distance, at least 1. */
  function Steps(starts: seq<int>, goals: seq<int>): (steps: int)
    requires |starts| == |goals|
    ensures steps >= 1
    ensures MaxDist(starts, goals) >= 1 ==> steps == MaxDist(starts, goals)
  {
    var m := MaxDist(starts, goals);
    if m < 1 then 1 else m
  }

  /** With that many frames no servo moves more than one degree per frame
      on average: every distance is at most the step count. */
  lemma StepsCoverAll(starts: seq<int>, goals: seq<int>)
    requires |starts| == |goals|
    ensures forall i :: 0 <= i < |goals| ==> Dist(goals[i], starts[i]) <= Steps(starts, goals)
  {
    MaxDistIsMax(starts, goals);
  }

  /** The pause between frames: `Math.floor(duration / steps)`, at least 1. */
  function FrameDelay(duration: int, steps: int): (f: int)
    requires steps >= 1
    ensures f >= 1
    ensures f > 1 ==> f * steps <= duration < (f + 1) * steps
    ensures f == 1 ==> duration < 2 * steps
    ensures duration >= steps ==> f * steps <= duration
  {
    var q := duration / steps;
    assert q * steps <= duration < q * steps + steps;
    if q < 1 then 1 else q
  }

  /** One setServo call, as a value. */
  datatype ServoCmd = ServoCmd(servo: int, angle: int)

  predicate ValidServo(servo: int) {
    1 <= servo <= SERVOS
  }

  /** The frames one setServo call puts on the bus. */
  function ServoWrites(servo: int, degree: int): seq<Frame> {
    PwmWrite(servo + 7, 0, ServoTick(degree))
  }

  /** setServo(i, d) writes a single payload for channel i + 7 with on tick
      0 and off tick ServoTick(d); S1..S8 land on channels 8..15. */
  lemma ServoWriteFrame(servo: int, degree: int)
    requires ValidServo(servo)
    ensures |ServoWrites(servo, degree)| == 1
    ensures var f := ServoWrites(servo, degree)[0];
            DecodeFrame(f) == Some(PwmCall(servo + 7, 0, ServoTick(degree) % 0x1_0000))
            && 8 <= servo + 7 <= 15
    ensures 0 <= degree <= 180 ==>
            DecodeFrame(ServoWrites(servo, degree)[0]) == Some(PwmCall(servo + 7, 0, ServoTick(degree)))
  {
    DecodePwmFrame(servo + 7, 0, ServoTick(degree));
    if 0 <= degree <= 180 {
      ServoTickRange(degree);
      DecodePwmFrameExact(servo + 7, 0, ServoTick(degree));
    }
  }

  /** The frames a sequence of setServo calls puts on the bus, in order. */
  function PlanWrites(plan: seq<ServoCmd>): seq<Frame>
  {
    if plan == [] then []
    else
      var c := plan[|plan| - 1];
      PlanWrites(plan[..|plan| - 1]) + ServoWrites(c.servo, c.angle)
  }

  /** One more command adds its frames at the end. */
  lemma PlanWritesSnoc(plan: seq<ServoCmd>, c: ServoCmd)
    ensures PlanWrites(plan + [c]) == PlanWrites(plan) + ServoWrites(c.servo, c.angle)
  {
    assert (plan + [c])[..|plan|] == plan;
  }

  lemma {:induction false} PlanWritesAppend(a: seq<ServoCmd>, b: seq<ServoCmd>)
    ensures PlanWrites(a + b) == PlanWrites(a) + PlanWrites(b)
    decreases |b|
  {
    if b == [] {
      assert a + b == a;
    } else {
      var b', c := b[..|b| - 1], b[|b| - 1];
      var w := ServoWrites(c.servo, c.angle);
      assert (a + b)[..|a + b| - 1] == a + b';
      assert PlanWrites(a + b) == PlanWrites(a + b') + w;
      assert PlanWrites(b) == PlanWrites(b') + w;
      PlanWritesAppend(a, b');
    }
  }

  /** For valid servos, the k-th frame on the bus is the single payload of
      the k-th setServo call. */
  lemma {:induction false} PlanWritesFrames(plan: seq<ServoCmd>)
    requires forall c :: c in plan ==> ValidServo(c.servo)
    ensures |PlanWrites(plan)| == |plan|
    ensures forall k :: 0 <= k < |plan| ==>
      ServoWrites(plan[k].servo, plan[k].angle) == [PlanWrites(plan)[k]]
  {
    if plan != [] {
      var p, c := plan[..|plan| - 1], plan[|plan| - 1];
      assert c in plan;
      assert forall c :: c in p ==> c in plan;
      PlanWritesFrames(p);
      var w := ServoWrites(c.servo, c.angle);
      assert |w| == 1;
      assert PlanWrites(plan) == PlanWrites(p) + w;
      forall k | 0 <= k < |plan|
        ensures ServoWrites(plan[k].servo, plan[k].angle) == [PlanWrites(plan)[k]]
      {
        if k < |p| {
          assert plan[k] == p[k];
        }
      }
    }
  }

  /** The same servo written with each angle in turn. */
  function ServoCmds(servo: int, angles: seq<int>): (plan: seq<ServoCmd>)
    ensures |plan| == |angles|
    ensures forall k :: 0 <= k < |plan| ==> plan[k] == ServoCmd(servo, angles[k])
  {
    seq(|angles|, k requires 0 <= k < |angles| => ServoCmd(servo, angles[k]))
  }

  lemma ServoCmdsSnoc(servo: int, angles: seq<int>, a: int)
    ensures ServoCmds(servo, angles + [a]) == ServoCmds(servo, angles) + [ServoCmd(servo, a)]
  {
  }

  /** A log extended by one more sweep angle. */
  lemma SweepLogSnoc(w0: seq<Frame>, servo: int, angles: seq<int>, a: int)
    ensures w0 + PlanWrites(ServoCmds(servo, angles + [a]))
            == (w0 + PlanWrites(ServoCmds(servo, angles))) + ServoWrites(servo, a)
  {
    ServoCmdsSnoc(servo, angles, a);
    PlanWritesSnoc(ServoCmds(servo, angles), ServoCmd(servo, a));
    AppendAssoc(w0, PlanWrites(ServoCmds(servo, angles)), ServoWrites(servo, a));
  }

  /** Every servo written once with its goal: the snap of a move. */
  function SnapPlan(goals: seq<int>): (plan: seq<ServoCmd>)
    ensures |plan| == |goals|
    ensures forall i :: 0 <= i < |plan| ==> plan[i] == ServoCmd(i + 1, goals[i])
  {
    seq(|goals|, i requires 0 <= i < |goals| => ServoCmd(i + 1, goals[i]))
  }

  /** A log extended by the snap of one more servo. */
  lemma SnapLogSnoc(w0: seq<Frame>, done: seq<int>, angle: int)
    ensures w0 + PlanWrites(SnapPlan(done + [angle]))
            == (w0 + PlanWrites(SnapPlan(done))) + ServoWrites(|done| + 1, angle)
  {
    assert SnapPlan(done + [angle]) == SnapPlan(done) + [ServoCmd(|done| + 1, angle)];
    PlanWritesSnoc(SnapPlan(done), ServoCmd(|done| + 1, angle));
    AppendAssoc(w0, PlanWrites(SnapPlan(done)), ServoWrites(|done| + 1, angle));
  }

  /** The number of servos among the first n whose goal differs from their start. */
  function MovingCount(starts: seq<int>, goals: seq<int>, n: nat): nat
    requires |starts| == |goals| && n <= |goals|
  {
    if n == 0 then 0
    else MovingCount(starts, goals, n - 1) + (if goals[n - 1] != starts[n - 1] then 1 else 0)
  }

  /** The writes of interpolation frame k among the first n servos: each
      moving servo, in index order, with its rounded accumulator. */
  function FramePlan(starts: seq<int>, goals: seq<int>, steps: int, k: nat, n: nat): seq<ServoCmd>
    requires |starts| == |goals| && n <= |goals| && steps >= 1
  {
    if n == 0 then []
    else
      FramePlan(starts, goals, steps, k, n - 1)
      + (if goals[n - 1] != starts[n - 1]
         then [ServoCmd(n, FrameAngle(starts[n - 1], goals[n - 1], steps, k))]
         else [])
  }

  /** Servo n + 1's share of frame k + 1, given its accumulator `acc` after
      k frames: a moving servo adds the write of its rounded next
      accumulator, a servo already at its goal adds nothing. */
  lemma FramePlanNext(starts: seq<int>, goals: seq<int>, steps: int, k: nat, n: nat, acc: real)
    requires |starts| == |goals| && n < |goals| && steps >= 1
    requires acc == Accum(starts[n], Increment(starts[n], goals[n], steps), k)
    ensures PlanWrites(FramePlan(starts, goals, steps, k + 1, n + 1))
            == PlanWrites(FramePlan(starts, goals, steps, k + 1, n))
               + (if goals[n] != starts[n]
                  then ServoWrites(n + 1, Round(acc + Increment(starts[n], goals[n], steps)))
                  else [])
  {
    var before := FramePlan(starts, goals, steps, k + 1, n);
    if goals[n] != starts[n] {
      PlanWritesSnoc(before, ServoCmd(n + 1, FrameAngle(starts[n], goals[n], steps, k + 1)));
    } else {
      assert FramePlan(starts, goals, steps, k + 1, n + 1) == before;
    }
  }

  /** Frame k writes each moving servo once: as many writes as moving servos. */
  lemma {:induction false} FramePlanLength(starts: seq<int>, goals: seq<int>, steps: int, k: nat, n: nat)
    requires |starts| == |goals| && n <= |goals| && 1 <= steps
    ensures |FramePlan(starts, goals, steps, k, n)| == MovingCount(starts, goals, n)
  {
    if n > 0 {
      FramePlanLength(starts, goals, steps, k, n - 1);
    }
  }

  /** Every write of frame k is of a moving servo, with its interpolated
      angle, which lies between its start and its goal. */
  lemma {:induction false} FramePlanSound(starts: seq<int>, goals: seq<int>, steps: int, k: nat, n: nat)
    requires |starts| == |goals| && n <= |goals| && 1 <= steps && 0 <= k <= steps
    ensures forall c :: c in FramePlan(starts, goals, steps, k, n) ==>
      1 <= c.servo <= n && goals[c.servo - 1] != starts[c.servo - 1]
      && c.angle == FrameAngle(starts[c.servo - 1], goals[c.servo - 1], steps, k)
      && Between(c.angle, starts[c.servo - 1], goals[c.servo - 1])
  {
    if n > 0 {
      FramePlanSound(starts, goals, steps, k, n - 1);
      FrameAngleBetween(starts[n - 1], goals[n - 1], steps, k);
    }
  }

  /** Every moving servo is written in frame k. */
  lemma {:induction false} FramePlanComplete(starts: seq<int>, goals: seq<int>, steps: int, k: nat, n: nat)
    requires |starts| == |goals| && n <= |goals| && 1 <= steps
    ensures forall i :: 0 <= i < n && goals[i] != starts[i] ==>
      ServoCmd(i + 1, FrameAngle(starts[i], goals[i], steps, k)) in FramePlan(starts, goals, steps, k, n)
  {
    if n > 0 {
      FramePlanComplete(starts, goals, steps, k, n - 1);
    }
  }

  /** In the last frame every moving servo is written with its goal exactly. */
  lemma LastFrameAtGoals(starts: seq<int>, goals: seq<int>, steps: int)
    requires |starts| == |goals| && steps >= 1
    ensures forall c :: c in FramePlan(starts, goals, steps, steps, |goals|) ==>
      1 <= c.servo <= |goals| && c.angle == goals[c.servo - 1]
  {
    FramePlanSound(starts, goals, steps, steps, |goals|);
    forall c | c in FramePlan(starts, goals, steps, steps, |goals|)
      ensures 1 <= c.servo <= |goals| && c.angle == goals[c.servo - 1]
    {
      FrameAngleBetween(starts[c.servo - 1], goals[c.servo - 1], steps, steps);
    }
  }

  /** Frames 1..k, in order. */
  function InterpPlan(starts: seq<int>, goals: seq<int>, steps: int, k: nat): seq<ServoCmd>
    requires |starts| == |goals| && steps >= 1
  {
    if k == 0 then []
    else InterpPlan(starts, goals, steps, k - 1) + FramePlan(starts, goals, steps, k, |goals|)
  }

  /** The interpolation writes k frames, each of every moving servo. */
  lemma {:induction false} InterpPlanLength(starts: seq<int>, goals: seq<int>, steps: int, k: nat)
    requires |starts| == |goals| && 1 <= steps && k <= steps
    ensures |InterpPlan(starts, goals, steps, k)| == k * MovingCount(starts, goals, |goals|)
  {
    if k > 0 {
      InterpPlanLength(starts, goals, steps, k - 1);
      FramePlanLength(starts, goals, steps, k, |goals|);
      var m := MovingCount(starts, goals, |goals|);
      assert (k - 1) * m + m == k * m;
    }
  }

  /** A servo whose goal equals its start is never written by the
      interpolation, and no written angle leaves the range between a
      servo's start and its goal. */
  lemma {:induction false} InterpPlanMovingOnly(starts: seq<int>, goals: seq<int>, steps: int, k: nat)
    requires |starts| == |goals| && 1 <= steps && k <= steps
    ensures forall c :: c in InterpPlan(starts, goals, steps, k) ==>
      1 <= c.servo <= |goals| && goals[c.servo - 1] != starts[c.servo - 1]
      && Between(c.angle, starts[c.servo - 1], goals[c.servo - 1])
  {
    if k > 0 {
      InterpPlanMovingOnly(starts, goals, steps, k - 1);
      FramePlanSound(starts, goals, steps, k, |goals|);
    }
  }

  /** A move snaps (no interpolation) when nothing has to move or no time is given. */
  predicate IsSnap(starts: seq<int>, goals: seq<int>, duration: int)
    requires |starts| == |goals|
  {
    MaxDist(starts, goals) == 0 || duration <= 0
  }

  /** Every setServo call of a synchronised move, in order: the interpolation
      frames unless the move snaps, then always the exact snap to the goals. */
  function MovePlan(starts: seq<int>, goals: seq<int>, duration: int): seq<ServoCmd>
    requires |starts| == |goals|
  {
    if IsSnap(starts, goals, duration) then SnapPlan(goals)
    else
      var steps := Steps(starts, goals);
      InterpPlan(starts, goals, steps, steps) + SnapPlan(goals)
  }

  /** The log of a move that does not snap: its frames, then its snap. */
  lemma MoveLog(w0: seq<Frame>, starts: seq<int>, goals: seq<int>, duration: int)
    requires |starts| == |goals| && !IsSnap(starts, goals, duration)
    ensures w0 + PlanWrites(MovePlan(starts, goals, duration))
            == (w0 + PlanWrites(InterpPlan(starts, goals, Steps(starts, goals), Steps(starts, goals))))
               + PlanWrites(SnapPlan(goals))
  {
    var interp := InterpPlan(starts, goals, Steps(starts, goals), Steps(starts, goals));
    PlanWritesAppend(interp, SnapPlan(goals));
    AppendAssoc(w0, PlanWrites(interp), PlanWrites(SnapPlan(goals)));
  }

  /** A log extended by the write of the next command of a plan. */
  lemma PlanPrefixLogSnoc(w0: seq<Frame>, plan: seq<ServoCmd>, i: nat)
    requires i < |plan|
    ensures w0 + PlanWrites(plan[..i + 1])
            == (w0 + PlanWrites(plan[..i])) + ServoWrites(plan[i].servo, plan[i].angle)
  {
    assert plan[..i + 1] == plan[..i] + [plan[i]];
    PlanWritesSnoc(plan[..i], plan[i]);
    AppendAssoc(w0, PlanWrites(plan[..i]), ServoWrites(plan[i].servo, plan[i].angle));
  }

  function Repeat(x: int, n: nat): (r: seq<int>)
    ensures |r| == n
    ensures forall k :: 0 <= k < n ==> r[k] == x
  {
    seq(n, _ => x)
  }

  lemma RepeatSnoc(x: int, n: nat)
    ensures Repeat(x, n + 1) == Repeat(x, n) + [x]
  {
  }

  /** A pause log extended by one more pause. */
  lemma RepeatLogSnoc(p0: seq<int>, x: int, n: nat)
    ensures p0 + Repeat(x, n + 1) == (p0 + Repeat(x, n)) + [x]
  {
    RepeatSnoc(x, n);
    AppendAssoc(p0, Repeat(x, n), [x]);
  }

  /** The pauses of a synchronised move: none when it snaps, otherwise
      `steps` pauses of one frame delay each, one per frame. */
  function MovePauses(starts: seq<int>, goals: seq<int>, duration: int): seq<int>
    requires |starts| == |goals|
  {
    if IsSnap(starts, goals, duration) then []
    else
      var steps := Steps(starts, goals);
      Repeat(FrameDelay(duration, steps), steps)
  }

  /** The shape of a move: a snap is exactly one write per servo and no
      pause; otherwise `steps` = the largest distance frames, each writing
      every moving servo, `steps` pauses of at least 1 ms each, and the
      snap at the end, whose writes put every servo on its goal. */
  lemma MoveShape(starts: seq<int>, goals: seq<int>, duration: int)
    requires |starts| == |goals|
    ensures var plan := MovePlan(starts, goals, duration);
            |plan| >= |goals| && plan[|plan| - |goals|..] == SnapPlan(goals)
    ensures IsSnap(starts, goals, duration) ==>
            |MovePlan(starts, goals, duration)| == |goals| && MovePauses(starts, goals, duration) == []
    ensures !IsSnap(starts, goals, duration) ==>
            var steps := MaxDist(starts, goals);
            |MovePlan(starts, goals, duration)| == steps * MovingCount(starts, goals, |goals|) + |goals|
            && |MovePauses(starts, goals, duration)| == steps
            && forall p :: p in MovePauses(starts, goals, duration) ==> p == FrameDelay(duration, steps) && p >= 1
  {
    if !IsSnap(starts, goals, duration) {
      var steps := Steps(starts, goals);
      InterpPlanLength(starts, goals, steps, steps);
      var ip := InterpPlan(starts, goals, steps, steps);
      assert (ip + SnapPlan(goals))[|ip|..] == SnapPlan(goals);
    }
  }

  /** The angles sweepServo visits: one degree per step toward the target;
      empty when already there. */
  function SweepPath(from: int, to: int): (p: seq<int>)
    ensures |p| == Dist(to, from)
    ensures forall k :: 0 <= k < |p| ==> p[k] == if from < to then from + (k + 1) else from - (k + 1)
    decreases Dist(to, from)
  {
    if from == to then []
    else
      var next := if from > to then from - 1 else from + 1;
      [next] + SweepPath(next, to)
  }

  /** A sweep ends on its target, moves one degree at a time, and every
      angle it visits is strictly closer to the target and on the way. */
  lemma SweepPathSteps(from: int, to: int)
    ensures var p := SweepPath(from, to);
      && (p != [] ==> p[|p| - 1] == to && Dist(p[0], from) == 1)
      && (forall k :: 0 < k < |p| ==> Dist(p[k], p[k - 1]) == 1)
      && (forall k :: 0 <= k < |p| ==> Dist(to, p[k]) == Dist(to, from) - (k + 1) && Between(p[k], from, to))
  {
  }
}
