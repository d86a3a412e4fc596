/** The drive controller: H-bridge motor channels and the two-sensor
    line follower. Both operations only choose values; the PWM calls they
    make are returned as data. */
module Drive {
  import opened Numbers
  import opened Pca9685

  /** Motor identities; motor m drives channels 2(m-1) (forward) and 2(m-1)+1 (reverse). */
  const M1A: int := 1
  const M1B: int := 2
  const M2A: int := 3
  const M2B: int := 4

  /** A digital line sensor reads 0 over the line. */
  const ON_LINE: int := 0
  /** The speed of the inner wheel in a turn. */
  const SLOW_SPEED: int := 0

  /** The source's speed scaling: `speed * 16`, then 4096 and above become
      4095 and -4096 and below become -4095. The result is the tick in
      [-4095, 4095] nearest to 16 * speed. */
  function ScaleSpeed(speed: int): (s: int)
    ensures -4095 <= s <= 4095
    ensures forall v :: -4095 <= v <= 4095 ==> Dist(16 * speed, s) <= Dist(16 * speed, v)
  {
    var s := speed * 16;
    if s >= 4096 then 4095 else if s <= -4096 then -4095 else s
  }

  /** Full speed 255 maps to 4080 ticks, inside the range and so not clamped. */
  lemma FullSpeedNotClamped()
    ensures ScaleSpeed(255) == 4080 && ScaleSpeed(-255) == -4080
  {
  }

  /** The setPwm calls of motorRun: none for a motor outside 1..4; otherwise
      the forward channel, then the reverse channel, with on tick 0. The
      sign of the speed picks the channel that gets the duty; the other gets
      0, so both sides of the bridge are never driven at once. */
  function MotorRun(index: int, speed: int): (calls: seq<PwmCall>)
    ensures !(1 <= index <= 4) ==> calls == []
    ensures 1 <= index <= 4 ==>
      |calls| == 2
      && calls[0].channel == 2 * (index - 1) && calls[1].channel == calls[0].channel + 1
      && calls[0].on == 0 && calls[1].on == 0
      && (calls[0].off == 0 || calls[1].off == 0)
      && 0 <= calls[0].off <= 4095 && 0 <= calls[1].off <= 4095
      && calls[0].off - calls[1].off == ScaleSpeed(speed)
  {
    var s := ScaleSpeed(speed);
    if index > 4 || index <= 0 then []
    else
      var pp := (index - 1) * 2;
      var pn := (index - 1) * 2 + 1;
      if s >= 0 then [PwmCall(pp, 0, s), PwmCall(pn, 0, 0)]
      else [PwmCall(pp, 0, 0), PwmCall(pn, 0, -s)]
  }

  /** On the bus a valid motorRun is exactly two payloads, forward channel
      first; an invalid one writes nothing. */
  lemma MotorRunFrames(index: int, speed: int)
    ensures |CallWrites(MotorRun(index, speed))| == (if 1 <= index <= 4 then 2 else 0)
    ensures 1 <= index <= 4 ==>
      var c := MotorRun(index, speed);
      CallWrites(c) == [PwmFrame(c[0].channel, 0, c[0].off), PwmFrame(c[1].channel, 0, c[1].off)]
  {
    var calls := MotorRun(index, speed);
    if 1 <= index <= 4 {
      assert calls[..1][..0] == [];
      assert calls[..|calls| - 1] == calls[..1];
      assert CallWrites(calls[..1]) == PwmWrite(calls[0].channel, calls[0].on, calls[0].off);
    }
  }

  /** A motor command: motorRun(motor, speed). */
  datatype MotorCmd = MotorCmd(motor: int, speed: int)

  /** The line follower's speed limit, clamped to [0, 255]. */
  function ClampSpeed(maxSpeed: int): (m: int)
    ensures 0 <= m <= 255
    ensures forall v :: 0 <= v <= 255 ==> Dist(maxSpeed, m) <= Dist(maxSpeed, v)
  {
    if maxSpeed < 0 then 0 else if maxSpeed > 255 then 255 else maxSpeed
  }

  /** One step of the line follower: the two motorRun calls for M1A and M2A
      chosen by the two sensor readings. The left motor runs exactly when
      the right sensor is on the line, and the right motor exactly when the
      left sensor is. */
  function LineFollowStep(maxSpeed: int, left: int, right: int): (cmds: seq<MotorCmd>)
    ensures |cmds| == 2 && cmds[0].motor == M1A && cmds[1].motor == M2A
    ensures cmds[0].speed == (if right == ON_LINE then ClampSpeed(maxSpeed) else 0)
    ensures cmds[1].speed == (if left == ON_LINE then ClampSpeed(maxSpeed) else 0)
  {
    var m := ClampSpeed(maxSpeed);
    if left == ON_LINE && right == ON_LINE then
      [MotorCmd(M1A, m), MotorCmd(M2A, m)]
    else if left == ON_LINE && right != ON_LINE then
      [MotorCmd(M1A, SLOW_SPEED), MotorCmd(M2A, m)]
    else if right == ON_LINE && left != ON_LINE then
      [MotorCmd(M1A, m), MotorCmd(M2A, SLOW_SPEED)]
    else
      [MotorCmd(M1A, 0), MotorCmd(M2A, 0)]
  }

  /** The four rows of the decision table. */
  lemma LineFollowTable(maxSpeed: int, left: int, right: int)
    ensures var m := ClampSpeed(maxSpeed);
      var speeds := (LineFollowStep(maxSpeed, left, right)[0].speed,
                     LineFollowStep(maxSpeed, left, right)[1].speed);
      (left == 0 && right == 0 ==> speeds == (m, m))
      && (left == 0 && right != 0 ==> speeds == (0, m))
      && (left != 0 && right == 0 ==> speeds == (m, 0))
      && (left != 0 && right != 0 ==> speeds == (0, 0))
  {
  }

  /** The setPwm calls of one line-follow step. */
  function LineFollowCalls(maxSpeed: int, left: int, right: int): seq<PwmCall>
  {
    var cmds := LineFollowStep(maxSpeed, left, right);
    MotorRun(cmds[0].motor, cmds[0].speed) + MotorRun(cmds[1].motor, cmds[1].speed)
  }

  /** A line-follow step drives only channels 0, 1 (M1A) and 4, 5 (M2A),
      forward only: the reverse channels get 0 and a forward channel gets
      16 times the chosen speed, at most 4080. */
  lemma LineFollowChannels(maxSpeed: int, left: int, right: int)
    ensures var calls := LineFollowCalls(maxSpeed, left, right);
      var cmds := LineFollowStep(maxSpeed, left, right);
      |calls| == 4
      && calls[0].channel == 0 && calls[1].channel == 1
      && calls[2].channel == 4 && calls[3].channel == 5
      && calls[1].off == 0 && calls[3].off == 0
      && calls[0].off == 16 * cmds[0].speed && calls[2].off == 16 * cmds[1].speed
      && calls[0].off <= 4080 && calls[2].off <= 4080
  {
    var cmds := LineFollowStep(maxSpeed, left, right);
    assert ScaleSpeed(cmds[0].speed) == 16 * cmds[0].speed;
    assert ScaleSpeed(cmds[1].speed) == 16 * cmds[1].speed;
  }
}
