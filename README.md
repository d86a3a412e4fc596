# pxt-blinkbot-v1 core in Dafny

This project models the actuator and event layer of the BlinkBot MakeCode extension. The `BlinkCore` namespace drives a PCA9685 16-channel PWM expander at I2C address 0x40. Servos S1..S8 sit on channels 8..15 and the H-bridge motor channels on 0..7. The process-wide table `servoCurrentPos` remembers the angle that `sweepServo` or `moveServosSync` last moved each servo to; `setServo` itself writes the channel and leaves the table alone. On top of that:

- `setServo`, `sweepServo` and `moveServosSync` move the servos;
- `motorRun` and `lineFollowStep` drive the motors;
- `initPCA9685` resets every channel.

The `BlinkEvent` namespace runs two edge-triggered watchers, colour and darkness, that raise events on the MakeCode event bus.

Modules:

- `numbers.dfy` (`Numbers`): distances and the "between" relation.
- `pca9685.dfy` (`Pca9685`):
  - the register constants;
  - JavaScript's ToInt32 and the `& 0xff` / `>> 8` byte split;
  - the 5-byte payload of one channel write and its decoding;
  - the MODE1 bit manipulations.
- `servo_math.dfy` (`ServoMath`): the servo engine's arithmetic and the sequences of `setServo` calls ("plans") each operation issues, for the snap, the interpolation frames, the whole synchronised move and the sweep path.
- `drive.dfy` (`Drive`): `motorRun` and `lineFollowStep` as functions returning the PWM calls and motor commands they make.
- `board.dfy` (`BlinkCore`): class `Board`.
  - The persisted angle table is a field `pos`.
  - Everything written to the expander goes to a log `writes` of byte buffers, and every `basic.pause` to a log `pauses`.
  - Each operation of the namespace is a method.
  - Each method's contract states its new table and logs in terms of the `ServoMath` and `Drive` functions.
- `blink_event.dfy` (`BlinkEvent`): class `Watchers`.
  - It holds `lastColor`, the two start flags, the parallel arrays `darkThresholds`/`darkLastState`, and logs of raised events, registered handlers and pauses.
  - Each background loop is modelled by one poll of its body. Pure functions describe one poll and a run of successive polls.

Both signatures of `moveServosSync` are instantiated from one method, `Board.MoveSync`:

- the 8-servo form of main.ts, with duration last;
- the 4-servo form of servo.ts, with duration first.

The copies of `setServo`, `sweepServo` and `motorRun` in servo.ts and motor.ts are identical to those in main.ts, and are modelled once.

## Model

| member | source | states |
|---|---|---|
| Pca9685.LowByte | main.ts:78-80 | `v & 0xff`: the ToInt32 value reduced modulo 256, always a byte; ByteSplit states what the pair means |
| Pca9685.HighByte | main.ts:79-81 | `(v >> 8) & 0xff`: the ToInt32 value floor-divided by 256, then reduced modulo 256 |
| Pca9685.ToInt32 | main.ts:78-81 | the operand of `&` and `>>` is reduced modulo 2^32 into the signed 32-bit range, and is unchanged when it already lies there |
| Pca9685.PwmFrame | main.ts:76-81 | the payload has 5 bytes and starts with register 6 + 4 * channel |
| Pca9685.PwmWrite | main.ts:74-83 | a channel outside 0..15 writes nothing; a valid channel writes exactly one payload |
| Pca9685.ByteSplit | main.ts:78-81 | low byte + 256 * high byte is the value modulo 2^16, and is the value itself for 0 <= v < 65536 |
| Pca9685.PwmFrameWords | main.ts:78-82 | bytes 1-2 and 3-4 of a payload reconstruct the on and off ticks modulo 2^16 |
| Pca9685.DecodePwmFrame | main.ts:78-82 | decoding a payload recovers the channel and both tick values modulo 2^16 |
| Pca9685.DecodePwmFrameExact | main.ts:78-82 | for ticks below 65536, decoding a payload gives back exactly the call that produced it |
| Pca9685.ZeroCalls | main.ts:40-42 | the channel reset is one call per channel k = 0..n-1, with on 0 and off 0, in channel order |
| Pca9685.SleepMode | main.ts:66 | the sleep mode sets bit 4, clears bit 7 and keeps the other bits of the old mode |
| Pca9685.RestartMode | main.ts:71 | the restart mode sets bits 7, 5 and 0 and keeps the other bits |
| ServoMath.Clamp | main.ts:148-149 | a clamped target lies in [0, 180] and is the angle of that range nearest to the request |
| ServoMath.Clamped | main.ts:146-149 | every target is clamped, position by position |
| ServoMath.TruncPeriod | main.ts:95 | the tick quotient is truncated toward zero, for negative numerators as well |
| ServoMath.ServoPulse | main.ts:94 | the pulse width is 600 us plus 10 us per degree |
| ServoMath.ServoTick | main.ts:94-95 | the off tick is the pulse width times 4096 over 20000, truncated toward zero; ServoTickMonotone and ServoTickRange state its properties |
| ServoMath.ServoTickMonotone | main.ts:94-96 | a larger degree never gives a smaller off tick |
| ServoMath.ServoTickRange | servo.ts:6-8 | for 0..180 degrees the off tick lies in [122, 491]; 0, 90 and 180 degrees give 122, 307 and 491 |
| ServoMath.ServoWrites | main.ts:92-97 | the bus effect of setServo(servo, degree): the setPwm frames of channel servo + 7 with on 0 and off ServoTick(degree); ServoWriteFrame states their content |
| ServoMath.ServoWriteFrame | main.ts:92-97 | setServo(i, d) writes one payload for channel i + 7 (8..15) with on 0 and off ServoTick(d); for d in 0..180 it decodes back exactly |
| ServoMath.Round | main.ts:195 | Math.round gives the integer within half of the value, with halves rounded up |
| ServoMath.Increment | main.ts:187 | the per-frame increment delta / steps, as an exact rational |
| ServoMath.Accum | main.ts:186-194 | the accumulator after k frames: the start plus k additions of the increment; AccumClosed gives its closed form |
| ServoMath.AccumClosed | main.ts:194 | after k frames the accumulator equals start + k * increment |
| ServoMath.FrameAngle | main.ts:194-195 | the angle written in frame k is Math.round of the accumulator after k increments; FrameAngleBetween bounds it |
| ServoMath.FrameAngleBetween | main.ts:191-200 | the angle of frame k lies between the start and the target; frame 0 is the start and frame `steps` is the target |
| ServoMath.MaxDist | main.ts:146-161 | the running maximum of the servos' distances, taken over servos 1..n in order; MaxDistIsMax and MaxDistUnique characterise it |
| ServoMath.MaxDistIsMax | main.ts:159-160 | maxDist bounds every distance and some servo attains it; with no servos it is 0 |
| ServoMath.MaxDistUnique | main.ts:146-161 | any bound that some servo attains is the maxDist the loop computes |
| ServoMath.MaxDistSnoc | main.ts:159-160 | one more servo makes maxDist the larger of the old maximum and that servo's distance |
| ServoMath.MaxDistZero | main.ts:164 | maxDist is 0 exactly when every target equals its start |
| ServoMath.Steps | main.ts:175-176 | steps is at least 1 and equals maxDist whenever maxDist >= 1 |
| ServoMath.StepsCoverAll | main.ts:175-176 | no servo's distance exceeds the number of frames |
| ServoMath.FrameDelay | main.ts:179-180 | frameDelay is at least 1 and is floor(duration / steps) when that is larger |
| ServoMath.PlanWritesFrames | main.ts:92-97 | for valid servos, the k-th buffer on the bus is the single payload of the k-th setServo call |
| ServoMath.FramePlan | main.ts:192-199 | the setServo calls of one frame, for servos 1..n in order, only for servos whose target differs from the start; FramePlanLength, FramePlanSound and FramePlanComplete state its content |
| ServoMath.InterpPlan | main.ts:191-202 | the calls of frames 1..k, frame by frame; InterpPlanLength and InterpPlanMovingOnly state its content |
| ServoMath.IsSnap | main.ts:164 | a move snaps exactly when maxDist is 0 or duration <= 0 |
| ServoMath.SnapPlan | main.ts:165-170 | the snap loop, here and at main.ts:205-210: servo i + 1 is set to goal i, for every servo in order; MoveShape states that every move ends with it |
| ServoMath.MovePlan | main.ts:163-210 | the calls of a whole move: the snap alone when maxDist is 0 or duration <= 0, else all frames and then the snap; MoveShape states its shape |
| ServoMath.MovePauses | main.ts:163-202 | the pauses of a whole move: none for a snap, else one of frameDelay per frame; MoveShape states its shape |
| ServoMath.FramePlanLength | main.ts:192-199 | a frame makes exactly as many writes as there are moving servos |
| ServoMath.FramePlanSound | main.ts:192-199 | every write of a frame is of a moving servo, with its rounded accumulator, which lies between its start and target |
| ServoMath.FramePlanComplete | main.ts:192-199 | every moving servo is written in every frame |
| ServoMath.LastFrameAtGoals | main.ts:191-199 | in the last frame every moving servo is written with its clamped target exactly |
| ServoMath.InterpPlanLength | main.ts:191-202 | k frames make k times as many writes as there are moving servos |
| ServoMath.InterpPlanMovingOnly | servo.ts:96-104 | the interpolation never writes a servo with delta 0, and never writes an angle outside [start, target] |
| ServoMath.MoveShape | main.ts:163-210 | a snap is one write per servo and no pause; otherwise maxDist frames of writes followed by the final snap, and maxDist pauses, each of frameDelay >= 1 |
| ServoMath.SweepPath | main.ts:107-115 | the sweep visits from±1, from±2, … toward the target: exactly Dist(target, from) angles |
| ServoMath.SweepPathSteps | servo.ts:20-28 | each sweep angle is one degree from the previous, strictly closer to the target and on the way; the last angle is the target |
| Drive.ScaleSpeed | motor.ts:5-11 | the scaled duty lies in [-4095, 4095] and is the value of that range nearest to 16 * speed |
| Drive.FullSpeedNotClamped | motor.ts:5 | speeds 255 and -255 scale to 4080 and -4080, which are not clamped |
| Drive.MotorRun | motor.ts:4-22 | no call for a motor outside 1..4; otherwise channels 2(m-1) then 2(m-1)+1, with on 0; at most one of the two is nonzero, both lie in [0, 4095], and their difference is the scaled speed |
| Drive.MotorRunFrames | motor.ts:13-21 | a valid motorRun writes exactly two payloads, forward channel first; an invalid one writes none |
| Drive.ClampSpeed | motor.ts:34-35 | the speed limit lies in [0, 255] and is the value of that range nearest to the request |
| Drive.LineFollowStep | motor.ts:28-65 | two commands, M1A then M2A; M1A runs at the clamped limit exactly when the right sensor is on the line, and M2A exactly when the left one is |
| Drive.LineFollowTable | motor.ts:48-64 | the four rows of the decision table, with slowSpeed 0 |
| Drive.LineFollowCalls | motor.ts:48-64 | the PWM calls of a line-follow step: the two motorRun calls of its commands, M1A first; LineFollowChannels states what they write |
| Drive.LineFollowChannels | motor.ts:48-64 | a line-follow step drives only channels 0, 1, 4 and 5, forward only, with at most 4080 ticks |
| BlinkCore.StartAccumulators | main.ts:183-188 | every accumulator starts at its servo's persisted angle and advances by delta / steps |
| BlinkCore.Board.constructor | main.ts:25-34 | every servo starts persisted at 90 degrees, and the logs start empty |
| BlinkCore.Board.SetPwm | main.ts:74-83 | the bus log grows by exactly PwmWrite(channel, on, off); the table and pauses are unchanged |
| BlinkCore.Board.SetServo | main.ts:92-97 | the bus log grows by the payload for channel index + 7; the degree is not clamped |
| BlinkCore.Board.SweepServo | main.ts:101-116 | the servo ends at `degree`, in range or not; every angle of the sweep path is written in order, and Dist(degree, start) pauses of `delay` are logged; the other servos keep their angles |
| BlinkCore.Board.SweepStep | servo.ts:20-27 | one iteration moves the persisted angle one degree toward `degree`, writes it and pauses; the distance to `degree` strictly decreases |
| BlinkCore.Board.SnapServos | main.ts:205-210 | servos 1..n are written with their goals in order and persisted there; the rest keep their angles |
| BlinkCore.Board.SnapNext | main.ts:206-209 | one snap step writes and persists the next servo |
| BlinkCore.Board.PrepareMove | main.ts:146-161 | the targets are clamped, the starts are the persisted angles, each delta is target - start, and maxDist is the largest distance |
| BlinkCore.Board.WriteAndPersist | main.ts:197-198 | setServo(i + 1, angle) and the table update that follows it: slot i becomes the angle, the bus log grows by that servo's payload, and nothing else changes |
| BlinkCore.Board.InterpFrame | main.ts:192-200 | each moving servo's accumulator advances by its increment and the servo is persisted at the rounded value; a servo with delta 0 is untouched; the writes are those of the frame |
| BlinkCore.Board.FrameServo | main.ts:193-199 | one servo of a frame: written and persisted at the rounded accumulator when it is moving, left alone otherwise |
| BlinkCore.Board.RunFrame | main.ts:191-201 | after frame k + 1, every moving servo is persisted at round(start + (k + 1) * delta / steps) and the others keep their angles; the frame's writes and one pause of frameDelay are logged |
| BlinkCore.Board.RunFrames | main.ts:191-202 | after `steps` frames every moving servo is persisted at the angle of the last frame; the writes of all frames and `steps` pauses are logged |
| BlinkCore.Board.MoveSync | main.ts:146-210 | afterwards servos 1..n are persisted at their clamped targets and the rest are unchanged; the writes and pauses are exactly those of MovePlan and MovePauses |
| BlinkCore.Board.MoveServosSync | main.ts:128-211 | after the 8-servo move every servo is persisted at clamp(s_i, 0, 180), with the writes and pauses of the move |
| BlinkCore.Board.MoveServosSync4 | servo.ts:37-116 | after the 4-servo move S1..S4 are persisted at clamp(s_i, 0, 180) and S5..S8 are unchanged |
| BlinkCore.Board.InitPCA9685 | main.ts:37-49 | the bus log grows by the MODE1 reset, one off-write per channel 0..15, then one write per servo of its persisted angle; the table is unchanged; setFreq's writes omitted |
| BlinkCore.Board.ZeroChannels | main.ts:40-42 | channels 0..15 are switched off, in order |
| BlinkCore.Board.RestoreServos | main.ts:44-48 | S1..S8 are written with their persisted angles, in order |
| BlinkCore.Board.MotorRun | main.ts:214-232 | the bus log grows by exactly the writes of Drive.MotorRun |
| BlinkCore.Board.LineFollowStep | motor.ts:28-65 | the bus log grows by the writes of the two motorRun calls of the decision table |
| BlinkEvent.Code | main.ts:241-248 | the colour codes are 1, 2 and 3 |
| BlinkEvent.DetectColor | main.ts:281-283 | Red iff r > g and r > b; Green iff g > r and g > b; Blue otherwise, ties included |
| BlinkEvent.ColorPollEvents | main.ts:301-304 | one colour poll raises the current code exactly when it differs from the remembered one, and nothing otherwise |
| BlinkEvent.ColorEvents | main.ts:297-307 | the events of successive colour polls over a run of samples, each poll comparing with the code the previous one left; ColorEventsShape, ColorEventsChanges and ColorExample characterise it |
| BlinkEvent.ColorEventsShape | main.ts:297-307 | successive colour polls raise at most one event each, always a colour event carrying a code 1..3 |
| BlinkEvent.ColorEventsChanges | main.ts:301-304 | the watcher never raises the colour it remembers nor the same colour twice in a row; lastColor is always the colour seen last |
| BlinkEvent.FirstColorPollRaises | main.ts:289 | since lastColor starts at 0, the first poll always raises the colour it sees |
| BlinkEvent.ColorExample | main.ts:301-304 | seeing Red, Red, Green from the start raises code 1 once and then code 2: an unchanged colour raises nothing |
| BlinkEvent.Raises | main.ts:329 | an entry raises its event when the light is below its threshold and it was not dark before; DarkEventsSnoc states that each entry contributes exactly this |
| BlinkEvent.DarkStates | main.ts:327-333 | after a poll, an entry is dark exactly when the light is below its threshold |
| BlinkEvent.DarkEvents | main.ts:325-334 | the events of one dark poll, entry by entry in array order; DarkEventsSnoc states each entry's contribution and DarkEventsExact the overall content |
| BlinkEvent.DarkEventsExact | main.ts:325-334 | a poll raises no more events than there are entries, all of id 3101; threshold t is raised iff some entry with threshold t reads light < t and was not dark (entries sharing a threshold are told apart by DarkEventsSnoc) |
| BlinkEvent.DarkEventsSnoc | main.ts:326-333 | entry i adds exactly one event with its threshold when it raises and nothing otherwise, after the events of entries 0..i-1 |
| BlinkEvent.DarkScan | main.ts:325-334 | the entry loop, in array order, produces exactly DarkStates and DarkEvents for one reading |
| BlinkEvent.DarkTrace | main.ts:322-337 | the events of successive dark polls, one list per reading; DarkTracePoll and DarkExample characterise it |
| BlinkEvent.DarkTracePoll | main.ts:322-337 | poll k compares its reading with the states the previous reading left, so an entry raises exactly when the light drops below its threshold |
| BlinkEvent.DarkExample | main.ts:323-334 | with threshold 50 and readings 60, 40, 40, 60, 30, events fire at polls 1 and 4 only |
| BlinkEvent.Watchers.constructor | main.ts:289-315 | lastColor starts at 0, both flags are false, and the dark arrays are empty |
| BlinkEvent.Watchers.StartColorMonitoring | main.ts:292-309 | the colour loop is started only when it is not yet running, so at most one ever runs |
| BlinkEvent.Watchers.OnColorDetected | main.ts:253-258 | the colour loop runs (once) and a handler is registered for the colour's event |
| BlinkEvent.Watchers.ColorPoll | main.ts:298-306 | an event with the current code is raised exactly when it differs from lastColor, lastColor becomes the current code, and the pause is 200 ms |
| BlinkEvent.Watchers.StartDarkWatcher | main.ts:317-339 | the dark loop is started only when it is not yet running, so at most one ever runs |
| BlinkEvent.Watchers.OnDark | main.ts:346-356 | the threshold and `false` are appended to the two arrays, which stay of equal length; the dark loop runs (once); a handler is registered for the threshold |
| BlinkEvent.Watchers.DarkPoll | main.ts:323-336 | every entry's state becomes light < threshold; the events raised are exactly DarkEvents, in array order; the pause is 100 ms |

## Left out

- The table `servoCurrentPos` is a dictionary keyed "S1".."S8". It is modelled as a sequence field of eight angles, updated by reassignment.
- The undefined-entry fallbacks are left out: `moveServosSync` takes 90 as the start when a table entry is undefined (main.ts:153, servo.ts:58), and `initPCA9685` skips such a servo (main.ts:47). The model never stores undefined, so in the model neither branch can run. In the source they do run after a 4-servo move of servo.ts has persisted undefined for S5..S8 (see the MoveServosSync4 line).
- `setFreq` (main.ts:58-72) is left out:
  - it reads MODE1 from the device;
  - it divides in floating point with no rounding;
  - it busy-waits.
  Only its two mode expressions are modelled, as `SleepMode` and `RestartMode`. `InitPCA9685`'s log therefore holds none of `setFreq`'s bus traffic: the register-select write inside `i2cread` (main.ts:86), the MODE1 writes of the sleep mode, the old mode and the restart mode (main.ts:67, 69, 71), and the prescale write (main.ts:68).
- Bus I/O is left out: `i2cwrite`, `i2cread`, i2c.ts and `pins.i2cWriteBuffer`. A bus write is an entry in the ghost log `writes`, and nothing is read back.
- Background loops are left out: `control.inBackground`, the infinite `while (true)` loops and the interleaving of the two watchers with each other and with the servo code are concurrency. Only one poll of each loop body is modelled, plus pure functions over a sequence of polls.
- Timing is left out: `basic.pause` only appends its argument to a ghost log `pauses` and does not wait. That log is separate from the bus log `writes`, so the model records how many pauses each operation makes and how long they are, but not where each pause falls between the bus writes.
- The event bus is left out. `control.raiseEvent` appends an (id, value) pair to a log. `control.onEvent` records the pair the handler listens for; the handler itself and event dispatch are not modelled.
- Sensor readings are left out: `Math.random` in `detectColor`, `input.lightLevel()` and `pins.digitalReadPin` are replaced by parameters. `DetectColor` accepts any integers, not only the 0..254 that flooring a random sample gives.
- BlinkCore.Board.MoveServosSync4: S5..S8 are left unchanged. The source's `targets` array has only five entries (servo.ts:45), yet every loop runs to S8. The source would therefore write S5..S8 with undefined targets and persist undefined for them. The model restricts the 4-servo move to S1..S4 instead of modelling undefined or NaN values.
- The accumulator of `moveServosSync` is an exact rational, not an IEEE double. Rounding error in `current[i] += inc[i]` is not modelled, so `Round` of the last frame lands exactly on the target.
- BlinkCore.Board.SweepServo: requires a servo index 1..8. For any other index the source reads an absent key, so its `!==` loop never ends.
- Angles, speeds, thresholds, the `duration` of `moveServosSync` and the `delay` of `sweepServo` are integers. A non-integer degree makes `sweepServo`'s `!==` loop run forever, and is outside the model. A fractional `duration` would reach `Math.floor(duration / steps)` and the `duration <= 0` test (main.ts:164-179); the model covers only whole milliseconds.
- The empty stubs `rotateArm`, `liftArm` and `controlGripper` (servo.ts:144-160) and the editor annotations carry no behaviour.
- The `Byte[5]` buffer of `setPwm` is built in a fresh array and logged by value. Aliasing of bus buffers is not modelled.
