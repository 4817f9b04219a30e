# NeZha V2 motor-board driver, modelled in Dafny

This project models the protocol and arithmetic core of the MakeCode driver for the
MINTspark NeZha V2 motor board (`main.ts`). The board sits on the I2C bus at address
0x10 and takes 8-byte command frames `[0xFF, 0xF9, motor, direction, opcode, b5, b6, b7]`.

The model covers:

- **Enumerations** (`types.dfy`, module `NezhaTypes`): motor connectors M1..M4, the
  movement modes, the rotation directions, and the servo movement modes, each with the number it
  takes on the wire, and the tank's forward/backward direction.
- **Speed mapper** (`speed_mapper.dfy`): `restrictSpeed`. It clamps a request to
  ±100, raises small non-zero requests to `minSpeed` (5) and maps the rest affinely
  onto `[minSpeed, maxSpeed]` (`maxSpeed` is 100). `Math.map` is modelled in exact
  rational arithmetic.
- **Motion timing** (`motion_timing.dfy`): `getMotorDelay`, the time estimate for
  timed and positional moves, and the pause that `runMotorFor` derives from it.
- **Frame codec** (`codec.dfy`):
  - A `Command` value for each of the six opcodes the driver sends: 0x60, 0x70,
    0x77, 0x5D, 0x47 and 0x46.
  - `Encode` and `Decode` functions between commands and frames, proved to be
    inverses in both directions.
  - The big-endian high/low split of 16-bit values. `(x >> 8) & 0xFF` is modelled
    exactly for every integer as `(x / 256) % 256`, so a 16-bit field wraps around.
  - The little-endian telemetry answers. The 4-byte position is a signed 32-bit
    two's-complement value, as JavaScript's bitwise operators yield it.
- **Angle wrapping** (`angles.dfy`): the `while (x < 0) x += period` loop followed by
  `% period`. It is proved to yield the unique representative in `[0, period)`.
  The absolute seek uses it with period 360 and the position read with period 3600
  tenths.
- **The board** (`board.dfy`, class `Board.NezhaV2`):
  - The module-level tank configuration: the left and right motors, their reversal
    flags and `tankSpeed`.
  - An append-only log of bus and clock events: frames written, reads, pauses and
    the wait-until-still poll.
  - Every exported command as a method. It fills an 8-byte `array` as the source
    does, and its postcondition states exactly which events it appends, in order.
  - The object invariant: every frame in the log decodes to a command.

## Model

| member | source | states |
|---|---|---|
| `NezhaTypes.MotorFromCode` | main.ts:14-23 | connector numbers are exactly 1..4, and each maps back to its connector |
| `NezhaTypes.ModeFromCode` | main.ts:25-32 | movement-mode numbers are exactly 1..3 (turns, degrees, seconds) |
| `NezhaTypes.DirectionFromCode` | main.ts:34-39 | rotation direction numbers are exactly 1 (CW) and 2 (CCW) |
| `NezhaTypes.ServoModeFromCode` | main.ts:41-48 | servo movement-mode numbers are exactly 1..3 |
| `SpeedMapper.MapRange` | main.ts:75-81 | `Math.map` sends the low end of the source range to the low end of the target range, and the high end to the high end |
| `SpeedMapper.Clamp` | main.ts:69-70 | a request is saturated to [-100, 100], and requests inside that range are unchanged |
| `SpeedMapper.RestrictSpeed` | main.ts:68-85 | result is 0 iff the request is 0; a positive request gives [minSpeed, maxSpeed], a negative one the mirror range |
| `SpeedMapper.RestrictSpeedSaturates` | main.ts:69-70 | requests above 100 or below -100 give the same result as ±100 |
| `SpeedMapper.RestrictSpeedOdd` | main.ts:72-82 | restricting the negated request gives the negated result |
| `SpeedMapper.RestrictSpeedMonotone` | main.ts:68-85 | the mapping is non-decreasing |
| `SpeedMapper.RestrictSpeedIdentity` | main.ts:63-82 | with maxSpeed 100, every magnitude in [minSpeed, 100] passes unchanged |
| `SpeedMapper.RestrictSpeedWhole` | main.ts:63-82 | with the shipped bounds every restricted speed is a whole number |
| `MotionTiming.Abs` | main.ts:151 | `Math.abs`: a non-negative number equal to the input or its negation |
| `MotionTiming.MotorDelay` | main.ts:93-111 | 0 when value or speed is 0; seconds mode is value×1000; in degrees and turns mode, the time beyond 500 ms turns the motor at 9 degrees per second per percent of speed |
| `MotionTiming.TurnIsFullRevolution` | main.ts:100-108 | a delay in turns equals the delay for 360 times as many degrees |
| `MotionTiming.SecondsIgnoreSpeed` | main.ts:103-104 | a seconds-mode delay does not depend on the (non-zero) speed |
| `MotionTiming.PositionalDelayExceedsSettle` | main.ts:98-108 | a forward positional move of positive length waits more than 500 ms |
| `MotionTiming.DivideByLarger` | main.ts:101-107 | dividing a non-negative amount by a larger positive speed gives no more |
| `MotionTiming.FasterIsSooner` | main.ts:98-108 | a faster forward move never gets a longer delay |
| `MotionTiming.FullTurnAtFullSpeed` | main.ts:266 | the seek's wait bound `getMotorDelay(100, 1, Turns)` is 900 ms |
| `MotionTiming.RunForPauseAsWritten` | main.ts:171-174 | as written, a counter-clockwise positional move pauses less than the 500 ms settle time |
| `MotionTiming.SignedSpeedShortensPause` | main.ts:173 | a backward full turn at speed 100 pauses 100 ms against 900 ms forward; at speed 30 the pause is negative |
| `MotionTiming.RunForPause` | main.ts:171-174 | the corrected pause is non-negative and exceeds 500 ms for any non-zero positional move |
| `MotionTiming.RunForPauseSymmetric` | main.ts:173 | the corrected pause is the same in both directions |
| `Codec.HiByte` | main.ts:166 | `(x >> 8) & 0xFF` is a byte; with LoByte it rejoins x mod 65536 (SplitJoin16), and x and x mod 65536 give the same byte (SplitIgnoresWrap); also main.ts:206, 261 |
| `Codec.LoByte` | main.ts:168 | `(x >> 0) & 0xFF` is a byte, the low eight bits of x; also main.ts:208, 263 |
| `Codec.SplitJoin16` | main.ts:166-168 | joining `(x >> 8) & 0xFF` and `x & 0xFF` gives x reduced to 16 bits |
| `Codec.JoinSplit16` | main.ts:206-208 | splitting a joined pair of bytes gives the bytes back |
| `Codec.SplitIgnoresWrap` | main.ts:261-263 | the high and low bytes of x and of x mod 65536 agree |
| `Codec.Opcode` | main.ts:134-281 | every command has one of the six opcodes 0x60, 0x70, 0x77, 0x5D, 0x47, 0x46 |
| `Codec.Encode` | main.ts:124-284 | every frame is 8 bytes with 0xFF, 0xF9, the port in byte 2 and the command's opcode in byte 4; in-range payloads give bytes only |
| `Codec.Decode` | main.ts:124-284 | a frame that decodes has 8 bytes, the sync marker, a port 1..4 in byte 2 and the decoded command's opcode in byte 4 |
| `Codec.DecodeEncode` | main.ts:124-284 | every command whose payload fits decodes back from its frame unchanged |
| `Codec.EncodeDecode` | main.ts:124-284 | every frame that decodes is exactly the encoding of the command it decodes to |
| `Codec.Uint16LE` | main.ts:229-230 | the 2-byte speed answer, b1 shifted left by 8 bits OR b0, is a 16-bit number whose low byte is b0 and high byte b1 |
| `Codec.Uint16RoundTrip` | main.ts:229-230 | the 2-byte answer and a 16-bit number determine each other |
| `Codec.SpeedRpm` | main.ts:231 | the rpm reading is the raw count times 0.1852, rounded down |
| `Codec.Uint32LE` | main.ts:287-288 | four answer bytes read little-endian give a number in [0, 2^32) |
| `Codec.Signed32LE` | main.ts:287-288 | the position word is a signed 32-bit number congruent to the unsigned little-endian reading mod 2^32 |
| `Codec.Int32RoundTrip` | main.ts:287-288 | encoding a signed 32-bit number as 4 little-endian bytes and reading it back gives the number |
| `Codec.Int32RoundTripBytes` | main.ts:287-288 | reading 4 bytes as a signed 32-bit number and encoding it again gives the bytes |
| `Angles.Wrap` | main.ts:250-253 | the loop then `%` gives a result in [0, period) congruent to the input (also used for main.ts:289-292) |
| `Angles.DivModUnique` | main.ts:289-292 | a quotient with an in-range remainder is the Euclidean quotient and remainder |
| `Angles.WrapIsRemainder` | main.ts:250-253 | range and congruence determine the wrapped value: it is the Euclidean remainder |
| `Angles.TargetDegrees` | main.ts:250-253 | the seek target lies in [0, 360) and is congruent to the requested angle mod 360 |
| `Angles.PositionDegrees` | main.ts:289-292 | the position reading lies in [0, 360) and is a whole number of tenths congruent to the raw value mod 3600 |
| `Angles.NegativeAggregateExample` | main.ts:288-292 | a raw reading of -4500 tenths reads as 270 degrees |
| `Board.LoggedFrameShape` | main.ts:124-137 | every frame in a well-formed log is 8 bytes with 0xFF 0xF9, a port 1..4 and one of the six opcodes |
| `Board.Magnitude` | main.ts:135 | byte 5 of the run frame is the whole part of the restricted speed's magnitude |
| `Board.RunMotorCommand` | main.ts:121-139 | runMotor's frame is clockwise iff the request is positive; the magnitude is 0 for a stop and otherwise in [minSpeed, maxSpeed] |
| `Board.RunMotorSendsRequest` | main.ts:122-135 | with the shipped bounds a request of magnitude 5..100 is sent unchanged |
| `Board.RunMotorMagnitude` | main.ts:68-85 | byte 5 of the run frame is 0 for a stop, 5 for a request of magnitude 1..4, 100 for a request beyond ±100, and the request's magnitude otherwise (sent at main.ts:135) |
| `Board.StopFrame` | main.ts:182-184 | a stop is the frame FF F9 motor 02 60 00 F5 00 |
| `Board.OppositeRequestsMirror` | main.ts:128-135 | opposite non-zero requests give opposite directions at the same magnitude |
| `Board.ServoSpeedCommand` | main.ts:198-210 | the servo-speed command targets the motor and carries a 16-bit value |
| `Board.RunForCommand` | main.ts:153-168 | the run-for frame is CCW iff the speed is negative and carries the value and the mode |
| `Board.SeekCommand` | main.ts:249-263 | the seek frame carries the target wrapped into [0, 360) and the turn mode |
| `Board.WriteCommand` | main.ts:138 | a command is written to address 0x10 as its encoded frame, which decodes back to the command |
| `Board.RunMotorEvents` | main.ts:121-139 | runMotor writes one well-formed frame |
| `Board.RunMotorForEvents` | main.ts:150-175 | runMotorFor writes the servo-speed frame, then the run-for frame, then pauses only when asked to wait |
| `Board.GoToEvents` | main.ts:249-268 | the seek writes its frame, pauses 100 ms and polls with a 900 ms bound |
| `Board.ReadEvents` | main.ts:217-229 | a read writes its request frame, pauses, then reads the answer |
| `Board.Directed` | main.ts:372 | backward negates the speed, and forward keeps it |
| `Board.SideSpeed` | main.ts:373-374 | a reversed side gets the negated speed, with the same magnitude |
| `Board.OppositeFlagsOppositeSides` | main.ts:373-374 | sides with different reversal flags get opposite speeds |
| `Board.DefaultTankForward` | main.ts:298-301 | with the default configuration, driving forward runs M4 counter-clockwise and M1 clockwise at the requested speed |
| `Board.ServoSpeedFrameCarriesSpeed` | main.ts:151 | runMotorFor's 0x77 frame carries nine times the magnitude of the unrestricted speed, in 16 bits |
| `Board.RunForFrameCarriesRequest` | main.ts:160-168 | the 0x70 frame decodes to the motor, the direction (CCW iff speed < 0), the value and the mode |
| `Board.RunForExample` | main.ts:160-168 | the frame for M2, clockwise, 180 degrees is FF F9 02 01 70 00 02 B4 and decodes back |
| `Board.NezhaV2.constructor` | main.ts:298-302 | the start-up configuration: left M4 reversed, right M1 not reversed, tank speed 30, empty log |
| `Board.NezhaV2.BusWrite` | main.ts:138 | writing a buffer appends it to the log at address 0x10 |
| `Board.NezhaV2.Sleep` | main.ts:173 | a pause appends its length to the log |
| `Board.NezhaV2.RunMotor` | main.ts:121-139 | appends exactly runMotor's frame |
| `Board.NezhaV2.SetServoSpeed` | main.ts:198-210 | appends exactly the 0x77 frame for nine times the speed |
| `Board.NezhaV2.RunMotorFor` | main.ts:150-175 | appends the servo-speed frame, the run-for frame and, only when waiting, the pause |
| `Board.NezhaV2.StopMotor` | main.ts:182-184 | appends one stop frame for the motor |
| `Board.NezhaV2.StopAllMotor` | main.ts:191-196 | appends four stop frames, for M1, M2, M3 and M4 in that order |
| `Board.NezhaV2.ReadServoAbsoluteSpeed` | main.ts:217-232 | appends the 0x47 request, a 3 ms pause and a 2-byte read; returns the rpm of the little-endian answer |
| `Board.NezhaV2.WaitForMotorMovementComplete` | main.ts:235-241 | appends a 100 ms pause and the poll with its time bound |
| `Board.NezhaV2.GoToAbsolutePosition` | main.ts:249-268 | appends the seek frame for the wrapped target, then the 900 ms-bounded wait |
| `Board.NezhaV2.ReadServoAbsolutePosition` | main.ts:275-293 | appends the 0x46 request, a 4 ms pause and a 4-byte read; returns degrees in [0, 360) from the signed answer |
| `Board.NezhaV2.SetTankMotorRight` | main.ts:320-323 | sets the right motor and its flag, and nothing else |
| `Board.NezhaV2.SetTankMotorLeft` | main.ts:333-336 | sets the left motor and its flag, and nothing else |
| `Board.NezhaV2.DriveTank` | main.ts:371-377 | runs the left motor, then the right, each at the directed speed negated if that side is reversed |
| `Board.NezhaV2.StopTank` | main.ts:384-387 | stops the left motor, then the right |
| `Board.NezhaV2.DriveTankDualSpeed` | main.ts:396-401 | runs each side at its own speed, negated if that side is reversed, left first |
| `Board.NezhaV2.DriveTankFor` | main.ts:409-416 | runs the left side without waiting, then the right side with a wait, both at tankSpeed; its own `wait` is ignored |

## Left out

- Bus transfers (`pins.i2cWriteBuffer`, `pins.i2cReadBuffer`) are events in the log. The bytes a read returns are a parameter of the reading method.
- `basic.pause` is a `Pause` event. `input.runningTime` is not modelled.
- Board.NezhaV2.WaitForMotorMovementComplete records its poll as one `AwaitStill` event. The polling loop depends on hardware-reported speed and a wall clock. The read-speed frames the loop writes are therefore not in the log.
- `setTankWheelDiameter` and `wheelCircumferenceMm` are left out. They use floating-point π, and no code reads the circumference.
- `setTankSpeed` is not exported and never called. `tankSpeed` is a field that stays at its start value of 30.
- Speeds, values and angles are whole numbers. JavaScript's truncation of fractional numbers in `>>`, `&` and buffer stores is not modelled.
- Codec.SpeedRpm uses the exact fraction 1852/10000 in place of the source's double product `raw * 0.0926 * 2`; the double arithmetic itself is not modelled. The floors agree on every 16-bit reading: the double nearest 0.0926 lies just above it, so at a multiple of 2500 the product cannot fall below the exact whole or half number, and elsewhere the exact product is at least 1/2500 away from the next whole number, far more than the rounding error.
- Angles.PositionDegrees divides by exactly 10. The source multiplies by the double 0.1, which is not exact.
- The optional `wait` argument is a `bool`. An omitted argument (`undefined`) behaves as `false`, as `wait == true` does in the source.
- MotionTiming.MotorDelay is the exact rational estimate. The source divides IEEE doubles (main.ts:101, 107) and hands that double to `basic.pause`, so its value can differ in the last bits.
- Board.RunMotorForEvents logs the corrected pause `RunForPause` at the speed's magnitude (see Findings), not the signed estimate main.ts:173 computes. For a negative speed and a positive value in turns or degrees mode, the model logs more than 500 ms where the source pauses less; with a negative value as well the model's pause is the shorter one; in seconds mode the two agree.
- Board.NezhaV2.RunMotorFor pauses for the corrected estimate (see Findings), not for the estimate main.ts:173 computes.
- Board.NezhaV2.DriveTankFor inherits that corrected pause for the right motor: when exactly one of driving backward and a reversed right motor holds, for a positive value the source's pause is the negative one (about -833 ms for one turn at 30) and the model's the positive one; for a negative value it is the other way round.

## Findings

| source | as written | input that shows it | evidently intended | confidence | as-written member | corrected member |
|---|---|---|---|---|---|---|
| main.ts:173 | `runMotorFor` passes the signed speed to `getMotorDelay`, so a counter-clockwise move gets `value*k/(9*speed) + 500` with a negative speed: less than 500 ms, or negative | `runMotorFor(M1, -100, 1, Turns, true)` pauses 100 ms; the same move forward pauses 900 ms. `driveTankFor(Backward, 1, Turns)` with the default configuration gives the right motor -30, for a pause of about -833 ms | pause for the estimate at the speed's magnitude, the same in both directions | medium, not executed | `MotionTiming.RunForPauseAsWritten` | `MotionTiming.RunForPause` |
