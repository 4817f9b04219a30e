/**
 * The NeZha V2 motor board as the driver sees it: commands that fill an 8-byte
 * buffer and write it to the board at address 0x10, and the tank-mode
 * configuration that turns one drive request into commands for two motors.
 * The bus and the clock appear as one log of events, oldest first.
 */
module Board {
  import opened NezhaTypes
  import opened SpeedMapper
  import opened MotionTiming
  import opened Codec
  import Angles

  const I2cAddress: int := 0x10

  /** What the driver does on the bus and with the clock. */
  datatype Event =
    | Write(address: int, frame: seq<int>)
    | Read(address: int, count: nat)
    | Pause(ms: real)
      /** Poll the motor's speed until it stops or maxMs have passed. */
    | AwaitStill(motor: MotorConnector, maxMs: real)

  /** Every frame written to the bus is one the board decodes. */
  ghost predicate FramesWellFormed(log: seq<Event>) {
    forall i :: 0 <= i < |log| && log[i].Write? ==> Decode(log[i].frame).Some?
  }

  lemma AppendWellFormed(log: seq<Event>, more: seq<Event>)
    requires FramesWellFormed(log) && FramesWellFormed(more)
    ensures FramesWellFormed(log + more)
  {
    forall i | 0 <= i < |log + more| && (log + more)[i].Write?
      ensures Decode((log + more)[i].frame).Some?
    {
      if i >= |log| {
        assert (log + more)[i] == more[i - |log|];
      }
    }
  }

  /** Every frame in a well-formed log is 8 bytes: sync marker, a port 1..4, one of the six opcodes. */
  lemma LoggedFrameShape(log: seq<Event>, i: int)
    requires FramesWellFormed(log) && 0 <= i < |log| && log[i].Write?
    ensures |log[i].frame| == 8 && log[i].frame[0] == 0xFF && log[i].frame[1] == 0xF9
    ensures 1 <= log[i].frame[2] <= 4
    ensures log[i].frame[4] in {0x60, 0x70, 0x77, 0x5D, 0x47, 0x46}
  {
  }

  /** Byte 5 of a run frame: `Math.abs` of the restricted speed, as the buffer stores it. */
  function Magnitude(r: real): (m: int)
    requires -100.0 <= r <= 100.0
    ensures IsByte(m)
    ensures m as real <= (if r < 0.0 then -r else r) < m as real + 1.0
  {
    if r < 0.0 then (-r).Floor else r.Floor
  }

  /** The command runMotor sends: clockwise exactly when the request is positive, at the restricted magnitude. */
  function RunMotorCommand(motor: MotorConnector, speed: int): (c: Command)
    ensures c.Run? && c.motor == motor && ValidCommand(c)
    ensures c.direction == CW <==> speed > 0
    ensures speed == 0 ==> c.magnitude == 0
    ensures speed != 0 ==> MinSpeed <= c.magnitude <= MaxSpeed
  {
    var r := RestrictSpeed(speed);
    Run(motor, if r > 0.0 then CW else CCW, Magnitude(r))
  }

  /** With the shipped bounds a request of magnitude MinSpeed..100 is sent as it is. */
  lemma RunMotorSendsRequest(motor: MotorConnector, speed: int)
    requires MinSpeed <= Abs(speed) <= 100
    ensures RunMotorCommand(motor, speed).magnitude == Abs(speed)
  {
    RestrictSpeedIdentity(speed);
  }

  /**
   * Byte 5 of runMotor's frame for every request: 0 for a stop, MinSpeed for a
   * request below it, 100 beyond ±100, and the request's magnitude otherwise.
   */
  lemma RunMotorMagnitude(motor: MotorConnector, speed: int)
    ensures RunMotorCommand(motor, speed).magnitude ==
      if speed == 0 then 0
      else if Abs(speed) < MinSpeed then MinSpeed
      else if Abs(speed) > 100 then 100
      else Abs(speed)
  {
    if MinSpeed <= Abs(speed) <= 100 {
      RunMotorSendsRequest(motor, speed);
    } else if speed > 100 {
      RestrictSpeedSaturates(speed);
      RunMotorSendsRequest(motor, 100);
    } else if speed < -100 {
      RestrictSpeedSaturates(speed);
      RunMotorSendsRequest(motor, -100);
    }
  }

  /** Stopping sends a counter-clockwise run at magnitude 0. */
  lemma StopFrame(motor: MotorConnector)
    ensures Encode(RunMotorCommand(motor, 0)) == [0xFF, 0xF9, motor.Code(), 2, 0x60, 0x00, 0xF5, 0x00]
  {
  }

  /** Opposite requests turn a motor opposite ways at the same magnitude. */
  lemma OppositeRequestsMirror(m1: MotorConnector, m2: MotorConnector, speed: int)
    requires speed != 0
    ensures RunMotorCommand(m1, speed).direction != RunMotorCommand(m2, -speed).direction
    ensures RunMotorCommand(m1, speed).magnitude == RunMotorCommand(m2, -speed).magnitude
  {
    RestrictSpeedOdd(speed);
  }

  /** The servo-speed command of runMotorFor: nine times the speed in a 16-bit field. */
  function ServoSpeedCommand(motor: MotorConnector, speed: int): (c: Command)
    ensures c.ServoSpeed? && c.motor == motor && ValidCommand(c)
  {
    ServoSpeed(motor, (speed * 9) % 65536)
  }

  /** The run-for command: counter-clockwise exactly when the speed is negative, value in a 16-bit field. */
  function RunForCommand(motor: MotorConnector, speed: int, value: int, mode: MovementMode): (c: Command)
    ensures c.RunFor? && c.motor == motor && c.mode == mode && ValidCommand(c)
    ensures c.direction == CCW <==> speed < 0
    ensures 0 <= value < 65536 ==> c.value == value
  {
    RunFor(motor, if speed < 0 then CCW else CW, value % 65536, mode)
  }

  /** The seek command of goToAbsolutePosition, with the target wrapped into [0, 360). */
  function SeekCommand(motor: MotorConnector, angle: int, turnMode: ServoMovementMode): (c: Command)
    ensures c.Seek? && c.motor == motor && c.turnMode == turnMode && ValidCommand(c)
    ensures 0 <= c.value < 360 && (angle - c.value) % 360 == 0
  {
    Seek(motor, Angles.TargetDegrees(angle), turnMode)
  }

  function WriteCommand(c: Command): (e: Event)
    requires ValidCommand(c)
    ensures e.Write? && e.address == I2cAddress && e.frame == Encode(c)
    ensures Decode(e.frame) == Some(c)
  {
    DecodeEncode(c);
    Write(I2cAddress, Encode(c))
  }

  function RunMotorEvents(motor: MotorConnector, speed: int): (evs: seq<Event>)
    ensures FramesWellFormed(evs)
  {
    [WriteCommand(RunMotorCommand(motor, speed))]
  }

  function RunMotorForEvents(motor: MotorConnector, speed: int, value: int, mode: MovementMode, wait: bool): (evs: seq<Event>)
    ensures FramesWellFormed(evs)
  {
    var writes := [WriteCommand(ServoSpeedCommand(motor, Abs(speed))), WriteCommand(RunForCommand(motor, speed, value, mode))];
    var pause := if wait then [Pause(RunForPause(speed, value, mode))] else [];
    AppendWellFormed(writes, pause);
    writes + pause
  }

  function GoToEvents(motor: MotorConnector, angle: int, turnMode: ServoMovementMode): (evs: seq<Event>)
    ensures FramesWellFormed(evs)
  {
    [WriteCommand(SeekCommand(motor, angle, turnMode)), Pause(100.0), AwaitStill(motor, 900.0)]
  }

  function ReadEvents(request: Command, settleMs: real, count: nat): (evs: seq<Event>)
    requires request.ReadSpeed? || request.ReadPosition?
    ensures FramesWellFormed(evs)
  {
    [WriteCommand(request), Pause(settleMs), Read(I2cAddress, count)]
  }

  /** The speed request for forward or backward. */
  function Directed(direction: LinearDirection, speed: int): (s: int)
    ensures s == speed || s == -speed
    ensures speed != 0 ==> (s == speed <==> direction == Forward)
  {
    if direction == Forward then speed else -speed
  }

  /** The speed for one side of the tank: negated when that side's motor is mounted reversed. */
  function SideSpeed(speed: int, reversed: bool): (s: int)
    ensures Abs(s) == Abs(speed)
    ensures speed != 0 ==> (s == -speed <==> reversed)
  {
    if reversed then -speed else speed
  }

  /** Sides with different reversal flags are given opposite speeds. */
  lemma OppositeFlagsOppositeSides(speed: int, leftReversed: bool, rightReversed: bool)
    requires leftReversed != rightReversed
    ensures SideSpeed(speed, leftReversed) == -SideSpeed(speed, rightReversed)
  {
  }

  /**
   * With the default configuration (left on M4, reversed; right on M1), driving
   * forward at a speed in MinSpeed..100 runs M4 counter-clockwise and M1 clockwise
   * at that speed.
   */
  lemma DefaultTankForward(speed: int)
    requires MinSpeed <= speed <= 100
    ensures RunMotorEvents(M4, SideSpeed(Directed(Forward, speed), true))
         == [Write(I2cAddress, [0xFF, 0xF9, 4, 2, 0x60, speed, 0xF5, 0x00])]
    ensures RunMotorEvents(M1, SideSpeed(Directed(Forward, speed), false))
         == [Write(I2cAddress, [0xFF, 0xF9, 1, 1, 0x60, speed, 0xF5, 0x00])]
  {
    RunMotorSendsRequest(M4, -speed);
    RunMotorSendsRequest(M1, speed);
  }

  /** The servo-speed frame of runMotorFor carries nine times the unrestricted magnitude, in 16 bits. */
  lemma ServoSpeedFrameCarriesSpeed(motor: MotorConnector, speed: int)
    ensures var f := Encode(ServoSpeedCommand(motor, Abs(speed)));
      Join16(f[5], f[7]) == (9 * Abs(speed)) % 65536
  {
    var v := (Abs(speed) * 9) % 65536;
    assert Encode(ServoSpeedCommand(motor, Abs(speed)))[5..] == [HiByte(v), 0x00, LoByte(v)];
    SplitJoin16(v);
  }

  /** The run-for frame carries the direction, the value and the mode of the request. */
  lemma RunForFrameCarriesRequest(motor: MotorConnector, speed: int, value: int, mode: MovementMode)
    requires 0 <= value < 65536
    ensures var f := Encode(RunForCommand(motor, speed, value, mode));
      Decode(f) == Some(RunFor(motor, if speed < 0 then CCW else CW, value, mode)) && Join16(f[5], f[7]) == value
  {
    assert Encode(RunForCommand(motor, speed, value, mode))[5..] == [HiByte(value), mode.Code(), LoByte(value)];
    SplitJoin16(value);
    DecodeEncode(RunForCommand(motor, speed, value, mode));
  }

  /** A run-for frame on M2, clockwise, 180 degrees decodes to exactly that. */
  lemma RunForExample()
    ensures Encode(RunForCommand(M2, 50, 180, Degrees)) == [0xFF, 0xF9, 2, 1, 0x70, 0, 2, 180]
    ensures Decode([0xFF, 0xF9, 2, 1, 0x70, 0, 2, 180]) == Some(RunFor(M2, CW, 180, Degrees))
  {
    var c := RunForCommand(M2, 50, 180, Degrees);
    assert c == RunFor(M2, CW, 180, Degrees);
    assert HiByte(180) == 0 && LoByte(180) == 180;
    assert Encode(c) == [0xFF, 0xF9, 2, 1, 0x70, 0, 2, 180];
    DecodeEncode(c);
  }

  class NezhaV2 {
    var tankMotorLeft: MotorConnector
    var tankMotorLeftReversed: bool
    var tankMotorRight: MotorConnector
    var tankMotorRightReversed: bool
    /** Speed of the timed tank moves; nothing outside the module sets it. */
    var tankSpeed: int
    var log: seq<Event>

    ghost predicate Valid()
      reads this
    {
      FramesWellFormed(log)
    }

    /** The driver's module state at start-up. */
    constructor ()
      ensures Valid() && log == []
      ensures tankMotorLeft == M4 && tankMotorLeftReversed
      ensures tankMotorRight == M1 && !tankMotorRightReversed
      ensures tankSpeed == 30
    {
      tankMotorLeft, tankMotorLeftReversed := M4, true;
      tankMotorRight, tankMotorRightReversed := M1, false;
      tankSpeed := 30;
      log := [];
    }

    /** pins.i2cWriteBuffer to the board. */
    method BusWrite(buf: array<int>)
      requires Valid() && Decode(buf[..]).Some?
      modifies this`log
      ensures Valid() && log == old(log) + [Write(I2cAddress, buf[..])]
    {
      log := log + [Write(I2cAddress, buf[..])];
      AppendWellFormed(old(log), [Write(I2cAddress, buf[..])]);
    }

    /** basic.pause */
    method Sleep(ms: real)
      requires Valid()
      modifies this`log
      ensures Valid() && log == old(log) + [Pause(ms)]
    {
      log := log + [Pause(ms)];
      AppendWellFormed(old(log), [Pause(ms)]);
    }

    /** runMotor */
    method RunMotor(motor: MotorConnector, speed: int)
      requires Valid()
      modifies this`log
      ensures Valid() && log == old(log) + RunMotorEvents(motor, speed)
    {
      var restricted := RestrictSpeed(speed);
      var buf := new int[8];
      buf[0], buf[1], buf[2] := Sync0, Sync1, motor.Code();
      if restricted > 0.0 {
        buf[3] := CW.Code();
      } else {
        buf[3] := CCW.Code();
      }
      buf[4] := OpRun;
      buf[5] := Magnitude(restricted);
      buf[6] := Filler;
      buf[7] := 0x00;
      assert buf[..] == Encode(RunMotorCommand(motor, speed));
      DecodeEncode(RunMotorCommand(motor, speed));
      BusWrite(buf);
    }

    /** setServoSpeed */
    method SetServoSpeed(motor: MotorConnector, speed: int)
      requires Valid()
      modifies this`log
      ensures Valid() && log == old(log) + [WriteCommand(ServoSpeedCommand(motor, speed))]
    {
      var scaled := speed * 9;
      var buf := new int[8];
      buf[0], buf[1], buf[2], buf[3] := Sync0, Sync1, motor.Code(), 0x00;
      buf[4] := OpServoSpeed;
      buf[5] := HiByte(scaled);
      buf[6] := 0x00;
      buf[7] := LoByte(scaled);
      SplitIgnoresWrap(scaled);
      assert buf[..] == Encode(ServoSpeedCommand(motor, speed));
      DecodeEncode(ServoSpeedCommand(motor, speed));
      BusWrite(buf);
    }

    /** runMotorFor, pausing for the corrected estimate when asked to wait. */
    method RunMotorFor(motor: MotorConnector, speed: int, value: int, mode: MovementMode, wait: bool)
      requires Valid()
      modifies this`log
      ensures Valid() && log == old(log) + RunMotorForEvents(motor, speed, value, mode, wait)
    {
      SetServoSpeed(motor, Abs(speed));
      var direction := CW;
      if speed < 0 {
        direction := CCW;
      }
      var buf := new int[8];
      buf[0], buf[1], buf[2], buf[3] := Sync0, Sync1, motor.Code(), direction.Code();
      buf[4] := OpRunFor;
      buf[5] := HiByte(value);
      buf[6] := mode.Code();
      buf[7] := LoByte(value);
      SplitIgnoresWrap(value);
      assert buf[..] == Encode(RunForCommand(motor, speed, value, mode));
      DecodeEncode(RunForCommand(motor, speed, value, mode));
      BusWrite(buf);
      if wait {
        Sleep(RunForPause(speed, value, mode));
      }
    }

    /** stopMotor */
    method StopMotor(motor: MotorConnector)
      requires Valid()
      modifies this`log
      ensures Valid() && log == old(log) + RunMotorEvents(motor, 0)
    {
      RunMotor(motor, 0);
    }

    /** stopAllMotor: a stop for each port, M1 first. */
    method StopAllMotor()
      requires Valid()
      modifies this`log
      ensures Valid()
      ensures log == old(log) + RunMotorEvents(M1, 0) + RunMotorEvents(M2, 0)
                               + RunMotorEvents(M3, 0) + RunMotorEvents(M4, 0)
    {
      RunMotor(M1, 0);
      RunMotor(M2, 0);
      RunMotor(M3, 0);
      RunMotor(M4, 0);
    }

    /** readServoAbsoluteSpeed; `answer` is what the board returns to the 2-byte read. */
    method ReadServoAbsoluteSpeed(motor: MotorConnector, answer: seq<int>) returns (rpm: int)
      requires Valid() && |answer| == 2 && IsBytes(answer)
      modifies this`log
      ensures Valid() && log == old(log) + ReadEvents(ReadSpeed(motor), 3.0, 2)
      ensures rpm == SpeedRpm(Uint16LE(answer))
    {
      var buf := new int[8];
      buf[0], buf[1], buf[2], buf[3] := Sync0, Sync1, motor.Code(), 0x00;
      buf[4], buf[5], buf[6], buf[7] := OpReadSpeed, 0x00, Filler, 0x00;
      assert buf[..] == Encode(ReadSpeed(motor));
      DecodeEncode(ReadSpeed(motor));
      BusWrite(buf);
      Sleep(3.0);
      log := log + [Read(I2cAddress, 2)];
      rpm := SpeedRpm(Uint16LE(answer));
    }

    /**
     * waitForMotorMovementComplete: a settle pause, then polling until the
     * motor stands still or maxMs have passed.
     */
    method WaitForMotorMovementComplete(motor: MotorConnector, maxMs: real)
      requires Valid()
      modifies this`log
      ensures Valid() && log == old(log) + [Pause(100.0), AwaitStill(motor, maxMs)]
    {
      log := log + [Pause(100.0), AwaitStill(motor, maxMs)];
    }

    /** goToAbsolutePosition */
    method GoToAbsolutePosition(motor: MotorConnector, targetAngle: int, turnMode: ServoMovementMode)
      requires Valid()
      modifies this`log
      ensures Valid() && log == old(log) + GoToEvents(motor, targetAngle, turnMode)
    {
      var target := Angles.Wrap(targetAngle, 360);
      Angles.WrapIsRemainder(targetAngle, 360, target);
      var buf := new int[8];
      buf[0], buf[1], buf[2], buf[3] := Sync0, Sync1, motor.Code(), 0x00;
      buf[4] := OpSeek;
      buf[5] := HiByte(target);
      buf[6] := turnMode.Code();
      buf[7] := LoByte(target);
      assert buf[..] == Encode(SeekCommand(motor, targetAngle, turnMode));
      DecodeEncode(SeekCommand(motor, targetAngle, turnMode));
      BusWrite(buf);
      var maxTime := MotorDelay(100, 1, Turns);
      FullTurnAtFullSpeed();
      WaitForMotorMovementComplete(motor, maxTime);
    }

    /** readServoAbsolutePostion; `answer` is what the board returns to the 4-byte read. */
    method ReadServoAbsolutePosition(motor: MotorConnector, answer: seq<int>) returns (degrees: real)
      requires Valid() && |answer| == 4 && IsBytes(answer)
      modifies this`log
      ensures Valid() && log == old(log) + ReadEvents(ReadPosition(motor), 4.0, 4)
      ensures 0.0 <= degrees < 360.0
      ensures degrees == Angles.PositionDegrees(Signed32LE(answer))
    {
      var buf := new int[8];
      buf[0], buf[1], buf[2], buf[3] := Sync0, Sync1, motor.Code(), 0x00;
      buf[4], buf[5], buf[6], buf[7] := OpReadPosition, 0x00, Filler, 0x00;
      assert buf[..] == Encode(ReadPosition(motor));
      DecodeEncode(ReadPosition(motor));
      BusWrite(buf);
      Sleep(4.0);
      log := log + [Read(I2cAddress, 4)];
      var position := Signed32LE(answer);
      var tenths := Angles.Wrap(position, 3600);
      Angles.WrapIsRemainder(position, 3600, tenths);
      degrees := tenths as real / 10.0;
    }

    /** setTankMotorRight */
    method SetTankMotorRight(motor: MotorConnector, reverse: bool)
      requires Valid()
      modifies this`tankMotorRight, this`tankMotorRightReversed
      ensures Valid() && tankMotorRight == motor && tankMotorRightReversed == reverse
    {
      tankMotorRight := motor;
      tankMotorRightReversed := reverse;
    }

    /** setTankMotorLeft */
    method SetTankMotorLeft(motor: MotorConnector, reverse: bool)
      requires Valid()
      modifies this`tankMotorLeft, this`tankMotorLeftReversed
      ensures Valid() && tankMotorLeft == motor && tankMotorLeftReversed == reverse
    {
      tankMotorLeft := motor;
      tankMotorLeftReversed := reverse;
    }

    /** driveTank: both sides at the directed speed, each negated if its motor is reversed; left first. */
    method DriveTank(direction: LinearDirection, speed: int)
      requires Valid()
      modifies this`log
      ensures Valid()
      ensures log == old(log)
        + RunMotorEvents(tankMotorLeft, SideSpeed(Directed(direction, speed), tankMotorLeftReversed))
        + RunMotorEvents(tankMotorRight, SideSpeed(Directed(direction, speed), tankMotorRightReversed))
    {
      var directed := Directed(direction, speed);
      var leftSpeed := SideSpeed(directed, tankMotorLeftReversed);
      var rightSpeed := SideSpeed(directed, tankMotorRightReversed);
      RunMotor(tankMotorLeft, leftSpeed);
      RunMotor(tankMotorRight, rightSpeed);
    }

    /** stopTank: left motor first. */
    method StopTank()
      requires Valid()
      modifies this`log
      ensures Valid()
      ensures log == old(log) + RunMotorEvents(tankMotorLeft, 0) + RunMotorEvents(tankMotorRight, 0)
    {
      StopMotor(tankMotorLeft);
      StopMotor(tankMotorRight);
    }

    /** driveTankDualSpeed: each side its own speed, negated if its motor is reversed. */
    method DriveTankDualSpeed(speedLeft: int, speedRight: int)
      requires Valid()
      modifies this`log
      ensures Valid()
      ensures log == old(log)
        + RunMotorEvents(tankMotorLeft, SideSpeed(speedLeft, tankMotorLeftReversed))
        + RunMotorEvents(tankMotorRight, SideSpeed(speedRight, tankMotorRightReversed))
    {
      var leftSpeed := SideSpeed(speedLeft, tankMotorLeftReversed);
      var rightSpeed := SideSpeed(speedRight, tankMotorRightReversed);
      RunMotor(tankMotorLeft, leftSpeed);
      RunMotor(tankMotorRight, rightSpeed);
    }

    /**
     * driveTankFor: both sides at tankSpeed; the left command never waits and
     * the right one always does, whatever `wait` says.
     */
    method DriveTankFor(direction: LinearDirection, value: int, mode: MovementMode, wait: bool)
      requires Valid()
      modifies this`log
      ensures Valid()
      ensures log == old(log)
        + RunMotorForEvents(tankMotorLeft, SideSpeed(Directed(direction, tankSpeed), tankMotorLeftReversed), value, mode, false)
        + RunMotorForEvents(tankMotorRight, SideSpeed(Directed(direction, tankSpeed), tankMotorRightReversed), value, mode, true)
    {
      var speed := Directed(direction, tankSpeed);
      var leftSpeed := SideSpeed(speed, tankMotorLeftReversed);
      var rightSpeed := SideSpeed(speed, tankMotorRightReversed);
      RunMotorFor(tankMotorLeft, leftSpeed, value, mode, false);
      RunMotorFor(tankMotorRight, rightSpeed, value, mode, true);
    }
  }
}
