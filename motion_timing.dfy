/**
 * The motion-time estimate: how many milliseconds a timed or positional motor
 * command needs, used to pause the caller until the move is over.
 */
module MotionTiming {
  import opened NezhaTypes

  /** Degrees per second the motor turns per percent of speed. */
  const DegreesPerSecondPerPercent: int := 9
  /** Time the board needs to accelerate and brake a positional move. */
  const SettleMs: real := 500.0

  function Abs(x: int): (a: int)
    ensures a >= 0 && (a == x || a == -x)
  {
    if x < 0 then -x else x
  }

  /**
   * getMotorDelay. A positional move turns at 9 degrees per second per percent
   * of speed and costs SettleMs on top; a timed move lasts its own length.
   */
  function MotorDelay(speed: int, value: int, mode: MovementMode): (ms: real)
    ensures value == 0 || speed == 0 ==> ms == 0.0
    ensures speed != 0 && mode == Seconds ==> ms == value as real * 1000.0
    ensures speed != 0 && value != 0 && mode == Degrees ==>
      (ms - SettleMs) * (DegreesPerSecondPerPercent * speed) as real == value as real * 1000.0
    ensures speed != 0 && value != 0 && mode == Turns ==>
      (ms - SettleMs) * (DegreesPerSecondPerPercent * speed) as real == value as real * 360.0 * 1000.0
  {
    if value == 0 || speed == 0 then 0.0
    else
      var scaled := (speed * DegreesPerSecondPerPercent) as real;
      match mode
      case Turns => value as real * 360000.0 / scaled + SettleMs
      case Seconds => value as real * 1000.0
      case Degrees => value as real * 1000.0 / scaled + SettleMs
  }

  /** One turn takes as long as 360 degrees. */
  lemma TurnIsFullRevolution(speed: int, value: int)
    ensures MotorDelay(speed, value, Turns) == MotorDelay(speed, 360 * value, Degrees)
  {
  }

  /** A timed move does not depend on the speed it runs at. */
  lemma SecondsIgnoreSpeed(s1: int, s2: int, value: int)
    requires s1 != 0 && s2 != 0
    ensures MotorDelay(s1, value, Seconds) == MotorDelay(s2, value, Seconds)
  {
  }

  /** A forward positional move of positive length waits longer than the settle time. */
  lemma PositionalDelayExceedsSettle(speed: int, value: int, mode: MovementMode)
    requires speed > 0 && value > 0 && mode != Seconds
    ensures MotorDelay(speed, value, mode) > SettleMs
  {
  }

  /** Dividing by a larger positive number gives no more. */
  lemma DivideByLarger(k: real, small: real, large: real)
    requires 0.0 < small <= large && k >= 0.0
    ensures k / large <= k / small
  {
    var q, p := k / large, k / small;
    assert q * large == k && p * small == k;
  }

  /** A faster forward move finishes no later than a slower one. */
  lemma FasterIsSooner(slow: int, fast: int, value: int, mode: MovementMode)
    requires 0 < slow <= fast && value >= 0
    ensures MotorDelay(fast, value, mode) <= MotorDelay(slow, value, mode)
  {
    if value != 0 && mode != Seconds {
      var k := if mode == Turns then value as real * 360000.0 else value as real * 1000.0;
      DivideByLarger(k, (slow * 9) as real, (fast * 9) as real);
    }
  }

  /** The bound the absolute-angle seek waits for: one turn at full speed. */
  lemma FullTurnAtFullSpeed()
    ensures MotorDelay(100, 1, Turns) == 900.0
  {
  }

  /**
   * The pause that runMotorFor asks for, as written: the signed speed goes into
   * the estimate, so a counter-clockwise move gets less than the settle time.
   */
  function RunForPauseAsWritten(speed: int, value: int, mode: MovementMode): (ms: real)
    ensures speed < 0 && value > 0 && mode != Seconds ==> ms < SettleMs
  {
    MotorDelay(speed, value, mode)
  }

  /** The counter-example: a full turn backwards at full speed waits 100 ms instead of 900 ms. */
  lemma SignedSpeedShortensPause()
    ensures RunForPauseAsWritten(-100, 1, Turns) == 100.0
    ensures RunForPauseAsWritten(100, 1, Turns) == 900.0
    ensures RunForPauseAsWritten(-30, 1, Turns) < 0.0
  {
  }

  /** The pause runMotorFor evidently intends: the estimate for the speed's magnitude. */
  function RunForPause(speed: int, value: int, mode: MovementMode): (ms: real)
    ensures value >= 0 ==> ms >= 0.0
    ensures speed != 0 && value > 0 && mode != Seconds ==> ms > SettleMs
  {
    MotorDelay(Abs(speed), value, mode)
  }

  /** The corrected pause is the same in both directions. */
  lemma RunForPauseSymmetric(speed: int, value: int, mode: MovementMode)
    ensures RunForPause(-speed, value, mode) == RunForPause(speed, value, mode)
  {
  }
}
