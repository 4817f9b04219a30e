/**
 * The speed mapper: a requested motor speed in percent is clamped to [-100, 100],
 * small non-zero requests are raised to the stall threshold MinSpeed, and the rest
 * is mapped affinely from [MinSpeed, 100] onto [MinSpeed, MaxSpeed].
 */
module SpeedMapper {

  /** Ceiling of the physical speed; below 100 it protects younger learners. */
  const MaxSpeed: int := 100
  /** Smallest non-zero speed; anything lower can leave the motor stalled. */
  const MinSpeed: int := 5

  /**
   * The runtime's `Math.map`: the affine map that sends fromLow to toLow and
   * fromHigh to toHigh, in exact rational arithmetic.
   */
  function MapRange(value: real, fromLow: real, fromHigh: real, toLow: real, toHigh: real): (r: real)
    requires fromLow != fromHigh
    ensures value == fromLow ==> r == toLow
    ensures value == fromHigh ==> r == toHigh
  {
    var rise := (value - fromLow) * (toHigh - toLow);
    assert value == fromLow ==> rise == 0.0;
    rise / (fromHigh - fromLow) + toLow
  }

  /** The request saturated to [-100, 100]. */
  function Clamp(speed: int): (s: int)
    ensures -100 <= s <= 100
    ensures -100 <= speed <= 100 ==> s == speed
    ensures speed > 100 ==> s == 100
    ensures speed < -100 ==> s == -100
  {
    if speed > 100 then 100 else if speed < -100 then -100 else speed
  }

  /** restrictSpeed: stop stays stop, every other speed lands in MinSpeed..MaxSpeed with its sign. */
  function RestrictSpeed(speed: int): (r: real)
    ensures r == 0.0 <==> speed == 0
    ensures speed > 0 ==> MinSpeed as real <= r <= MaxSpeed as real
    ensures speed < 0 ==> -(MaxSpeed as real) <= r <= -(MinSpeed as real)
  {
    var s := Clamp(speed);
    if s < 0 then
      if s > -MinSpeed then -(MinSpeed as real)
      else MapRange(s as real, -(MinSpeed as real), -100.0, -(MinSpeed as real), -(MaxSpeed as real))
    else if s > 0 then
      if s < MinSpeed then MinSpeed as real
      else MapRange(s as real, MinSpeed as real, 100.0, MinSpeed as real, MaxSpeed as real)
    else 0.0
  }

  /** Requests beyond the range give the same result as the range's end. */
  lemma RestrictSpeedSaturates(speed: int)
    ensures speed >= 100 ==> RestrictSpeed(speed) == RestrictSpeed(100)
    ensures speed <= -100 ==> RestrictSpeed(speed) == RestrictSpeed(-100)
  {
  }

  /** Reversing the request reverses the result. */
  lemma RestrictSpeedOdd(speed: int)
    ensures RestrictSpeed(-speed) == -RestrictSpeed(speed)
  {
  }

  /** A faster request is never mapped to a slower speed. */
  lemma RestrictSpeedMonotone(a: int, b: int)
    requires a <= b
    ensures RestrictSpeed(a) <= RestrictSpeed(b)
  {
  }

  /** With the shipped ceiling of 100 every speed of magnitude MinSpeed..100 passes unchanged. */
  lemma RestrictSpeedIdentity(speed: int)
    requires MinSpeed <= speed <= 100 || -100 <= speed <= -MinSpeed
    ensures RestrictSpeed(speed) == speed as real
  {
  }

  /** With the shipped bounds the restricted speed is always a whole number. */
  lemma RestrictSpeedWhole(speed: int)
    ensures RestrictSpeed(speed) == RestrictSpeed(speed).Floor as real
  {
  }
}
