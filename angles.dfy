/**
 * Wrapping of angles into one revolution: a target angle into [0, 360) degrees,
 * a position reading into [0, 3600) tenths of a degree.
 */
module Angles {

  /** Euclidean division is unique: a quotient and an in-range remainder are THE quotient and remainder. */
  lemma {:induction false} DivModUnique(a: int, period: int, q: int, r: int)
    requires period > 0 && 0 <= r < period && a == q * period + r
    ensures a / period == q && a % period == r
  {
    var quotient, rest := a / period, a % period;
    assert a == quotient * period + rest && 0 <= rest < period;
    var d := q - quotient;
    assert d * period == q * period - quotient * period;
    assert d * period == rest - r;
    if d > 0 {
      MultiplyAtLeastOnce(d, period);
    } else if d < 0 {
      MultiplyAtLeastOnce(-d, period);
    }
  }

  lemma MultiplyAtLeastOnce(d: int, period: int)
    requires d >= 1 && period > 0
    ensures d * period >= period
  {
    assert d * period == (d - 1) * period + period;
  }

  /**
   * Adds whole periods while the number is negative, then takes the remainder;
   * the result is the one representative of x's residue class in [0, period).
   */
  method Wrap(x: int, period: int) returns (r: int)
    requires period > 0
    ensures 0 <= r < period
    ensures (x - r) % period == 0
  {
    r := x;
    ghost var turns := 0;
    while r < 0
      invariant r == x + turns * period
      decreases -r
    {
      r := r + period;
      turns := turns + 1;
    }
    ghost var whole := r;
    r := r % period;
    assert whole == (whole / period) * period + r;
    DivModUnique(x - r, period, whole / period - turns, 0);
  }

  /** Range and congruence pin the result down: it is Euclidean x % period. */
  lemma {:induction false} WrapIsRemainder(x: int, period: int, r: int)
    requires period > 0 && 0 <= r < period && (x - r) % period == 0
    ensures r == x % period
  {
    var k := (x - r) / period;
    assert x - r == k * period + (x - r) % period;
    DivModUnique(x, period, k, r);
  }

  /** The target angle the absolute seek sends, in [0, 360). */
  function TargetDegrees(angle: int): (d: int)
    ensures 0 <= d < 360 && (angle - d) % 360 == 0
  {
    angle % 360
  }

  /** The position reading in degrees: the raw tenths wrapped into [0, 3600), times 0.1. */
  function PositionDegrees(raw: int): (deg: real)
    ensures 0.0 <= deg < 360.0
    ensures deg * 10.0 == (deg * 10.0).Floor as real
    ensures ((deg * 10.0).Floor - raw) % 3600 == 0
  {
    var tenths := raw % 3600;
    assert (tenths as real / 10.0 * 10.0).Floor == tenths;
    tenths as real / 10.0
  }

  /** An aggregate of minus 450.0 degrees reads as 270.0 degrees. */
  lemma NegativeAggregateExample()
    ensures PositionDegrees(-4500) == 270.0
  {
  }
}
