/**
 * The frame codec of the NeZha V2 board: every command is an 8-byte frame
 * [0xFF, 0xF9, motor, direction, opcode, b5, b6, b7]. A 16-bit value goes
 * big-endian into bytes 5 (high) and 7 (low). Telemetry answers are little-endian.
 */
module Codec {
  import opened NezhaTypes

  const Sync0: int := 0xFF
  const Sync1: int := 0xF9
  /** Fixed byte 6 of the run and read-request frames. */
  const Filler: int := 0xF5

  const OpRun: int := 0x60
  const OpRunFor: int := 0x70
  const OpServoSpeed: int := 0x77
  const OpSeek: int := 0x5D
  const OpReadSpeed: int := 0x47
  const OpReadPosition: int := 0x46

  predicate IsByte(x: int) {
    0 <= x < 256
  }

  predicate IsBytes(s: seq<int>) {
    forall i :: 0 <= i < |s| ==> IsByte(s[i])
  }

  /**
   * `(x >> 8) & 0xFF` on a whole number: bits 8..15 of its 32-bit two's
   * complement, which are the same bits for x and for every x + k * 65536.
   */
  function HiByte(x: int): (b: int)
    ensures IsByte(b)
  {
    (x / 256) % 256
  }

  /** `(x >> 0) & 0xFF` on a whole number: its low eight bits. */
  function LoByte(x: int): (b: int)
    ensures IsByte(b)
  {
    x % 256
  }

  /** The 16-bit number whose big-endian bytes are hi and lo. */
  function Join16(hi: int, lo: int): (v: int)
    requires IsByte(hi) && IsByte(lo)
    ensures 0 <= v < 65536
  {
    hi * 256 + lo
  }

  /** Splitting and joining again gives the number back, reduced to 16 bits. */
  lemma {:induction false} SplitJoin16(x: int)
    ensures Join16(HiByte(x), LoByte(x)) == x % 65536
  {
    var q := x / 256;
    assert x == q * 256 + x % 256;
    assert q == (q / 256) * 256 + q % 256;
    assert x == (q / 256) * 65536 + (q % 256) * 256 + x % 256;
  }

  /** Joining two bytes and splitting again gives the bytes back. */
  lemma JoinSplit16(hi: int, lo: int)
    requires IsByte(hi) && IsByte(lo)
    ensures HiByte(Join16(hi, lo)) == hi && LoByte(Join16(hi, lo)) == lo
  {
  }

  /** The split does not see multiples of 65536: a 16-bit field wraps around. */
  lemma {:induction false} SplitIgnoresWrap(x: int)
    ensures HiByte(x % 65536) == HiByte(x) && LoByte(x % 65536) == LoByte(x)
  {
    SplitJoin16(x);
    JoinSplit16(HiByte(x), LoByte(x));
  }

  /** A command as the board reads it off a frame. */
  datatype Command =
    | Run(motor: MotorConnector, direction: RotationDirection, magnitude: int)
    | RunFor(motor: MotorConnector, direction: RotationDirection, value: int, mode: MovementMode)
    | ServoSpeed(motor: MotorConnector, value: int)
    | Seek(motor: MotorConnector, value: int, turnMode: ServoMovementMode)
    | ReadSpeed(motor: MotorConnector)
    | ReadPosition(motor: MotorConnector)

  /** Payloads fit their fields: a byte for a run speed, 16 bits for a value. */
  predicate ValidCommand(c: Command) {
    match c
    case Run(_, _, magnitude) => IsByte(magnitude)
    case RunFor(_, _, value, _) => 0 <= value < 65536
    case ServoSpeed(_, value) => 0 <= value < 65536
    case Seek(_, value, _) => 0 <= value < 65536
    case ReadSpeed(_) => true
    case ReadPosition(_) => true
  }

  function Opcode(c: Command): (op: int)
    ensures op in {OpRun, OpRunFor, OpServoSpeed, OpSeek, OpReadSpeed, OpReadPosition}
  {
    match c
    case Run(_, _, _) => OpRun
    case RunFor(_, _, _, _) => OpRunFor
    case ServoSpeed(_, _) => OpServoSpeed
    case Seek(_, _, _) => OpSeek
    case ReadSpeed(_) => OpReadSpeed
    case ReadPosition(_) => OpReadPosition
  }

  /** Every frame is 8 bytes behind the 0xFF 0xF9 sync marker, with its port in byte 2 and opcode in byte 4. */
  function Encode(c: Command): (f: seq<int>)
    ensures |f| == 8 && f[0] == Sync0 && f[1] == Sync1
    ensures f[2] == c.motor.Code() && f[4] == Opcode(c)
    ensures ValidCommand(c) ==> IsBytes(f)
  {
    var m := c.motor.Code();
    match c
    case Run(_, d, magnitude) => [Sync0, Sync1, m, d.Code(), OpRun, magnitude, Filler, 0x00]
    case RunFor(_, d, v, mode) => [Sync0, Sync1, m, d.Code(), OpRunFor, HiByte(v), mode.Code(), LoByte(v)]
    case ServoSpeed(_, v) => [Sync0, Sync1, m, 0x00, OpServoSpeed, HiByte(v), 0x00, LoByte(v)]
    case Seek(_, v, t) => [Sync0, Sync1, m, 0x00, OpSeek, HiByte(v), t.Code(), LoByte(v)]
    case ReadSpeed(_) => [Sync0, Sync1, m, 0x00, OpReadSpeed, 0x00, Filler, 0x00]
    case ReadPosition(_) => [Sync0, Sync1, m, 0x00, OpReadPosition, 0x00, Filler, 0x00]
  }

  /** Reads a frame back into the command it carries; None for anything the driver never sends. */
  function Decode(f: seq<int>): (r: Option<Command>)
    ensures r.Some? ==> |f| == 8 && f[0] == Sync0 && f[1] == Sync1
    ensures r.Some? ==> 1 <= f[2] <= 4 && f[2] == r.value.motor.Code() && f[4] == Opcode(r.value)
  {
    if |f| != 8 || f[0] != Sync0 || f[1] != Sync1 then None
    else
      match MotorFromCode(f[2])
      case None => None
      case Some(m) =>
        if f[4] == OpRun then
          match DirectionFromCode(f[3])
          case None => None
          case Some(d) =>
            if IsByte(f[5]) && f[6] == Filler && f[7] == 0x00 then Some(Run(m, d, f[5])) else None
        else if f[4] == OpRunFor then
          match (DirectionFromCode(f[3]), ModeFromCode(f[6]))
          case (Some(d), Some(mode)) =>
            if IsByte(f[5]) && IsByte(f[7]) then Some(RunFor(m, d, Join16(f[5], f[7]), mode)) else None
          case _ => None
        else if f[4] == OpServoSpeed then
          if f[3] == 0x00 && f[6] == 0x00 && IsByte(f[5]) && IsByte(f[7])
          then Some(ServoSpeed(m, Join16(f[5], f[7]))) else None
        else if f[4] == OpSeek then
          match ServoModeFromCode(f[6])
          case None => None
          case Some(t) =>
            if f[3] == 0x00 && IsByte(f[5]) && IsByte(f[7]) then Some(Seek(m, Join16(f[5], f[7]), t)) else None
        else if f[4] == OpReadSpeed || f[4] == OpReadPosition then
          if f[3] == 0x00 && f[5] == 0x00 && f[6] == Filler && f[7] == 0x00
          then Some(if f[4] == OpReadSpeed then ReadSpeed(m) else ReadPosition(m))
          else None
        else None
  }

  /** Every command whose payload fits is read back unchanged from its frame. */
  lemma DecodeEncode(c: Command)
    requires ValidCommand(c)
    ensures Decode(Encode(c)) == Some(c)
  {
    var f := Encode(c);
    assert MotorFromCode(f[2]) == Some(c.motor);
    match c
    case Run(m, d, magnitude) =>
      assert DirectionFromCode(f[3]) == Some(d);
    case RunFor(m, d, v, mode) =>
      assert DirectionFromCode(f[3]) == Some(d) && ModeFromCode(f[6]) == Some(mode);
      SplitJoin16(v);
    case ServoSpeed(m, v) =>
      SplitJoin16(v);
    case Seek(m, v, t) =>
      assert ServoModeFromCode(f[6]) == Some(t);
      SplitJoin16(v);
    case ReadSpeed(m) =>
    case ReadPosition(m) =>
  }

  /** Every frame that decodes is exactly the frame of the command it decodes to. */
  lemma EncodeDecode(f: seq<int>)
    requires Decode(f).Some?
    ensures ValidCommand(Decode(f).value) && Encode(Decode(f).value) == f
  {
    var c := Decode(f).value;
    match c
    case RunFor(_, _, _, _) => JoinSplit16(f[5], f[7]);
    case ServoSpeed(_, _) => JoinSplit16(f[5], f[7]);
    case Seek(_, _, _) => JoinSplit16(f[5], f[7]);
    case _ =>
  }

  /** The 2-byte little-endian speed answer: `(b[1] << 8) | b[0]`. */
  function Uint16LE(b: seq<int>): (v: int)
    requires |b| == 2 && IsBytes(b)
    ensures 0 <= v < 65536
    ensures v % 256 == b[0] && v / 256 == b[1]
  {
    b[1] * 256 + b[0]
  }

  function Uint16ToLE(v: int): (b: seq<int>)
    requires 0 <= v < 65536
    ensures |b| == 2 && IsBytes(b)
  {
    [v % 256, v / 256]
  }

  lemma Uint16RoundTrip(v: int, b: seq<int>)
    requires 0 <= v < 65536 && |b| == 2 && IsBytes(b)
    ensures Uint16LE(Uint16ToLE(v)) == v
    ensures Uint16ToLE(Uint16LE(b)) == b
  {
  }

  /**
   * The speed reading in rpm: the raw count times 0.0926 * 2, rounded down,
   * taken as the exact fraction 1852/10000.
   */
  function SpeedRpm(raw: int): (rpm: int)
    requires raw >= 0
    ensures rpm >= 0
    ensures rpm * 10000 <= raw * 1852 < (rpm + 1) * 10000
  {
    raw * 1852 / 10000
  }

  const Two32: int := 0x1_0000_0000
  const Two31: int := 0x8000_0000

  /** The four answer bytes read as one unsigned little-endian number. */
  function Uint32LE(b: seq<int>): (u: int)
    requires |b| == 4 && IsBytes(b)
    ensures 0 <= u < Two32
  {
    b[0] + 256 * (b[1] + 256 * (b[2] + 256 * b[3]))
  }

  /**
   * `(b[3] << 24) | (b[2] << 16) | (b[1] << 8) | b[0]`: JavaScript's bitwise
   * operators yield a signed 32-bit result, so a top bit of 1 makes it negative.
   */
  function Signed32LE(b: seq<int>): (v: int)
    requires |b| == 4 && IsBytes(b)
    ensures -Two31 <= v < Two31
    ensures (v - Uint32LE(b)) % Two32 == 0
  {
    var u := Uint32LE(b);
    if u >= Two31 then u - Two32 else u
  }

  /** The four little-endian bytes of a signed 32-bit number in two's complement. */
  function Int32ToLE(v: int): (b: seq<int>)
    requires -Two31 <= v < Two31
    ensures |b| == 4 && IsBytes(b)
  {
    var u := if v < 0 then v + Two32 else v;
    [u % 256, (u / 256) % 256, (u / 65536) % 256, u / 16777216]
  }

  /** The four-byte answer and a signed 32-bit number determine each other. */
  lemma {:induction false} Int32RoundTrip(v: int)
    requires -Two31 <= v < Two31
    ensures Signed32LE(Int32ToLE(v)) == v
  {
    var u := if v < 0 then v + Two32 else v;
    var b := Int32ToLE(v);
    var q1, q2 := u / 256, u / 65536;
    assert u == q1 * 256 + b[0];
    assert q1 == (q1 / 256) * 256 + q1 % 256;
    assert q1 / 256 == q2;
    assert q2 == (q2 / 256) * 256 + q2 % 256;
    assert q2 / 256 == b[3];
    assert Uint32LE(b) == u;
  }

  /** A byte below a multiple of 256 is its remainder; the multiple is the quotient. */
  lemma ShiftOutByte(lo: int, rest: int)
    requires IsByte(lo)
    ensures (lo + 256 * rest) % 256 == lo && (lo + 256 * rest) / 256 == rest
  {
  }

  lemma {:induction false} Int32RoundTripBytes(b: seq<int>)
    requires |b| == 4 && IsBytes(b)
    ensures Int32ToLE(Signed32LE(b)) == b
  {
    var u := Uint32LE(b);
    var x1, x2 := b[1] + 256 * (b[2] + 256 * b[3]), b[2] + 256 * b[3];
    ShiftOutByte(b[0], x1);
    ShiftOutByte(b[1], x2);
    ShiftOutByte(b[2], b[3]);
    assert u / 65536 == x2 by {
      assert u / 65536 == (u / 256) / 256;
    }
    assert u / 16777216 == b[3] by {
      assert u / 16777216 == (u / 65536) / 256;
    }
    assert Int32ToLE(Signed32LE(b)) == [u % 256, (u / 256) % 256, (u / 65536) % 256, u / 16777216];
  }
}
