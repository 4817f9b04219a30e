/** The enumerations of the NeZha V2 driver and the numbers they take on the wire. */
module NezhaTypes {

  datatype Option<T> = None | Some(value: T)

  /** One of the four motor ports of the board; its number goes into byte 2 of a frame. */
  datatype MotorConnector = M1 | M2 | M3 | M4 {
    function Code(): (c: int)
      ensures 1 <= c <= 4
    {
      match this
      case M1 => 1
      case M2 => 2
      case M3 => 3
      case M4 => 4
    }
  }

  /** What the `value` of a timed or positional command counts. */
  datatype MovementMode = Turns | Degrees | Seconds {
    function Code(): (c: int)
      ensures 1 <= c <= 3
    {
      match this
      case Turns => 1
      case Degrees => 2
      case Seconds => 3
    }
  }

  /** Direction byte (byte 3) of the run frames. */
  datatype RotationDirection = CW | CCW {
    function Code(): (c: int)
      ensures 1 <= c <= 2
    {
      match this
      case CW => 1
      case CCW => 2
    }
  }

  /** How an absolute-angle seek chooses its way round; sent in byte 6 of the seek frame. */
  datatype ServoMovementMode = ShortPath | Clockwise | CounterClockwise {
    function Code(): (c: int)
      ensures 1 <= c <= 3
    {
      match this
      case ShortPath => 1
      case Clockwise => 2
      case CounterClockwise => 3
    }
  }

  datatype LinearDirection = Forward | Backward

  function MotorFromCode(c: int): (m: Option<MotorConnector>)
    ensures m.Some? <==> 1 <= c <= 4
    ensures m.Some? ==> m.value.Code() == c
  {
    if c == 1 then Some(M1)
    else if c == 2 then Some(M2)
    else if c == 3 then Some(M3)
    else if c == 4 then Some(M4)
    else None
  }

  function ModeFromCode(c: int): (m: Option<MovementMode>)
    ensures m.Some? <==> 1 <= c <= 3
    ensures m.Some? ==> m.value.Code() == c
  {
    if c == 1 then Some(Turns)
    else if c == 2 then Some(Degrees)
    else if c == 3 then Some(Seconds)
    else None
  }

  function DirectionFromCode(c: int): (d: Option<RotationDirection>)
    ensures d.Some? <==> 1 <= c <= 2
    ensures d.Some? ==> d.value.Code() == c
  {
    if c == 1 then Some(CW)
    else if c == 2 then Some(CCW)
    else None
  }

  function ServoModeFromCode(c: int): (t: Option<ServoMovementMode>)
    ensures t.Some? <==> 1 <= c <= 3
    ensures t.Some? ==> t.value.Code() == c
  {
    if c == 1 then Some(ShortPath)
    else if c == 2 then Some(Clockwise)
    else if c == 3 then Some(CounterClockwise)
    else None
  }
}
