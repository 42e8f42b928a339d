/** The amp pivot: thin delegation to an angular position servo plus the
    in-position window. */
module AmpPivot {
  import opened Wrappers
  import opened Geometry

  /** What the pivot asks of its servo. */
  datatype ServoCall = SetPosition(value: real) | SetDutyCycle(value: real) | Reset | Stop

  /** The window, strictly between half and three quarters of pi radians. */
  const WindowLow: real := 0.5 * Pi
  const WindowHigh: real := 0.75 * Pi

  /** The pivot's delegating operations. */
  datatype PivotOp = SetAmpPosition(value: real) | SetPivotDutyCycle(value: real) | ResetPivot | StopPivot

  /** Each delegating operation as the servo calls it makes. */
  function Delegate(op: PivotOp): (calls: seq<ServoCall>)
    ensures |calls| == 1
  {
    match op
    case SetAmpPosition(v) => [SetPosition(v)]
    case SetPivotDutyCycle(v) => [SetDutyCycle(v)]
    case ResetPivot => [Reset]
    case StopPivot => [Stop]
  }

  /** The argument a call carries, if any. */
  function OpArgument(op: PivotOp): Option<real> {
    match op
    case SetAmpPosition(v) => Some(v)
    case SetPivotDutyCycle(v) => Some(v)
    case _ => None
  }

  function CallArgument(call: ServoCall): Option<real> {
    match call
    case SetPosition(v) => Some(v)
    case SetDutyCycle(v) => Some(v)
    case _ => None
  }

  /** Every operation makes exactly one servo call, passing its argument
      through unchanged, and different operations make different calls. */
  lemma DelegatesOnceUnchanged(op: PivotOp, other: PivotOp)
    ensures |Delegate(op)| == 1 && CallArgument(Delegate(op)[0]) == OpArgument(op)
    ensures op != other ==> Delegate(op) != Delegate(other)
  {
  }

  /** getPositionRad: the servo's measurement, unchanged. */
  function GetPositionRad(servoPosition: Option<real>): (r: Option<real>)
    ensures r == servoPosition
  {
    servoPosition
  }

  /** inPosition: empty without a measurement, else whether the angle is
      strictly inside the window. */
  function InPosition(servoPosition: Option<real>): (r: Option<bool>)
    ensures r.None? <==> servoPosition.None?
    ensures r.Some? ==> (r.value <==> WindowLow < servoPosition.value < WindowHigh)
  {
    var position := GetPositionRad(servoPosition);
    if position.None? then None
    else Some(position.value < 0.75 * Pi && position.value > 0.5 * Pi)
  }

  /** Both ends of the window read as out of position; its middle reads
      in position. */
  lemma WindowIsOpen()
    ensures InPosition(Some(WindowLow)) == Some(false)
    ensures InPosition(Some(WindowHigh)) == Some(false)
    ensures InPosition(Some(0.625 * Pi)) == Some(true)
  {
  }
}
