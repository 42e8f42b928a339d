/** The turning encoder on a Talon motor: converts between the motor's
    revolutions and the steering output's radians through the gear ratio. */
module TurningEncoder {
  import opened Wrappers
  import opened Geometry

  /** The motor-side encoder: position in revolutions, velocity in rev/s. */
  datatype MotorEncoder = MotorEncoder(positionRev: real, velocityRevS: real)

  datatype Encoder = Encoder(gearRatio: real, motor: MotorEncoder)

  /** Motor revolutions to output radians. */
  function RevToRad(rev: real, gearRatio: real): real
    requires gearRatio != 0.0
  {
    rev * 2.0 * Pi / gearRatio
  }

  /** Output radians to motor revolutions. */
  function RadToRev(rad: real, gearRatio: real): real
    requires gearRatio != 0.0
  {
    rad * gearRatio / (2.0 * Pi)
  }

  /** The two conversions undo each other. */
  lemma ConversionsAreInverse(x: real, gearRatio: real)
    requires gearRatio != 0.0
    ensures RevToRad(RadToRev(x, gearRatio), gearRatio) == x
    ensures RadToRev(RevToRad(x, gearRatio), gearRatio) == x
  {
    var k := 2.0 * Pi;
    assert x * gearRatio / k * 2.0 * Pi == x * gearRatio;
    assert x * 2.0 * Pi / gearRatio * gearRatio == x * k;
  }

  /** getPosition: always present, in radians. */
  function GetPosition(e: Encoder): (r: Option<real>)
    requires e.gearRatio != 0.0
    ensures r.Some?
    ensures r.value * e.gearRatio == e.motor.positionRev * 2.0 * Pi
  {
    Some(RevToRad(e.motor.positionRev, e.gearRatio))
  }

  /** getRate: always present, in rad/s. */
  function GetRate(e: Encoder): (r: Option<real>)
    requires e.gearRatio != 0.0
    ensures r.Some?
    ensures r.value * e.gearRatio == e.motor.velocityRevS * 2.0 * Pi
  {
    Some(RevToRad(e.motor.velocityRevS, e.gearRatio))
  }

  /** setPosition: hand the motor the revolutions that read back as the
      given radians. */
  function SetPosition(e: Encoder, positionRad: real): (r: Encoder)
    requires e.gearRatio != 0.0
    ensures r.gearRatio == e.gearRatio && r.motor.velocityRevS == e.motor.velocityRevS
    ensures GetPosition(r) == Some(positionRad)
  {
    ConversionsAreInverse(positionRad, e.gearRatio);
    e.(motor := e.motor.(positionRev := RadToRev(positionRad, e.gearRatio)))
  }

  /** reset: only the motor's own encoder reset, which zeroes its count. */
  function Reset(e: Encoder): (r: Encoder)
    ensures r.gearRatio == e.gearRatio && r.motor.velocityRevS == e.motor.velocityRevS
    ensures r.motor.positionRev == 0.0
  {
    e.(motor := e.motor.(positionRev := 0.0))
  }

  /** After a reset the position reads zero. */
  lemma ResetReadsZero(e: Encoder)
    requires e.gearRatio != 0.0
    ensures GetPosition(Reset(e)) == Some(0.0)
  {
  }
}
