/** Plane geometry and drivetrain value types shared by the whole model.
    Numbers are mathematical reals: there is no NaN, no infinity and no
    rounding, so every floating-point subtlety is stated where it matters. */
module Geometry {
  import opened Wrappers

  /** The double value of Java's Math.PI. */
  const Pi: real := 3.141592653589793

  function Abs(x: real): (r: real)
    ensures r >= 0.0
    ensures r == x || r == -x
  {
    if x < 0.0 then -x else x
  }

  /** WPILib's MathUtil.clamp: max(low, min(value, high)).  With the
      bounds the wrong way round the answer is low. */
  function Clamp(value: real, low: real, high: real): (r: real)
    ensures low <= high ==> low <= r <= high
    ensures low <= value <= high ==> r == value
    ensures low <= high && value < low ==> r == low
    ensures value > high ==> r == if low > high then low else high
    ensures low > high ==> r == low
  {
    var m := if value < high then value else high;
    if low > m then low else m
  }

  /** WPILib's MathUtil.isNear: strictly closer than the tolerance. */
  predicate IsNear(expected: real, actual: real, tolerance: real) {
    Abs(expected - actual) < tolerance
  }

  /** A point or vector in the plane (Translation2d, dyn4j Vector2). */
  datatype Translation = Translation(x: real, y: real) {
    function Plus(other: Translation): Translation {
      Translation(x + other.x, y + other.y)
    }
    function Minus(other: Translation): Translation {
      Translation(x - other.x, y - other.y)
    }
    /** Squared length; compares with squared tolerances without a square root. */
    function NormSquared(): real {
      x * x + y * y
    }
  }

  /** A rotation as WPILib's Rotation2d stores it: the angle in radians
      together with its cosine and sine.  The trigonometry is not computed
      here: whoever builds a Rotation supplies all three. */
  datatype Rotation = Rotation(radians: real, cos: real, sin: real)

  /** The cosine and sine of a rotation lie on the unit circle. */
  predicate OnUnitCircle(r: Rotation) {
    r.cos * r.cos + r.sin * r.sin == 1.0
  }

  datatype Pose = Pose(translation: Translation, rotation: Rotation)

  /** Chassis velocity: vx, vy in m/s and omega in rad/s. */
  datatype ChassisSpeeds = ChassisSpeeds(vx: real, vy: real, omega: real)

  /** WPILib's `new ChassisSpeeds()`. */
  const ZeroSpeeds: ChassisSpeeds := ChassisSpeeds(0.0, 0.0, 0.0)

  /** A module command (SwerveModuleState100): drive speed and an optional
      steering angle in radians; an absent angle means "indeterminate". */
  datatype ModuleState = ModuleState(speed: real, angle: Option<real>)

  /** A motion-profile state (State100): position, velocity, acceleration. */
  datatype State100 = State100(x: real, v: real, a: real)
}
