/** The rate of change of one swerve module: drive acceleration (m/s^2)
    and steering angular velocity (rad/s), with the source's
    tolerance-based equality and its ordering by acceleration. */
module SwerveModuleRate {
  import opened Geometry

  /** Accelerations closer than this count as equal. */
  const Tolerance: real := 0.000000001

  datatype ModuleRate = ModuleRate(acceleration: real, angularVelocity: real)

  /** The argument of `equals(Object)`: a rate, or any other object. */
  datatype Other = RateObject(rate: ModuleRate) | OtherObject

  /** The no-argument constructor: both fields stay at Java's default 0.0. */
  function Default(): (r: ModuleRate)
    ensures r.acceleration == 0.0 && r.angularVelocity == 0.0
  {
    ModuleRate(0.0, 0.0)
  }

  /** SwerveModuleRate.equals. */
  predicate Equals(self: ModuleRate, obj: Other) {
    match obj
    case RateObject(other) =>
      Abs(other.acceleration - self.acceleration) < Tolerance
      && self.angularVelocity == other.angularVelocity
    case OtherObject => false
  }

  /** Equality holds exactly for rates whose accelerations are within the
      tolerance and whose angular velocities coincide; nothing else is equal. */
  lemma EqualsCharacterized(self: ModuleRate, obj: Other)
    ensures Equals(self, obj) <==>
              obj.RateObject?
              && -Tolerance < obj.rate.acceleration - self.acceleration < Tolerance
              && obj.rate.angularVelocity == self.angularVelocity
    ensures obj.OtherObject? ==> !Equals(self, obj)
  {
  }

  /** With no NaN among the reals, equality is reflexive and symmetric. */
  lemma EqualsReflexiveSymmetric(a: ModuleRate, b: ModuleRate)
    ensures Equals(a, RateObject(a))
    ensures Equals(a, RateObject(b)) <==> Equals(b, RateObject(a))
  {
    assert Abs(b.acceleration - a.acceleration) == Abs(a.acceleration - b.acceleration);
  }

  /** The tolerance makes equality intransitive: each neighbour is within
      the tolerance, the two ends are not. */
  lemma EqualsNotTransitive()
    ensures var a := ModuleRate(0.0, 0.0);
            var b := ModuleRate(0.0000000006, 0.0);
            var c := ModuleRate(0.0000000012, 0.0);
            Equals(a, RateObject(b)) && Equals(b, RateObject(c)) && !Equals(a, RateObject(c))
  {
  }

  /** SwerveModuleRate.compareTo: Double.compare on the accelerations. */
  function CompareTo(self: ModuleRate, other: ModuleRate): (r: int)
    ensures r == -1 || r == 0 || r == 1
    ensures r < 0 <==> self.acceleration < other.acceleration
    ensures r == 0 <==> self.acceleration == other.acceleration
    ensures r > 0 <==> self.acceleration > other.acceleration
  {
    if self.acceleration < other.acceleration then -1
    else if self.acceleration > other.acceleration then 1
    else 0
  }

  /** The ordering never looks at angular velocity, is antisymmetric, and
      is transitive. */
  lemma CompareToOrdersByAccelerationOnly(a: ModuleRate, b: ModuleRate, c: ModuleRate, w: real)
    ensures CompareTo(a, b) == CompareTo(a.(angularVelocity := w), b)
    ensures CompareTo(a, b) == -CompareTo(b, a)
    ensures CompareTo(a, b) <= 0 && CompareTo(b, c) <= 0 ==> CompareTo(a, c) <= 0
  {
  }

  /** The ordering is not consistent with equals: two rates with the same
      acceleration compare as equal even when `equals` says they differ. */
  lemma CompareToInconsistentWithEquals()
    ensures var a := ModuleRate(1.0, 0.0);
            var b := ModuleRate(1.0, 2.0);
            CompareTo(a, b) == 0 && !Equals(a, RateObject(b))
  {
  }
}
