/** Chassis accelerations for second-order swerve kinematics:
    linear accelerations ax, ay (m/s^2), the centripetal term omega^2
    (rad^2/s^2) and the angular acceleration alpha (rad/s^2). */
module ChassisAccelerations {
  import opened Geometry

  /** The fixed control period the finite difference assumes, in seconds. */
  const Period: real := 0.020

  datatype ChassisAccel = ChassisAccel(ax: real, ay: real, centripetal: real, alpha: real)

  /** The no-argument constructor: Java leaves every field at 0.0. */
  function Zero(): (r: ChassisAccel)
    ensures r.ax == 0.0 && r.ay == 0.0 && r.centripetal == 0.0 && r.alpha == 0.0
  {
    ChassisAccel(0.0, 0.0, 0.0, 0.0)
  }

  /** The two-speed constructor: the finite difference over one period,
      with the centripetal term taken from the current angular speed. */
  function FromSpeeds(current: ChassisSpeeds, next: ChassisSpeeds): (r: ChassisAccel)
    ensures r.centripetal >= 0.0
    ensures r.centripetal == current.omega * current.omega
    // integrating the result over one period from `current` lands on `next`
    ensures current.vx + r.ax * Period == next.vx
    ensures current.vy + r.ay * Period == next.vy
    ensures current.omega + r.alpha * Period == next.omega
  {
    ChassisAccel(
      (next.vx - current.vx) / Period,
      (next.vy - current.vy) / Period,
      current.omega * current.omega,
      (next.omega - current.omega) / Period)
  }

  /** Holding the same speed for a tick means no linear or angular acceleration;
      only the centripetal term of the rotation remains. */
  lemma SteadySpeedHasNoAcceleration(speeds: ChassisSpeeds)
    ensures FromSpeeds(speeds, speeds) == ChassisAccel(0.0, 0.0, speeds.omega * speeds.omega, 0.0)
  {
  }

  /** fromFieldRelativeAccelerations (scalar overload): rotates (ax, ay) from
      the field frame into the robot frame, i.e. by minus the robot angle;
      the centripetal and angular terms are frame-independent. */
  function FromFieldRelative(ax: real, ay: real, centripetal: real, alpha: real,
                             robotAngle: Rotation): (r: ChassisAccel)
    ensures r.centripetal == centripetal && r.alpha == alpha
    // on the unit circle the magnitude of the linear acceleration is kept
    ensures OnUnitCircle(robotAngle) ==> r.ax * r.ax + r.ay * r.ay == ax * ax + ay * ay
    // on the unit circle, rotating back by plus the robot angle recovers the field vector
    ensures OnUnitCircle(robotAngle) ==>
              && r.ax * robotAngle.cos - r.ay * robotAngle.sin == ax
              && r.ax * robotAngle.sin + r.ay * robotAngle.cos == ay
  {
    var c := robotAngle.cos;
    var s := robotAngle.sin;
    var rx := ax * c + ay * s;
    var ry := -ax * s + ay * c;
    NormPreserved(ax, ay, c, s);
    InverseRotation(ax, ay, c, s);
    ChassisAccel(rx, ry, centripetal, alpha)
  }

  lemma NormPreserved(ax: real, ay: real, c: real, s: real)
    ensures c * c + s * s == 1.0 ==>
              (ax * c + ay * s) * (ax * c + ay * s) + (-ax * s + ay * c) * (-ax * s + ay * c)
              == ax * ax + ay * ay
  {
    var rx := ax * c + ay * s;
    var ry := -ax * s + ay * c;
    assert rx * rx + ry * ry == (ax * ax + ay * ay) * (c * c + s * s);
  }

  lemma InverseRotation(ax: real, ay: real, c: real, s: real)
    ensures c * c + s * s == 1.0 ==>
              && (ax * c + ay * s) * c - (-ax * s + ay * c) * s == ax
              && (ax * c + ay * s) * s + (-ax * s + ay * c) * c == ay
  {
    assert (ax * c + ay * s) * c - (-ax * s + ay * c) * s == ax * (c * c + s * s);
    assert (ax * c + ay * s) * s + (-ax * s + ay * c) * c == ay * (c * c + s * s);
  }

  /** fromFieldRelativeAccelerations (object overload). */
  function FromFieldRelativeAccel(field: ChassisAccel, robotAngle: Rotation): (r: ChassisAccel)
    ensures r == FromFieldRelative(field.ax, field.ay, field.centripetal, field.alpha, robotAngle)
  {
    FromFieldRelative(field.ax, field.ay, field.centripetal, field.alpha, robotAngle)
  }

  /** At zero robot angle (cos 1, sin 0) the field and robot frames agree. */
  lemma ZeroAngleIsIdentity(field: ChassisAccel)
    ensures FromFieldRelativeAccel(field, Rotation(0.0, 1.0, 0.0)) == field
  {
  }
}
