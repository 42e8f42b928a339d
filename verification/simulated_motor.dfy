/** The simulated motor: it runs at whatever velocity it was last given,
    limited to its free speed. */
module SimulatedMotor {
  import opened Geometry

  datatype Motor = Motor(freeSpeed: real, velocity: real)

  /** A new motor is at rest. */
  function New(freeSpeed: real): (m: Motor)
    ensures m.freeSpeed == freeSpeed && m.velocity == 0.0
  {
    Motor(freeSpeed, 0.0)
  }

  /** The motor's invariant: never faster than its free speed. */
  predicate WithinFreeSpeed(m: Motor) {
    -m.freeSpeed <= m.velocity <= m.freeSpeed
  }

  /** setVelocity: store the velocity clamped to the free speed; the
      acceleration and torque arguments are ignored. */
  function SetVelocity(m: Motor, velocity: real, accel: real, torque: real): (r: Motor)
    ensures r.freeSpeed == m.freeSpeed
    ensures m.freeSpeed >= 0.0 ==> WithinFreeSpeed(r)
    ensures -m.freeSpeed <= velocity <= m.freeSpeed ==> r.velocity == velocity
    ensures m.freeSpeed >= 0.0 && velocity > m.freeSpeed ==> r.velocity == m.freeSpeed
    ensures m.freeSpeed >= 0.0 && velocity < -m.freeSpeed ==> r.velocity == -m.freeSpeed
  {
    m.(velocity := Clamp(velocity, -m.freeSpeed, m.freeSpeed))
  }

  /** The acceleration and torque arguments make no difference. */
  lemma SetVelocityIgnoresAccelAndTorque(m: Motor, velocity: real, a1: real, t1: real, a2: real, t2: real)
    ensures SetVelocity(m, velocity, a1, t1) == SetVelocity(m, velocity, a2, t2)
  {
  }

  /** setDutyCycle: duty clamped to [-1, 1], times the free speed. */
  function SetDutyCycle(m: Motor, duty: real): (r: Motor)
    ensures r.freeSpeed == m.freeSpeed
    ensures r == SetVelocity(m, Clamp(duty, -1.0, 1.0) * m.freeSpeed, 0.0, 0.0)
    // for a non-negative free speed the second clamp changes nothing
    ensures m.freeSpeed >= 0.0 ==> r.velocity == Clamp(duty, -1.0, 1.0) * m.freeSpeed
    ensures m.freeSpeed >= 0.0 ==> WithinFreeSpeed(r)
  {
    var output := Clamp(duty, -1.0, 1.0);
    assert m.freeSpeed >= 0.0 ==> -m.freeSpeed <= output * m.freeSpeed <= m.freeSpeed by {
      if m.freeSpeed >= 0.0 {
        DutyWithinFreeSpeed(output, m.freeSpeed);
      }
    }
    SetVelocity(m, output * m.freeSpeed, 0.0, 0.0)
  }

  lemma DutyWithinFreeSpeed(d: real, f: real)
    requires -1.0 <= d <= 1.0 && f >= 0.0
    ensures -f <= d * f <= f
  {
    assert (1.0 - d) * f >= 0.0;
    assert (1.0 + d) * f >= 0.0;
  }

  /** setPosition does nothing. */
  function SetPosition(m: Motor, position: real, velocity: real, torque: real): (r: Motor)
    ensures r == m
  {
    m
  }

  function Stop(m: Motor): (r: Motor)
    ensures r.freeSpeed == m.freeSpeed && r.velocity == 0.0
  {
    m.(velocity := 0.0)
  }

  function GetVelocity(m: Motor): real {
    m.velocity
  }

  /** The operations a caller can make. */
  datatype Call =
    | CallSetVelocity(velocity: real, accel: real, torque: real)
    | CallSetDutyCycle(duty: real)
    | CallSetPosition(position: real, velocity: real, torque: real)
    | CallStop

  function Apply(m: Motor, c: Call): Motor {
    match c
    case CallSetVelocity(v, a, t) => SetVelocity(m, v, a, t)
    case CallSetDutyCycle(d) => SetDutyCycle(m, d)
    case CallSetPosition(p, v, t) => SetPosition(m, p, v, t)
    case CallStop => Stop(m)
  }

  function Replay(m: Motor, calls: seq<Call>): Motor
    decreases |calls|
  {
    if |calls| == 0 then m else Replay(Apply(m, calls[0]), calls[1..])
  }

  /** Whatever the calls, getVelocity never reports more than the free
      speed (for a motor built with a non-negative free speed). */
  lemma {:induction false} VelocityAlwaysWithinFreeSpeed(freeSpeed: real, calls: seq<Call>)
    requires freeSpeed >= 0.0
    ensures WithinFreeSpeed(Replay(New(freeSpeed), calls))
  {
    ReplayKeepsBound(New(freeSpeed), calls);
  }

  lemma {:induction false} ReplayKeepsBound(m: Motor, calls: seq<Call>)
    requires m.freeSpeed >= 0.0 && WithinFreeSpeed(m)
    ensures Replay(m, calls).freeSpeed == m.freeSpeed && WithinFreeSpeed(Replay(m, calls))
    decreases |calls|
  {
    if |calls| > 0 {
      ReplayKeepsBound(Apply(m, calls[0]), calls[1..]);
    }
  }
}
