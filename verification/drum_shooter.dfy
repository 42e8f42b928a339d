/** The drum shooter's roller setpoints and its readiness checks.  The
    rollers and the pivot servo are collaborators: the model records the
    velocities commanded and reads measurements given to it. */
module DrumShooter {
  import opened Wrappers
  import opened Geometry

  /** Roller setpoints in m/s. */
  const LeftRollerVelocity: real := 20.0
  const RightRollerVelocity: real := 15.0
  const IdleVelocity: real := 0.0
  const FeedVelocity: real := 1.0
  const OutVelocity: real := -6.0

  /** Half-width of the narrow readiness window, m/s. */
  const NarrowTolerance: real := 0.5
  /** Fraction of the setpoint the wide check asks for. */
  const WideRatio: real := 0.5

  /** The commanded roller velocities and what was asked of the pivot. */
  datatype Shooter = Shooter(left: real, right: real, pivotStops: nat)

  function Forward(s: Shooter): (r: Shooter)
    ensures r.left == LeftRollerVelocity && r.right == RightRollerVelocity && r.pivotStops == s.pivotStops
  {
    s.(left := LeftRollerVelocity, right := RightRollerVelocity)
  }

  /** stop: idle both rollers and stop the pivot. */
  function Stop(s: Shooter): (r: Shooter)
    ensures r.left == 0.0 && r.right == 0.0 && r.pivotStops == s.pivotStops + 1
  {
    Shooter(IdleVelocity, IdleVelocity, s.pivotStops + 1)
  }

  function Feed(s: Shooter): (r: Shooter)
    ensures r.left == 1.0 && r.right == 1.0 && r.pivotStops == s.pivotStops
  {
    s.(left := FeedVelocity, right := FeedVelocity)
  }

  function Outtake(s: Shooter): (r: Shooter)
    ensures r.left == -6.0 && r.right == -6.0 && r.pivotStops == s.pivotStops
  {
    s.(left := OutVelocity, right := OutVelocity)
  }

  /** getVelocity: the mean of the two rollers, or empty if either is. */
  function GetVelocity(left: Option<real>, right: Option<real>): (r: Option<real>)
    ensures r.None? <==> left.None? || right.None?
    ensures r.Some? ==> r.value + r.value == left.value + right.value
    ensures r.Some? && left.value <= right.value ==> left.value <= r.value <= right.value
  {
    if left.None? || right.None? then None else Some((left.value + right.value) / 2.0)
  }

  /** The narrow check: each roller strictly within 0.5 m/s of its setpoint. */
  predicate NearSetpoints(l: real, r: real) {
    Abs(l - LeftRollerVelocity) < NarrowTolerance && Abs(r - RightRollerVelocity) < NarrowTolerance
  }

  /** atVelocitySetpoint(wide): false without both measurements; the wide
      check asks each roller for more than half its setpoint, the narrow
      one for the 0.5 m/s window. */
  function AtVelocitySetpointWide(left: Option<real>, right: Option<real>, wide: bool): (r: bool)
    ensures left.None? || right.None? ==> !r
    ensures left.Some? && right.Some? && wide ==>
              (r <==> left.value > 10.0 && right.value > 7.5)
    ensures left.Some? && right.Some? && !wide ==>
              (r <==> 19.5 < left.value < 20.5 && 14.5 < right.value < 15.5)
  {
    if left.None? || right.None? then false
    else if wide then
      left.value / LeftRollerVelocity > WideRatio && right.value / RightRollerVelocity > WideRatio
    else
      NearSetpoints(left.value, right.value)
  }

  /** The no-argument atVelocitySetpoint: the narrow check. */
  function AtVelocitySetpoint(left: Option<real>, right: Option<real>): (r: bool)
    ensures r == AtVelocitySetpointWide(left, right, false)
  {
    if left.None? || right.None? then false
    else NearSetpoints(left.value, right.value)
  }

  /** readyToShoot: the narrow check. */
  function ReadyToShoot(left: Option<real>, right: Option<real>): (r: bool)
    ensures r == AtVelocitySetpoint(left, right)
  {
    AtVelocitySetpointWide(left, right, false)
  }

  /** Passing the narrow check implies passing the wide one. */
  lemma NarrowImpliesWide(left: Option<real>, right: Option<real>)
    ensures AtVelocitySetpointWide(left, right, false) ==> AtVelocitySetpointWide(left, right, true)
  {
  }

  /** Rollers running exactly at the forward setpoints are ready, and the
      mean velocity is 17.5 m/s. */
  lemma ForwardSetpointsAreReady(s: Shooter)
    ensures var f := Forward(s);
            && ReadyToShoot(Some(f.left), Some(f.right))
            && GetVelocity(Some(f.left), Some(f.right)) == Some(17.5)
  {
  }

  /** Idle rollers are not ready by either check. */
  lemma StoppedIsNotReady(s: Shooter)
    ensures var t := Stop(s);
            && !AtVelocitySetpointWide(Some(t.left), Some(t.right), true)
            && !AtVelocitySetpointWide(Some(t.left), Some(t.right), false)
  {
  }
}
