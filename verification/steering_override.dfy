/** The steering override of the setpoint generator: while a module is
    stopped and its wheel is not yet pointing where the request needs it,
    hold every drive motor and steer that wheel by at most one tick of
    steering travel. */
module SteeringOverride {
  import opened Wrappers
  import opened Geometry

  /** Speeds at or below this magnitude (m/s) count as stopped. */
  const Epsilon: real := 0.001

  /** Java's Math.signum. */
  function Sign(x: real): (r: real)
    ensures x > 0.0 ==> r == 1.0
    ensures x < 0.0 ==> r == -1.0
    ensures x == 0.0 ==> r == 0.0
  {
    if x > 0.0 then 1.0 else if x < 0.0 then -1.0 else 0.0
  }

  /** What the override does to one module's entry of the out-array. */
  datatype Decision =
    | Untouched                                // the entry keeps whatever it held
    | Write(angle: Option<real>, stalls: bool) // the entry becomes `angle` (None is null);
                                               // `stalls` forces the drive scalar to 0
  {
    predicate Stalls() { Write? && stalls }

    /** The entry of the out-array after this decision. */
    function Apply(old_entry: Option<real>): Option<real> {
      if Write? then angle else old_entry
    }
  }

  /** The rotation still required to reach the desired angle, turned by half
      a revolution when the module would rather drive backwards, then
      wrapped; absent when either angle is unknown.  `angleModulus` and
      `shouldFlip` are WPILib's, left uninterpreted. */
  function RotationRad(desired: Option<real>, prev: Option<real>,
                       angleModulus: real -> real, shouldFlip: real -> bool): (r: Option<real>)
    ensures r.None? <==> desired.None? || prev.None?
    ensures r.Some? ==>
              var necessary := desired.value - prev.value;
              r.value == angleModulus(necessary) || r.value == angleModulus(necessary + Pi)
    ensures r.Some? && !shouldFlip(desired.value - prev.value) ==>
              r.value == angleModulus(desired.value - prev.value)
    ensures r.Some? && shouldFlip(desired.value - prev.value) ==>
              r.value == angleModulus(desired.value - prev.value + Pi)
  {
    if desired.None? || prev.None? then None
    else
      var necessary := desired.value - prev.value;
      var turned := if shouldFlip(necessary) then necessary + Pi else necessary;
      Some(angleModulus(turned))
  }

  /** `|rotation| / maxStep <= 1.0` as Java evaluates it in doubles: a zero
      step gives NaN (for a zero rotation) or infinity, both of which fail;
      a negative step gives a quotient at most zero, which passes. */
  predicate WithinOneStep(rotation: real, maxStep: real) {
    if maxStep > 0.0 then Abs(rotation) <= maxStep
    else maxStep < 0.0
  }

  /** The decision for module i, given its desired and previous states and
      the steering travel possible in one tick. */
  function ModuleDecision(desired: ModuleState, prev: ModuleState, maxStep: real,
                          angleModulus: real -> real, shouldFlip: real -> bool): (r: Decision)
    // a moving module is left alone and never holds the drive
    ensures Abs(prev.speed) > Epsilon ==> r == Untouched
    // a stopped module is always written
    ensures Abs(prev.speed) <= Epsilon ==> r.Write?
    // stopped and staying stopped: the wheel stays where it is (null if unknown)
    ensures Abs(prev.speed) <= Epsilon && Abs(desired.speed) <= Epsilon ==> r == Write(prev.angle, false)
    // the override is null only when an angle it needs is unknown
    ensures r.Write? && r.angle.None? ==> prev.angle.None? || desired.angle.None?
    // holding the drive happens exactly when a stopped module must start moving
    // and its wheel cannot reach the required rotation in one tick
    ensures r.Stalls() <==>
              && Abs(prev.speed) <= Epsilon
              && Abs(desired.speed) > Epsilon
              && RotationRad(desired.angle, prev.angle, angleModulus, shouldFlip).Some?
              && !WithinOneStep(RotationRad(desired.angle, prev.angle, angleModulus, shouldFlip).value, maxStep)
    // a module that must start moving with an unknown angle gets a null override
    ensures && Abs(prev.speed) <= Epsilon && Abs(desired.speed) > Epsilon
            && RotationRad(desired.angle, prev.angle, angleModulus, shouldFlip).None?
            ==> r == Write(None, false)
    // without stalling, the override is where the wheel is or where it is asked to be
    ensures r.Write? && !r.stalls && r.angle.Some? ==> r.angle == prev.angle || r.angle == desired.angle
    // when reachable, a module asked to move is pointed straight at the desired (unflipped) angle
    ensures && Abs(prev.speed) <= Epsilon && Abs(desired.speed) > Epsilon
            && RotationRad(desired.angle, prev.angle, angleModulus, shouldFlip).Some?
            && WithinOneStep(RotationRad(desired.angle, prev.angle, angleModulus, shouldFlip).value, maxStep)
            ==> r == Write(desired.angle, false)
    // when stalling, the wheel turns by exactly one step, in the direction of the required rotation
    ensures r.Stalls() ==>
              && maxStep >= 0.0 && prev.angle.Some? && r.angle.Some?
              && Abs(r.angle.value - prev.angle.value) == maxStep
              && (r.angle.value - prev.angle.value)
                 * RotationRad(desired.angle, prev.angle, angleModulus, shouldFlip).value >= 0.0
  {
    if Abs(prev.speed) > Epsilon then Untouched
    else if Abs(desired.speed) <= Epsilon then Write(prev.angle, false)
    else
      match RotationRad(desired.angle, prev.angle, angleModulus, shouldFlip)
      case None => Write(None, false)
      case Some(rotation) =>
        if WithinOneStep(rotation, maxStep) then Write(desired.angle, false)
        else Write(Some(prev.angle.value + Sign(rotation) * maxStep), true)
  }

  /** SteeringOverride.overrideIfStopped: returns the drive scalar and the
      out-array `overrideSteering` after the call. */
  method OverrideIfStopped(desired: seq<ModuleState>, prev: seq<ModuleState>,
                           overrideSteering: seq<Option<real>>, dtSec: real,
                           maxSteeringVelocity: real,
                           angleModulus: real -> real, shouldFlip: real -> bool)
    returns (s: real, overrides: seq<Option<real>>)
    requires |prev| <= |desired| && |prev| <= |overrideSteering|
    ensures s == 0.0 || s == 1.0
    ensures |overrides| == |overrideSteering|
    // the scalar drops to zero exactly when some module stalls
    ensures s == 0.0 <==>
              exists i :: 0 <= i < |prev| &&
                ModuleDecision(desired[i], prev[i], dtSec * maxSteeringVelocity,
                               angleModulus, shouldFlip).Stalls()
    // each visited entry follows its module's decision
    ensures forall i :: 0 <= i < |prev| ==>
              overrides[i] == ModuleDecision(desired[i], prev[i], dtSec * maxSteeringVelocity,
                                             angleModulus, shouldFlip).Apply(overrideSteering[i])
    // entries beyond the previous states are not touched
    ensures forall i :: |prev| <= i < |overrides| ==> overrides[i] == overrideSteering[i]
  {
    var maxThetaStepRad := dtSec * maxSteeringVelocity;
    var minS := 1.0;
    overrides := overrideSteering;
    var i := 0;
    while i < |prev|
      invariant 0 <= i <= |prev|
      invariant |overrides| == |overrideSteering|
      invariant minS == 0.0 || minS == 1.0
      invariant minS == 0.0 <==>
                  exists j :: 0 <= j < i &&
                    ModuleDecision(desired[j], prev[j], maxThetaStepRad, angleModulus, shouldFlip).Stalls()
      invariant forall j :: 0 <= j < i ==>
                  overrides[j] == ModuleDecision(desired[j], prev[j], maxThetaStepRad,
                                                 angleModulus, shouldFlip).Apply(overrideSteering[j])
      invariant forall j :: i <= j < |overrides| ==> overrides[j] == overrideSteering[j]
    {
      var d := ModuleDecision(desired[i], prev[i], maxThetaStepRad, angleModulus, shouldFlip);
      if d.Write? {
        overrides := overrides[i := d.angle];
      }
      if d.Stalls() {
        minS := 0.0;
      }
      i := i + 1;
    }
    s := minS;
  }

  /** A stopped module whose wheel points along 0 rad, asked to drive at
      90 degrees with 10 rad/s of steering and a 0.02 s tick, holds the drive
      and turns its wheel by 0.2 rad (given that the wrap leaves a quarter
      turn alone and a quarter turn does not call for flipping). */
  lemma QuarterTurnFromRest(angleModulus: real -> real, shouldFlip: real -> bool)
    requires angleModulus(Pi / 2.0) == Pi / 2.0
    requires !shouldFlip(Pi / 2.0)
    ensures ModuleDecision(ModuleState(1.0, Some(Pi / 2.0)), ModuleState(0.0, Some(0.0)),
                           0.02 * 10.0, angleModulus, shouldFlip) == Write(Some(0.2), true)
  {
    assert RotationRad(Some(Pi / 2.0), Some(0.0), angleModulus, shouldFlip) == Some(Pi / 2.0);
  }
}
