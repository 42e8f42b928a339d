/** The rotate-in-place command: first steer the wheels with the drive at
    rest, then follow a trapezoid profile to the target heading.  The
    profile, the holonomic controller and the drive are collaborators. */
module Rotate {
  import opened Geometry

  const XToleranceRad: real := 0.02
  const VToleranceRadS: real := 0.02
  /** Fraction of the kinodynamic limits the profile uses. */
  const Speed: real := 0.5
  const ProfileTolerance: real := 0.05
  /** The command's fixed control period. */
  const Dt: real := 0.02

  datatype Profile = Profile(maxVelocity: real, maxAcceleration: real, tolerance: real)

  /** The command's fields. */
  datatype Command = Command(goal: State100, refTheta: State100, profile: Profile,
                             finished: bool, steeringAligned: bool)

  /** The drive state read at the start of a tick. */
  datatype DriveState = DriveState(pose: Pose, omega: real)

  /** The controller's reference for x, y and heading. */
  datatype Reference = Reference(x: State100, y: State100, theta: State100)

  /** What the command asks of the drive this tick. */
  datatype Action = DriveInFieldCoords(target: ChassisSpeeds) | SteerAtRest(target: ChassisSpeeds) | Stop

  datatype Tick = Tick(next: Command, reference: Reference, action: Action)

  /** The constructor: goal at rest, reference at zero, not finished, not
      aligned.  The profile is built by initialize; until then it is the
      placeholder given here. */
  function New(targetAngle: real, placeholder: Profile): (c: Command)
    ensures c.goal == State100(targetAngle, 0.0, 0.0) && c.refTheta == State100(0.0, 0.0, 0.0)
    ensures !c.finished && !c.steeringAligned
  {
    Command(State100(targetAngle, 0.0, 0.0), State100(0.0, 0.0, 0.0), placeholder, false, false)
  }

  /** resetRefTheta: the reference becomes the measured heading and rate. */
  function Anchored(drive: DriveState): (s: State100)
    ensures s.x == drive.pose.rotation.radians && s.v == drive.omega && s.a == 0.0
  {
    State100(drive.pose.rotation.radians, drive.omega, 0.0)
  }

  /** initialize: clear the alignment latch, anchor the reference, and
      build a profile at half the kinodynamic limits.  The finished flag is
      left as it was. */
  function Initialize(c: Command, maxAngleSpeed: real, maxAngleAccel: real, drive: DriveState): (r: Command)
    ensures !r.steeringAligned
    ensures r.refTheta == Anchored(drive)
    ensures r.profile.maxVelocity == maxAngleSpeed * Speed && r.profile.maxAcceleration == maxAngleAccel * Speed
    ensures r.profile.tolerance == ProfileTolerance
    ensures r.goal == c.goal && r.finished == c.finished
  {
    c.(refTheta := Anchored(drive), profile := Profile(maxAngleSpeed * Speed, maxAngleAccel * Speed, ProfileTolerance),
       steeringAligned := false)
  }

  /** execute.  `calculate` is the profile, `control` the holonomic
      controller, and `aligned` what steerAtRest would answer this tick. */
  function Execute(c: Command, drive: DriveState,
                   calculate: (Profile, real, State100, State100) -> State100,
                   control: (Pose, Reference) -> ChassisSpeeds,
                   aligned: bool): (t: Tick)
    ensures var ref := calculate(c.profile, Dt, c.refTheta, c.goal);
            && t.next.finished == (IsNear(ref.x, c.goal.x, XToleranceRad) && IsNear(ref.v, c.goal.v, VToleranceRadS))
            && t.reference.theta == ref
    // x and y hold still at the measured position
    ensures t.reference.x == State100(drive.pose.translation.x, 0.0, 0.0)
    ensures t.reference.y == State100(drive.pose.translation.y, 0.0, 0.0)
    // once aligned, the latch stays set and the drive follows the controller
    ensures c.steeringAligned ==>
              && t.next.steeringAligned
              && t.action == DriveInFieldCoords(control(drive.pose, t.reference))
              && t.next.refTheta == t.reference.theta
    // until then, only steerAtRest runs and the profile is held at the start
    ensures !c.steeringAligned ==>
              && t.action == SteerAtRest(control(drive.pose, t.reference))
              && t.next.refTheta == Anchored(drive)
              && t.next.steeringAligned == aligned
    ensures t.next.goal == c.goal && t.next.profile == c.profile
  {
    var ref := calculate(c.profile, Dt, c.refTheta, c.goal);
    var finished := IsNear(ref.x, c.goal.x, XToleranceRad) && IsNear(ref.v, c.goal.v, VToleranceRadS);
    var reference := Reference(State100(drive.pose.translation.x, 0.0, 0.0),
                               State100(drive.pose.translation.y, 0.0, 0.0),
                               State100(ref.x, ref.v, ref.a));
    var target := control(drive.pose, reference);
    if c.steeringAligned then
      Tick(c.(refTheta := ref, finished := finished), reference, DriveInFieldCoords(target))
    else
      Tick(c.(refTheta := Anchored(drive), finished := finished, steeringAligned := aligned),
           reference, SteerAtRest(target))
  }

  /** isFinished: the profile is within tolerance and the controller is at
      its reference. */
  predicate IsFinished(c: Command, atReference: bool) {
    c.finished && atReference
  }

  /** end: always stop the drive. */
  function End(c: Command, interrupted: bool): (a: Action)
    ensures a == Stop
  {
    Stop
  }

  /** The observations of one tick. */
  datatype Observation = Observation(drive: DriveState, aligned: bool)

  /** Run execute over a sequence of ticks. */
  function Run(c: Command, ticks: seq<Observation>,
               calculate: (Profile, real, State100, State100) -> State100,
               control: (Pose, Reference) -> ChassisSpeeds): Command
    decreases |ticks|
  {
    if |ticks| == 0 then c
    else Run(Execute(c, ticks[0].drive, calculate, control, ticks[0].aligned).next, ticks[1..], calculate, control)
  }

  /** The latch over a whole run: the wheels count as aligned exactly when
      they were already, or steerAtRest reported alignment on some tick. */
  lemma {:induction false} LatchSetsOnFirstAlignment(c: Command, ticks: seq<Observation>,
                                                     calculate: (Profile, real, State100, State100) -> State100,
                                                     control: (Pose, Reference) -> ChassisSpeeds)
    ensures Run(c, ticks, calculate, control).steeringAligned
            <==> c.steeringAligned || exists k :: 0 <= k < |ticks| && ticks[k].aligned
    decreases |ticks|
  {
    if |ticks| > 0 {
      var next := Execute(c, ticks[0].drive, calculate, control, ticks[0].aligned).next;
      LatchSetsOnFirstAlignment(next, ticks[1..], calculate, control);
      assert next.steeringAligned == (c.steeringAligned || ticks[0].aligned);
      if exists k :: 0 <= k < |ticks| && ticks[k].aligned {
        var k :| 0 <= k < |ticks| && ticks[k].aligned;
        if k > 0 {
          assert ticks[1..][k - 1].aligned;
        }
      }
      if exists k :: 0 <= k < |ticks| - 1 && ticks[1..][k].aligned {
        var k :| 0 <= k < |ticks| - 1 && ticks[1..][k].aligned;
        assert ticks[k + 1].aligned;
      }
    }
  }

  /** Splitting a run before its last tick. */
  lemma {:induction false} RunLastTick(c: Command, ticks: seq<Observation>,
                                       calculate: (Profile, real, State100, State100) -> State100,
                                       control: (Pose, Reference) -> ChassisSpeeds)
    requires |ticks| > 0
    ensures var last := ticks[|ticks| - 1];
            Run(c, ticks, calculate, control)
            == Execute(Run(c, ticks[..|ticks| - 1], calculate, control), last.drive, calculate, control, last.aligned).next
    decreases |ticks|
  {
    var next := Execute(c, ticks[0].drive, calculate, control, ticks[0].aligned).next;
    if |ticks| == 1 {
      assert ticks[..0] == [];
    } else {
      RunLastTick(next, ticks[1..], calculate, control);
      assert ticks[1..][..|ticks| - 2] == ticks[..|ticks| - 1][1..];
      assert ticks[..|ticks| - 1][0] == ticks[0];
    }
  }

  /** A run never changes the goal or the profile. */
  lemma {:induction false} RunKeepsGoal(c: Command, ticks: seq<Observation>,
                                        calculate: (Profile, real, State100, State100) -> State100,
                                        control: (Pose, Reference) -> ChassisSpeeds)
    ensures Run(c, ticks, calculate, control).goal == c.goal
    ensures Run(c, ticks, calculate, control).profile == c.profile
    decreases |ticks|
  {
    if |ticks| > 0 {
      RunKeepsGoal(Execute(c, ticks[0].drive, calculate, control, ticks[0].aligned).next, ticks[1..], calculate, control);
    }
  }

  /** isFinished after any nonempty run: exactly when the controller is at
      its reference and the profile's last reference lies within 0.02 rad
      and 0.02 rad/s of the original goal. */
  lemma FinishesOnlyNearGoal(c: Command, ticks: seq<Observation>,
                             calculate: (Profile, real, State100, State100) -> State100,
                             control: (Pose, Reference) -> ChassisSpeeds, atReference: bool)
    requires |ticks| > 0
    ensures var before := Run(c, ticks[..|ticks| - 1], calculate, control);
            var ref := calculate(c.profile, Dt, before.refTheta, c.goal);
            IsFinished(Run(c, ticks, calculate, control), atReference)
            <==> atReference && IsNear(ref.x, c.goal.x, XToleranceRad) && IsNear(ref.v, c.goal.v, VToleranceRadS)
  {
    RunLastTick(c, ticks, calculate, control);
    RunKeepsGoal(c, ticks[..|ticks| - 1], calculate, control);
  }
}
