/** The swerve drive in the robot frame: chassis speeds in, module
    commands out, with the previous setpoint remembered between ticks.
    Kinematics, the setpoint generator, the desaturation limits and the
    modules themselves are collaborators supplied by the caller. */
module SwerveLocal {
  import opened Wrappers
  import opened Geometry
  import opened FirstOrderKinematics

  /** The previous feasible point: chassis speeds and module states. */
  datatype Setpoint = Setpoint(speeds: ChassisSpeeds, states: seq<ModuleState>)

  /** The drive's only state. */
  datatype Local = Local(prev: Setpoint)

  /** What the drive asks of the module collection and of the kinematics. */
  datatype Effect =
    | SetDesired(states: seq<ModuleState>)      // after desaturation
    | SetRaw(states: seq<ModuleState>)          // bypasses desaturation
    | ResetHeadings(angles: seq<Option<real>>)
    | StopModules

  /** Java exceptions the drive can raise. */
  datatype Fault = NullState | IndexOutOfBounds

  /** Collaborators.  Kinematics may leave an entry null (None).  The
      desaturator scales every speed by one factor it chooses from the
      states and the drive limits. */
  datatype Collaborators = Collaborators(
    toStates: (ChassisSpeeds, real, real) -> seq<Option<ModuleState>>,
    toStates2: (ChassisSpeeds, ChassisSpeeds, seq<ModuleState>, real, real) -> seq<Option<ModuleState>>,
    generate: (Setpoint, ChassisSpeeds, real) -> Setpoint,
    desaturationFactor: seq<ModuleState> -> real,
    secondOrder: bool)

  datatype Step = Step(local: Local, effects: seq<Effect>)

  /** The states as sent: one common factor applied to every speed. */
  function Desaturated(c: Collaborators, states: seq<ModuleState>): (r: seq<ModuleState>)
    ensures |r| == |states|
    ensures forall i :: 0 <= i < |r| ==> r[i].angle == states[i].angle
    ensures forall i :: 0 <= i < |r| ==> r[i].speed == states[i].speed * c.desaturationFactor(states)
  {
    Scale(states, c.desaturationFactor(states))
  }

  /** setModuleStates: desaturate, then send; desaturation mutates the
      array, so the caller goes on holding the sent states. */
  function SetModuleStates(c: Collaborators, states: seq<ModuleState>): (r: (seq<ModuleState>, Effect))
    ensures r.1 == SetDesired(r.0)
    ensures r.0 == Desaturated(c, states)
  {
    var sent := Desaturated(c, states);
    (sent, SetDesired(sent))
  }

  predicate AllPresent(states: seq<Option<ModuleState>>) {
    forall i :: 0 <= i < |states| ==> states[i].Some?
  }

  function Present(states: seq<Option<ModuleState>>): (r: seq<ModuleState>)
    requires AllPresent(states)
    ensures |r| == |states| && forall i :: 0 <= i < |r| ==> states[i] == Some(r[i])
  {
    seq(|states|, i requires 0 <= i < |states| => states[i].value)
  }

  /** The drive's bookkeeping after a dispatch: the stored setpoint holds
      exactly the states the last SetDesired sent. */
  predicate StoredMatchesSent(s: Step) {
    |s.effects| > 0 && s.effects[0].SetDesired? && s.effects[0].states == s.local.prev.states
  }

  /** setChassisSpeedsNormally: inverse kinematics (first or second order),
      desaturate, send, and remember the requested speeds with the sent
      states.  A null state makes desaturation throw. */
  function SetChassisSpeedsNormally(l: Local, c: Collaborators, speeds: ChassisSpeeds, gyroRate: real, dt: real)
    : (r: Result<Step, Fault>)
    ensures var raw := if c.secondOrder then c.toStates2(speeds, l.prev.speeds, l.prev.states, gyroRate, dt)
                       else c.toStates(speeds, gyroRate, dt);
            && (r.Failure? <==> !AllPresent(raw))
            && (r.Success? ==>
                  && StoredMatchesSent(r.value)
                  && r.value.local.prev.speeds == speeds
                  && r.value.effects == [SetDesired(Desaturated(c, Present(raw)))])
  {
    var raw := if c.secondOrder then c.toStates2(speeds, l.prev.speeds, l.prev.states, gyroRate, dt)
               else c.toStates(speeds, gyroRate, dt);
    if !AllPresent(raw) then Failure(NullState)
    else
      var (sent, effect) := SetModuleStates(c, Present(raw));
      Success(Step(Local(Setpoint(speeds, sent)), [effect]))
  }

  /** setChassisSpeedsWithSetpointGenerator: the generator proposes the
      next setpoint from the previous one; its states are desaturated in
      place, sent, and the whole setpoint is remembered. */
  function SetChassisSpeedsWithGenerator(l: Local, c: Collaborators, speeds: ChassisSpeeds, dt: real): (r: Step)
    ensures StoredMatchesSent(r)
    ensures var proposed := c.generate(l.prev, speeds, dt);
            && r.local.prev.speeds == proposed.speeds
            && r.effects == [SetDesired(Desaturated(c, proposed.states))]
  {
    var proposed := c.generate(l.prev, speeds, dt);
    var (sent, effect) := SetModuleStates(c, proposed.states);
    Step(Local(Setpoint(proposed.speeds, sent)), [effect])
  }

  /** setChassisSpeeds: the experiment flag picks the path. */
  function SetChassisSpeeds(l: Local, c: Collaborators, useGenerator: bool, speeds: ChassisSpeeds, gyroRate: real, dt: real)
    : (r: Result<Step, Fault>)
    ensures useGenerator ==> r == Success(SetChassisSpeedsWithGenerator(l, c, speeds, dt))
    ensures !useGenerator ==> r == SetChassisSpeedsNormally(l, c, speeds, gyroRate, dt)
    ensures r.Success? ==> StoredMatchesSent(r.value)
  {
    if useGenerator then Success(SetChassisSpeedsWithGenerator(l, c, speeds, dt))
    else SetChassisSpeedsNormally(l, c, speeds, gyroRate, dt)
  }

  /** The one-argument setChassisSpeeds: always the normal path, with no
      yaw rate and a 0.02 s step, whatever the experiment flag says. */
  function SetChassisSpeedsSimple(l: Local, c: Collaborators, speeds: ChassisSpeeds): (r: Result<Step, Fault>)
    ensures r == SetChassisSpeedsNormally(l, c, speeds, 0.0, 0.02)
    ensures forall useGenerator: bool :: !useGenerator ==> r == SetChassisSpeeds(l, c, useGenerator, speeds, 0.0, 0.02)
  {
    SetChassisSpeedsNormally(l, c, speeds, 0.0, 0.02)
  }

  function Angles(states: seq<ModuleState>): (r: seq<Option<real>>)
    requires |states| >= 4
    ensures |r| == 4 && forall i :: 0 <= i < 4 ==> r[i] == states[i].angle
  {
    [states[0].angle, states[1].angle, states[2].angle, states[3].angle]
  }

  /** Fill null entries from the previous setpoint and zero every speed.
      Fails where a null entry has no previous state at its index. */
  function FillAtRest(raw: seq<Option<ModuleState>>, prev: seq<ModuleState>): (r: Result<seq<ModuleState>, Fault>)
    ensures r.Failure? <==> exists i :: 0 <= i < |raw| && raw[i].None? && i >= |prev|
    ensures r.Success? ==>
              && |r.value| == |raw|
              && forall i :: 0 <= i < |raw| ==>
                   r.value[i] == ModuleState(0.0, if raw[i].Some? then raw[i].value.angle else prev[i].angle)
  {
    if exists i :: 0 <= i < |raw| && raw[i].None? && i >= |prev| then Failure(IndexOutOfBounds)
    else
      Success(seq(|raw|, i requires 0 <= i < |raw| =>
                    ModuleState(0.0, if raw[i].Some? then raw[i].value.angle else prev[i].angle)))
  }

  /** Util.all. */
  predicate All(flags: seq<bool>) {
    forall i :: 0 <= i < |flags| ==> flags[i]
  }

  /** Desaturating states that are all at rest sends them unchanged. */
  lemma DesaturatingRestIsIdentity(c: Collaborators, states: seq<ModuleState>)
    requires forall i :: 0 <= i < |states| ==> states[i].speed == 0.0
    ensures Desaturated(c, states) == states
  {
  }

  /** steerAtRest: steer toward the request with every drive speed zeroed,
      filling null states from the previous setpoint; remember the sent
      states at zero chassis speed; hand the first four angles to the
      kinematics; report whether every module is at its goal. */
  function SteerAtRest(l: Local, c: Collaborators, speeds: ChassisSpeeds, gyroRate: real, dt: real, atGoal: seq<bool>)
    : (r: Result<(Step, bool), Fault>)
    ensures var raw := c.toStates(speeds, gyroRate, dt);
            var filled := FillAtRest(raw, l.prev.states);
            && (r.Failure? <==> filled.Failure? || |raw| < 4)
            && (r.Success? ==>
                  var (step, aligned) := r.value;
                  && StoredMatchesSent(step)
                  && step.local.prev == Setpoint(ZeroSpeeds, filled.value)
                  && (forall i :: 0 <= i < |step.local.prev.states| ==> step.local.prev.states[i].speed == 0.0)
                  && step.effects == [SetDesired(filled.value), ResetHeadings(Angles(filled.value))]
                  && (aligned <==> All(atGoal)))
  {
    var raw := c.toStates(speeds, gyroRate, dt);
    match FillAtRest(raw, l.prev.states)
    case Failure(f) => Failure(f)
    case Success(filled) =>
      var (sent, effect) := SetModuleStates(c, filled);
      DesaturatingRestIsIdentity(c, filled);
      if |sent| < 4 then Failure(IndexOutOfBounds)
      else Success((Step(Local(Setpoint(ZeroSpeeds, sent)), [effect, ResetHeadings(Angles(sent))]), All(atGoal)))
  }

  /** setRawModuleStates: send without desaturating and hand the first
      four angles to the kinematics; the previous setpoint is untouched. */
  function SetRawModuleStates(l: Local, target: seq<ModuleState>): (r: Result<Step, Fault>)
    ensures r.Failure? <==> |target| < 4
    ensures r.Success? ==> r.value.local == l && r.value.effects == [SetRaw(target), ResetHeadings(Angles(target))]
  {
    if |target| < 4 then Failure(IndexOutOfBounds)
    else Success(Step(l, [SetRaw(target), ResetHeadings(Angles(target))]))
  }

  /** The "X" pattern, front-left first. */
  const StatesX: seq<ModuleState> :=
    [ModuleState(0.0, Some(Pi / 4.0)), ModuleState(0.0, Some(-1.0 * Pi / 4.0)),
     ModuleState(0.0, Some(3.0 * Pi / 4.0)), ModuleState(0.0, Some(-3.0 * Pi / 4.0))]

  const States0: seq<ModuleState> :=
    [ModuleState(0.0, Some(0.0)), ModuleState(0.0, Some(0.0)), ModuleState(0.0, Some(0.0)), ModuleState(0.0, Some(0.0))]

  const States90: seq<ModuleState> :=
    [ModuleState(0.0, Some(Pi / 2.0)), ModuleState(0.0, Some(Pi / 2.0)),
     ModuleState(0.0, Some(Pi / 2.0)), ModuleState(0.0, Some(Pi / 2.0))]

  /** defense: the X pattern at rest, sent raw, angles within [-pi, pi]. */
  function Defense(l: Local): (r: Step)
    ensures r.local == l
    ensures |r.effects| == 2 && r.effects[0].SetRaw?
    ensures var sent := r.effects[0].states;
            && |sent| == 4
            && (forall i :: 0 <= i < 4 ==>
                  sent[i].speed == 0.0 && sent[i].angle.Some? && -Pi <= sent[i].angle.value <= Pi)
            && sent[0].angle.value == Pi / 4.0 && sent[1].angle.value == -Pi / 4.0
            && sent[2].angle.value == 3.0 * Pi / 4.0 && sent[3].angle.value == -3.0 * Pi / 4.0
    ensures r.effects[1] == ResetHeadings([Some(Pi / 4.0), Some(-Pi / 4.0), Some(3.0 * Pi / 4.0), Some(-3.0 * Pi / 4.0)])
  {
    SetRawModuleStates(l, StatesX).value
  }

  /** steer0 and steer90: every module at rest at one angle, sent raw. */
  function Steer0(l: Local): (r: Step)
    ensures r.local == l
    ensures r.effects == [SetRaw(States0), ResetHeadings([Some(0.0), Some(0.0), Some(0.0), Some(0.0)])]
  {
    SetRawModuleStates(l, States0).value
  }

  function Steer90(l: Local): (r: Step)
    ensures r.local == l
    ensures r.effects == [SetRaw(States90), ResetHeadings([Some(Pi / 2.0), Some(Pi / 2.0), Some(Pi / 2.0), Some(Pi / 2.0)])]
  {
    SetRawModuleStates(l, States90).value
  }

  function Stop(l: Local): (r: Step)
    ensures r.local == l && r.effects == [StopModules]
  {
    Step(l, [StopModules])
  }

  /** resetSetpoint: replace the previous setpoint and do nothing else. */
  function ResetSetpoint(l: Local, setpoint: Setpoint): (r: Step)
    ensures r.local.prev == setpoint && r.effects == []
  {
    Step(Local(setpoint), [])
  }

  /** Every path that drives the modules (normal, generator, steerAtRest)
      leaves the stored setpoint equal to what was sent, and what was
      sent went through the desaturator. */
  lemma EveryDispatchIsDesaturatedAndRemembered(l: Local, c: Collaborators, useGenerator: bool,
                                               speeds: ChassisSpeeds, gyroRate: real, dt: real, atGoal: seq<bool>)
    ensures var r := SetChassisSpeeds(l, c, useGenerator, speeds, gyroRate, dt);
            r.Success? ==>
              && StoredMatchesSent(r.value)
              && exists raw :: r.value.effects[0].states == Desaturated(c, raw)
    ensures var r := SteerAtRest(l, c, speeds, gyroRate, dt, atGoal);
            r.Success? ==>
              && StoredMatchesSent(r.value.0)
              && exists raw :: r.value.0.effects[0].states == Desaturated(c, raw)
  {
    var r := SetChassisSpeeds(l, c, useGenerator, speeds, gyroRate, dt);
    if r.Success? {
      if useGenerator {
        var proposed := c.generate(l.prev, speeds, dt);
        assert r.value.effects[0].states == Desaturated(c, proposed.states);
      } else {
        var raw := if c.secondOrder then c.toStates2(speeds, l.prev.speeds, l.prev.states, gyroRate, dt)
                   else c.toStates(speeds, gyroRate, dt);
        assert r.value.effects[0].states == Desaturated(c, Present(raw));
      }
    }
    var s := SteerAtRest(l, c, speeds, gyroRate, dt, atGoal);
    if s.Success? {
      var filled := FillAtRest(c.toStates(speeds, gyroRate, dt), l.prev.states).value;
      DesaturatingRestIsIdentity(c, filled);
      assert s.value.0.effects[0].states == Desaturated(c, filled);
    }
  }
}
