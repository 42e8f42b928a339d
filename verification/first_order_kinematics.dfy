/** First-order swerve kinematics as the unit tests pin it down:
    desaturation of wheel speeds, the 2n x 3 inverse matrix, heading
    retention at zero chassis speed, and the empty angle of a module that
    does not move.  The square root and atan2 are supplied by the caller. */
module FirstOrderKinematics {
  import opened Wrappers
  import opened Geometry
  import opened Matrix

  // ---------------------------------------------------------------- desaturation

  /** The largest wheel-speed magnitude, starting from 0 as the loop does. */
  function MaxAbs(s: seq<real>): real
  {
    if |s| == 0 then 0.0
    else
      var m := MaxAbs(s[..|s| - 1]);
      var last := Abs(s[|s| - 1]);
      if m < last then last else m
  }

  /** MaxAbs is an upper bound that is attained (or 0 for no wheels). */
  lemma {:induction false} MaxAbsIsMaximum(s: seq<real>)
    ensures MaxAbs(s) >= 0.0
    ensures forall i :: 0 <= i < |s| ==> Abs(s[i]) <= MaxAbs(s)
    ensures |s| == 0 ==> MaxAbs(s) == 0.0
    ensures |s| > 0 ==> exists i :: 0 <= i < |s| && Abs(s[i]) == MaxAbs(s)
  {
    if |s| > 0 {
      var init := s[..|s| - 1];
      MaxAbsIsMaximum(init);
      assert forall i :: 0 <= i < |init| ==> s[i] == init[i];
      if |init| > 0 {
        var j :| 0 <= j < |init| && Abs(init[j]) == MaxAbs(init);
        assert s[j] == init[j];
      }
    }
  }

  /** The loop that finds the largest magnitude. */
  method FindMaxAbs(s: seq<real>) returns (m: real)
    ensures m >= 0.0
    ensures forall i :: 0 <= i < |s| ==> Abs(s[i]) <= m
    ensures |s| > 0 ==> exists i :: 0 <= i < |s| && Abs(s[i]) == m
    ensures |s| == 0 ==> m == 0.0
  {
    m := 0.0;
    var i := 0;
    while i < |s|
      invariant 0 <= i <= |s|
      invariant m == MaxAbs(s[..i])
    {
      assert s[..i + 1][..i] == s[..i];
      var a := Abs(s[i]);
      if m < a {
        m := a;
      }
      i := i + 1;
    }
    assert s[..i] == s;
    MaxAbsIsMaximum(s);
  }

  function Speeds(states: seq<ModuleState>): (s: seq<real>)
    ensures |s| == |states|
    ensures forall i :: 0 <= i < |s| ==> s[i] == states[i].speed
  {
    seq(|states|, i requires 0 <= i < |states| => states[i].speed)
  }

  /** The common factor desaturation applies: cap / largest when the
      largest magnitude exceeds the cap, else 1. */
  function Factor(states: seq<ModuleState>, cap: real): real
    requires cap >= 0.0
  {
    var m := MaxAbs(Speeds(states));
    MaxAbsIsMaximum(Speeds(states));
    if m > cap then cap / m else 1.0
  }

  /** desaturateWheelSpeeds: when the largest magnitude exceeds the cap,
      every speed is multiplied by cap / largest; angles are untouched. */
  function Desaturate(states: seq<ModuleState>, cap: real): (r: seq<ModuleState>)
    requires cap >= 0.0
    ensures |r| == |states|
    ensures forall i :: 0 <= i < |r| ==> r[i].angle == states[i].angle
  {
    var m := MaxAbs(Speeds(states));
    if m > cap then Scale(states, cap / m) else states
  }

  /** Every speed times f, angles kept. */
  function Scale(states: seq<ModuleState>, f: real): (r: seq<ModuleState>)
    ensures |r| == |states|
    ensures forall i :: 0 <= i < |r| ==> r[i] == ModuleState(states[i].speed * f, states[i].angle)
  {
    seq(|states|, i requires 0 <= i < |states| => ModuleState(states[i].speed * f, states[i].angle))
  }

  lemma FactorInUnit(cap: real, m: real)
    requires 0.0 <= cap < m
    ensures 0.0 <= cap / m <= 1.0
    ensures cap > 0.0 ==> cap / m > 0.0
    ensures (cap / m) * m == cap
  {
    var f := cap / m;
    assert f * m == cap;
  }

  /** A magnitude within m, scaled by f = cap / m, is within cap, keeps its
      sign, and is zero only if it was (for a positive cap). */
  lemma ScaledWithinCap(s: real, f: real, cap: real, m: real)
    requires 0.0 <= f && f * m == cap && -m <= s <= m
    ensures -cap <= s * f <= cap
    ensures f > 0.0 ==> (s * f == 0.0 <==> s == 0.0)
    ensures (s > 0.0 ==> s * f >= 0.0) && (s < 0.0 ==> s * f <= 0.0)
  {
    assert s * f <= m * f;
    assert (-s) * f <= m * f;
  }

  /** x, the desaturated form of s, is within the cap, keeps the sign of
      s, and (for a positive cap) is zero only when s is. */
  predicate ScaledWithin(s: real, x: real, cap: real) {
    && -cap <= x <= cap
    && (cap > 0.0 ==> (x == 0.0 <==> s == 0.0))
    && (s > 0.0 ==> x >= 0.0)
    && (s < 0.0 ==> x <= 0.0)
  }

  /** A speed s within m, scaled by cap / m into x. */
  lemma ScaledByFactor(s: real, x: real, cap: real, m: real)
    requires 0.0 <= cap < m && -m <= s <= m && x == s * (cap / m)
    ensures ScaledWithin(s, x, cap)
  {
    FactorInUnit(cap, m);
    ScaledWithinCap(s, cap / m, cap, m);
  }

  /** Every speed lies within the largest magnitude. */
  lemma SpeedWithinMax(states: seq<ModuleState>, i: nat)
    requires i < |states|
    ensures -MaxAbs(Speeds(states)) <= states[i].speed <= MaxAbs(Speeds(states))
  {
    MaxAbsIsMaximum(Speeds(states));
    assert Abs(Speeds(states)[i]) <= MaxAbs(Speeds(states));
  }

  /** Above the cap, each speed is multiplied by cap / largest. */
  lemma DesaturateEntry(states: seq<ModuleState>, cap: real, i: nat)
    requires cap >= 0.0 && i < |states| && MaxAbs(Speeds(states)) > cap
    ensures Desaturate(states, cap)[i].speed == states[i].speed * (cap / MaxAbs(Speeds(states)))
  {
    assert Desaturate(states, cap) == Scale(states, cap / MaxAbs(Speeds(states)));
  }

  /** The scaling case, one module at a time. */
  lemma DesaturatedModule(states: seq<ModuleState>, cap: real, i: nat)
    requires cap >= 0.0 && i < |states| && MaxAbs(Speeds(states)) > cap
    ensures ScaledWithin(states[i].speed, Desaturate(states, cap)[i].speed, cap)
  {
    SpeedWithinMax(states, i);
    DesaturateEntry(states, cap, i);
    ScaledByFactor(states[i].speed, Desaturate(states, cap)[i].speed, cap, MaxAbs(Speeds(states)));
  }

  /** Within the cap, desaturation changes nothing. */
  lemma DesaturateWithinCap(states: seq<ModuleState>, cap: real)
    requires cap >= 0.0 && MaxAbs(Speeds(states)) <= cap
    ensures Desaturate(states, cap) == states
    ensures forall i :: 0 <= i < |states| ==> ScaledWithin(states[i].speed, states[i].speed, cap)
  {
    forall i | 0 <= i < |states|
      ensures ScaledWithin(states[i].speed, states[i].speed, cap)
    {
      SpeedWithinMax(states, i);
    }
  }

  /** Desaturation multiplies every speed by the one factor, which lies
      in [0, 1]. */
  lemma DesaturateByFactor(states: seq<ModuleState>, cap: real)
    requires cap >= 0.0
    ensures 0.0 <= Factor(states, cap) <= 1.0
    ensures forall i :: 0 <= i < |states| ==> Desaturate(states, cap)[i].speed == states[i].speed * Factor(states, cap)
  {
    var m := MaxAbs(Speeds(states));
    var f := Factor(states, cap);
    if m > cap {
      assert f == cap / m;
      assert Desaturate(states, cap) == Scale(states, f);
      FactorInUnit(cap, m);
    } else {
      assert f == 1.0;
      assert Desaturate(states, cap) == states;
    }
  }

  /** What desaturation promises: no magnitude above the cap, nothing
      changed when already within it, and every speed scaled by one common
      factor in [0, 1], so ratios and signs are kept. */
  lemma DesaturateMeaning(states: seq<ModuleState>, cap: real)
    requires cap >= 0.0
    ensures forall i :: 0 <= i < |states| ==> ScaledWithin(states[i].speed, Desaturate(states, cap)[i].speed, cap)
    ensures MaxAbs(Speeds(states)) <= cap ==> Desaturate(states, cap) == states
    ensures 0.0 <= Factor(states, cap) <= 1.0
    ensures forall i :: 0 <= i < |states| ==> Desaturate(states, cap)[i].speed == states[i].speed * Factor(states, cap)
  {
    DesaturateByFactor(states, cap);
    if MaxAbs(Speeds(states)) > cap {
      forall i | 0 <= i < |states|
        ensures ScaledWithin(states[i].speed, Desaturate(states, cap)[i].speed, cap)
      {
        DesaturatedModule(states, cap, i);
      }
    } else {
      DesaturateWithinCap(states, cap);
    }
  }

  function Stopped(speeds: seq<real>): seq<ModuleState> {
    seq(|speeds|, i requires 0 <= i < |speeds| => ModuleState(speeds[i], Some(0.0)))
  }

  /** The test with speeds 5, 6, 4, 7 and cap 5.5: each scaled by 5.5 / 7. */
  lemma DesaturateScalesToCap()
    ensures Speeds(Desaturate(Stopped([5.0, 6.0, 4.0, 7.0]), 5.5))
            == [5.0 * (5.5 / 7.0), 6.0 * (5.5 / 7.0), 4.0 * (5.5 / 7.0), 7.0 * (5.5 / 7.0)]
  {
    var s := Speeds(Stopped([5.0, 6.0, 4.0, 7.0]));
    assert s == [5.0, 6.0, 4.0, 7.0];
    assert [5.0][..0] == [];
    assert MaxAbs([5.0]) == 5.0;
    assert [5.0, 6.0][..1] == [5.0];
    assert MaxAbs([5.0, 6.0]) == 6.0;
    assert [5.0, 6.0, 4.0][..2] == [5.0, 6.0];
    assert MaxAbs([5.0, 6.0, 4.0]) == 6.0;
    assert s[..3] == [5.0, 6.0, 4.0];
    assert MaxAbs(s) == 7.0;
  }

  /** The test with speeds 1, 1, -2, -2 and cap 1: signs are kept. */
  lemma DesaturateKeepsSigns()
    ensures Speeds(Desaturate(Stopped([1.0, 1.0, -2.0, -2.0]), 1.0)) == [0.5, 0.5, -1.0, -1.0]
  {
    var s := Speeds(Stopped([1.0, 1.0, -2.0, -2.0]));
    assert s == [1.0, 1.0, -2.0, -2.0];
    assert [1.0][..0] == [];
    assert MaxAbs([1.0]) == 1.0;
    assert [1.0, 1.0][..1] == [1.0];
    assert MaxAbs([1.0, 1.0]) == 1.0;
    assert [1.0, 1.0, -2.0][..2] == [1.0, 1.0];
    assert MaxAbs([1.0, 1.0, -2.0]) == 2.0;
    assert s[..3] == [1.0, 1.0, -2.0];
    assert MaxAbs(s) == 2.0;
  }

  // ---------------------------------------------------------------- inverse matrix

  /** The 2n x 3 inverse matrix: rows [1, 0, -y] and [0, 1, x] per module. */
  function InverseMatrix(modules: seq<Translation>): (m: Mat)
    ensures Shape(m, 2 * |modules|, 3)
  {
    seq(2 * |modules|, j requires 0 <= j < 2 * |modules| =>
          if j % 2 == 0 then [1.0, 0.0, -modules[j / 2].y] else [0.0, 1.0, modules[j / 2].x])
  }

  /** The velocity of a point at offset r on a body moving at `speeds`. */
  function PointVelocity(speeds: ChassisSpeeds, r: Translation): Translation {
    Translation(speeds.vx - speeds.omega * r.y, speeds.vy + speeds.omega * r.x)
  }

  function SpeedsVector(speeds: ChassisSpeeds): (v: Vector)
    ensures |v| == 3
  {
    [speeds.vx, speeds.vy, speeds.omega]
  }

  lemma InverseMatrixRows(modules: seq<Translation>, i: nat)
    requires i < |modules|
    ensures InverseMatrix(modules)[2 * i] == [1.0, 0.0, -modules[i].y]
    ensures InverseMatrix(modules)[2 * i + 1] == [0.0, 1.0, modules[i].x]
  {
    assert (2 * i) / 2 == i && (2 * i) % 2 == 0;
    assert (2 * i + 1) / 2 == i && (2 * i + 1) % 2 == 1;
  }

  /** Rows 2i and 2i+1 times the chassis speeds give module i's rigid-body
      velocity. */
  lemma InverseGivesPointVelocity(modules: seq<Translation>, speeds: ChassisSpeeds, i: nat)
    requires i < |modules|
    ensures MatVec(InverseMatrix(modules), SpeedsVector(speeds))[2 * i] == PointVelocity(speeds, modules[i]).x
    ensures MatVec(InverseMatrix(modules), SpeedsVector(speeds))[2 * i + 1] == PointVelocity(speeds, modules[i]).y
  {
    InverseMatrixRows(modules, i);
    Dot3(InverseMatrix(modules)[2 * i], SpeedsVector(speeds));
    Dot3(InverseMatrix(modules)[2 * i + 1], SpeedsVector(speeds));
  }

  /** The drive base with modules at (+-0.5, +-0.5), front-left first. */
  const SquareBase: seq<Translation> :=
    [Translation(0.5, 0.5), Translation(0.5, -0.5), Translation(-0.5, 0.5), Translation(-0.5, -0.5)]

  /** Each module's velocity as the inverse matrix computes it: the pairs
      of the product column. */
  function ModuleVelocities(modules: seq<Translation>, speeds: ChassisSpeeds): (vs: seq<Translation>)
    ensures |vs| == |modules|
    ensures forall i :: 0 <= i < |vs| ==> vs[i] == PointVelocity(speeds, modules[i])
  {
    var column := MatVec(InverseMatrix(modules), SpeedsVector(speeds));
    var vs := seq(|modules|, i requires 0 <= i < |modules| => Translation(column[2 * i], column[2 * i + 1]));
    forall i | 0 <= i < |modules|
      ensures vs[i] == PointVelocity(speeds, modules[i])
    {
      InverseGivesPointVelocity(modules, speeds, i);
    }
    vs
  }

  /** The entries the inverse-matrix test reads for the square base. */
  lemma SquareBaseInverse()
    ensures InverseMatrix(SquareBase)[0] == [1.0, 0.0, -0.5]
    ensures InverseMatrix(SquareBase)[1] == [0.0, 1.0, 0.5]
    ensures InverseMatrix(SquareBase)[2] == [1.0, 0.0, 0.5]
    ensures InverseMatrix(SquareBase)[3] == [0.0, 1.0, 0.5]
  {
    InverseMatrixRows(SquareBase, 0);
    InverseMatrixRows(SquareBase, 1);
  }

  // ---------------------------------------------------------------- module states

  /** The kinematics object's state: module offsets and the last headings. */
  datatype Kinematics = Kinematics(modules: seq<Translation>, headings: seq<real>)

  predicate Valid(k: Kinematics) {
    |k.headings| == |k.modules|
  }

  predicate IsStill(speeds: ChassisSpeeds) {
    speeds.vx == 0.0 && speeds.vy == 0.0 && speeds.omega == 0.0
  }

  /** toSwerveModuleStates.  At zero chassis speed every module keeps its
      last heading at speed 0; otherwise each module's velocity vector gives
      its speed (norm) and angle (atan2), which become the new headings. */
  function ToSwerveModuleStates(k: Kinematics, speeds: ChassisSpeeds,
                                norm: (real, real) -> real, atan2: (real, real) -> real)
    : (r: (Kinematics, seq<ModuleState>))
    requires Valid(k)
    ensures Valid(r.0) && r.0.modules == k.modules && |r.1| == |k.modules|
    ensures IsStill(speeds) ==>
              r.0 == k && forall i :: 0 <= i < |r.1| ==> r.1[i] == ModuleState(0.0, Some(k.headings[i]))
    ensures !IsStill(speeds) ==>
              forall i :: 0 <= i < |r.1| ==>
                var v := PointVelocity(speeds, k.modules[i]);
                && r.1[i] == ModuleState(norm(v.x, v.y), Some(atan2(v.y, v.x)))
                && r.0.headings[i] == atan2(v.y, v.x)
  {
    var n := |k.modules|;
    if IsStill(speeds) then
      (k, seq(n, i requires 0 <= i < n => ModuleState(0.0, Some(k.headings[i]))))
    else
      var vs := ModuleVelocities(k.modules, speeds);
      var states := seq(n, i requires 0 <= i < n => ModuleState(norm(vs[i].x, vs[i].y), Some(atan2(vs[i].y, vs[i].x))));
      var headings := seq(n, i requires 0 <= i < n => atan2(vs[i].y, vs[i].x));
      (Kinematics(k.modules, headings), states)
  }

  /** resetHeadings replaces the remembered headings. */
  function ResetHeadings(k: Kinematics, headings: seq<real>): (r: Kinematics)
    requires |headings| == |k.modules|
    ensures Valid(r) && r.modules == k.modules
  {
    Kinematics(k.modules, headings)
  }

  /** Conserve wheel angle: after any command, a zero command reports
      speed 0 at the angles that command left behind. */
  lemma ZeroSpeedKeepsLastAngles(k: Kinematics, speeds: ChassisSpeeds,
                                 norm: (real, real) -> real, atan2: (real, real) -> real)
    requires Valid(k) && !IsStill(speeds)
    ensures var (k1, first) := ToSwerveModuleStates(k, speeds, norm, atan2);
            var (k2, second) := ToSwerveModuleStates(k1, ChassisSpeeds(0.0, 0.0, 0.0), norm, atan2);
            && k2 == k1
            && forall i :: 0 <= i < |second| ==> second[i] == ModuleState(0.0, first[i].angle)
  {
  }

  /** Reset wheel angle: a zero command after resetHeadings reports the
      reset angles at speed 0. */
  lemma ZeroSpeedAfterReset(k: Kinematics, headings: seq<real>,
                            norm: (real, real) -> real, atan2: (real, real) -> real)
    requires |headings| == |k.modules|
    ensures var (_, states) := ToSwerveModuleStates(ResetHeadings(k, headings), ChassisSpeeds(0.0, 0.0, 0.0), norm, atan2);
            forall i :: 0 <= i < |states| ==> states[i] == ModuleState(0.0, Some(headings[i]))
  {
  }

  /** Straight line: chassis speed (5, 0, 0) gives every module the
      velocity (5, 0), so speed 5 at angle 0 for any square-root and atan2
      that agree on that vector. */
  lemma StraightLine(k: Kinematics, norm: (real, real) -> real, atan2: (real, real) -> real)
    requires Valid(k) && norm(5.0, 0.0) == 5.0 && atan2(0.0, 5.0) == 0.0
    ensures var (_, states) := ToSwerveModuleStates(k, ChassisSpeeds(5.0, 0.0, 0.0), norm, atan2);
            forall i :: 0 <= i < |states| ==> states[i] == ModuleState(5.0, Some(0.0))
  {
  }

  // ---------------------------------------------------------------- state from a velocity vector

  /** A module's state from its velocity vector (statesFromVector): a
      module whose speed is below the threshold has no angle. */
  function StateFromVelocity(v: Translation, threshold: real,
                             norm: (real, real) -> real, atan2: (real, real) -> real): (r: ModuleState)
    ensures r.angle.None? <==> norm(v.x, v.y) < threshold
    ensures r.angle.None? ==> r.speed == 0.0
    ensures r.angle.Some? ==> r.speed == norm(v.x, v.y) && r.angle.value == atan2(v.y, v.x)
  {
    if norm(v.x, v.y) < threshold then ModuleState(0.0, None)
    else ModuleState(norm(v.x, v.y), Some(atan2(v.y, v.x)))
  }

  /** statesFromVector over all modules. */
  function StatesFromVector(modules: seq<Translation>, speeds: ChassisSpeeds, threshold: real,
                            norm: (real, real) -> real, atan2: (real, real) -> real): (r: seq<ModuleState>)
    ensures |r| == |modules|
    ensures forall i :: 0 <= i < |r| ==> r[i] == StateFromVelocity(PointVelocity(speeds, modules[i]), threshold, norm, atan2)
  {
    var vs := ModuleVelocities(modules, speeds);
    seq(|modules|, i requires 0 <= i < |modules| => StateFromVelocity(vs[i], threshold, norm, atan2))
  }

  /** A second-order module state: speed and angle plus drive acceleration
      and steering rate. */
  datatype ModuleState2 = ModuleState2(speed: real, angle: Option<real>, accel: real, omega: real)

  /** accelerationFromVector: each module's velocity is read straight off
      the product of the inverse matrix with the chassis velocity column;
      below the threshold the module has no angle, no speed and no steering
      rate, otherwise its speed is the norm and its angle the atan2 of that
      velocity.  The acceleration terms of a moving module come from
      `rateOf`, which the tests do not pin. */
  function AccelerationFromVector(modules: seq<Translation>, speeds: ChassisSpeeds, threshold: real,
                                  norm: (real, real) -> real, atan2: (real, real) -> real,
                                  rateOf: (nat, ModuleState) -> (real, real), stillAccel: nat -> real)
    : (r: seq<ModuleState2>)
    ensures |r| == |modules|
    ensures forall i :: 0 <= i < |r| && r[i].angle.None? ==> r[i].omega == 0.0 && r[i].speed == 0.0
  {
    var column := MatVec(InverseMatrix(modules), SpeedsVector(speeds));
    seq(|modules|, i requires 0 <= i < |modules| =>
          var x := column[2 * i];
          var y := column[2 * i + 1];
          if norm(x, y) < threshold then ModuleState2(0.0, None, stillAccel(i), 0.0)
          else
            var state := ModuleState(norm(x, y), Some(atan2(y, x)));
            ModuleState2(state.speed, state.angle, rateOf(i, state).0, rateOf(i, state).1))
  }

  /** Second-order states agree with first-order states on speed and angle:
      reading the product column gives the same velocity as the rigid-body
      formula statesFromVector uses. */
  lemma SecondOrderAgreesWithFirstOrder(modules: seq<Translation>, speeds: ChassisSpeeds, threshold: real,
                                        norm: (real, real) -> real, atan2: (real, real) -> real,
                                        rateOf: (nat, ModuleState) -> (real, real), stillAccel: nat -> real)
    ensures var first := StatesFromVector(modules, speeds, threshold, norm, atan2);
            var second := AccelerationFromVector(modules, speeds, threshold, norm, atan2, rateOf, stillAccel);
            forall i :: 0 <= i < |modules| ==> second[i].speed == first[i].speed && second[i].angle == first[i].angle
  {
    var first := StatesFromVector(modules, speeds, threshold, norm, atan2);
    var second := AccelerationFromVector(modules, speeds, threshold, norm, atan2, rateOf, stillAccel);
    forall i | 0 <= i < |modules|
      ensures second[i].speed == first[i].speed && second[i].angle == first[i].angle
    {
      InverseGivesPointVelocity(modules, speeds, i);
    }
  }

  /** A motionless body: every module has an empty angle, speed 0 and
      steering rate 0, whatever the acceleration, given a positive
      threshold and a norm that is 0 at the origin. */
  lemma MotionlessHasEmptyAngles(modules: seq<Translation>, threshold: real,
                                 norm: (real, real) -> real, atan2: (real, real) -> real,
                                 rateOf: (nat, ModuleState) -> (real, real), stillAccel: nat -> real)
    requires threshold > 0.0 && norm(0.0, 0.0) == 0.0
    ensures var second := AccelerationFromVector(modules, ChassisSpeeds(0.0, 0.0, 0.0), threshold, norm, atan2, rateOf, stillAccel);
            forall i :: 0 <= i < |second| ==> second[i].angle.None? && second[i].speed == 0.0 && second[i].omega == 0.0
  {
    var still := ChassisSpeeds(0.0, 0.0, 0.0);
    var second := AccelerationFromVector(modules, still, threshold, norm, atan2, rateOf, stillAccel);
    forall i | 0 <= i < |second|
      ensures second[i].angle.None? && second[i].speed == 0.0 && second[i].omega == 0.0
    {
      InverseGivesPointVelocity(modules, still, i);
      assert PointVelocity(still, modules[i]) == Translation(0.0, 0.0);
    }
  }
}
