/** Second-order swerve kinematics: chassis accelerations to per-module
    drive acceleration and steering rate, and back.  The pseudo-inverse
    that gives the forward matrix is supplied by the caller. */
module SecondOrderKinematics {
  import opened Wrappers
  import opened Geometry
  import opened Matrix
  import opened ChassisAccelerations
  import opened SwerveModuleRate

  datatype KinematicsError = IllegalArgument

  /** A module's WPILib state: speed and a steering rotation carrying its cosine and sine. */
  datatype WheelState = WheelState(speed: real, angle: Rotation)

  /** modules: the wheel offsets; inverse: the 2n x 4 matrix; forward: its pseudo-inverse. */
  datatype Kinematics = Kinematics(modules: seq<Translation>, inverse: Mat, forward: Mat)

  /** Rows 2i and 2i+1 of the inverse matrix for a module at (x, y). */
  predicate InverseLayout(m: Mat, modules: seq<Translation>) {
    && Shape(m, 2 * |modules|, 4)
    && forall i :: 0 <= i < |modules| ==>
         && m[2 * i] == [1.0, 0.0, -modules[i].x, -modules[i].y]
         && m[2 * i + 1] == [0.0, 1.0, -modules[i].y, modules[i].x]
  }

  /** What the constructor establishes. */
  predicate Constructed(k: Kinematics) {
    |k.modules| >= 2 && InverseLayout(k.inverse, k.modules)
  }

  /** The constructor: at least two modules, else IllegalArgumentException. */
  method New(wheels: seq<Translation>, pseudoInverse: Mat -> Mat)
    returns (r: Result<Kinematics, KinematicsError>)
    ensures r.Failure? <==> |wheels| < 2
    ensures r.Success? ==>
              && Constructed(r.value)
              && r.value.modules == wheels
              && r.value.forward == pseudoInverse(r.value.inverse)
  {
    if |wheels| < 2 {
      return Failure(IllegalArgument);
    }
    var m: Mat := [];
    var i := 0;
    while i < |wheels|
      invariant 0 <= i <= |wheels|
      invariant Shape(m, 2 * i, 4)
      invariant forall j :: 0 <= j < i ==>
                  && m[2 * j] == [1.0, 0.0, -wheels[j].x, -wheels[j].y]
                  && m[2 * j + 1] == [0.0, 1.0, -wheels[j].y, wheels[j].x]
    {
      m := m + [[1.0, 0.0, -wheels[i].x, -wheels[i].y], [0.0, 1.0, -wheels[i].y, wheels[i].x]];
      i := i + 1;
    }
    r := Success(Kinematics(wheels, m, pseudoInverse(m)));
  }

  /** The chassis acceleration as the column [ax, ay, centripetal, alpha]. */
  function AccelVector(a: ChassisAccel): (v: Vector)
    ensures |v| == 4
  {
    [a.ax, a.ay, a.centripetal, a.alpha]
  }

  predicate IsZero(a: ChassisAccel) {
    a.ax == 0.0 && a.ay == 0.0 && a.centripetal == 0.0 && a.alpha == 0.0
  }

  /** The acceleration of a point rigidly attached at offset r, for a body
      accelerating at (ax, ay) and turning with centripetal term c = omega^2
      and angular acceleration alpha: a - c r + alpha (perpendicular of r). */
  function PointAcceleration(a: ChassisAccel, r: Translation): Translation {
    Translation(a.ax - a.centripetal * r.x - a.alpha * r.y,
                a.ay - a.centripetal * r.y + a.alpha * r.x)
  }

  /** The inverse matrix maps a chassis acceleration to each module's
      rigid-body acceleration: rows 2i and 2i+1 give its x and y. */
  lemma InverseGivesPointAcceleration(k: Kinematics, a: ChassisAccel)
    requires Constructed(k)
    ensures forall i :: 0 <= i < |k.modules| ==>
              && MatVec(k.inverse, AccelVector(a))[2 * i] == PointAcceleration(a, k.modules[i]).x
              && MatVec(k.inverse, AccelVector(a))[2 * i + 1] == PointAcceleration(a, k.modules[i]).y
  {
    var v := AccelVector(a);
    forall i | 0 <= i < |k.modules|
      ensures && MatVec(k.inverse, v)[2 * i] == PointAcceleration(a, k.modules[i]).x
              && MatVec(k.inverse, v)[2 * i + 1] == PointAcceleration(a, k.modules[i]).y
    {
      Dot4(k.inverse[2 * i], v);
      Dot4(k.inverse[2 * i + 1], v);
    }
  }

  /** Module i's rate from its acceleration vector p: the component along
      the wheel heading is the drive acceleration; the component across it,
      divided by the speed, is the steering rate. */
  function ProjectRate(p: Translation, state: WheelState): ModuleRate
    requires state.speed != 0.0
  {
    var c := state.angle.cos;
    var s := state.angle.sin;
    ModuleRate(p.x * c + p.y * s, (-p.x * s / state.speed) + (p.y * c / state.speed))
  }

  /** The steering rate times the speed is the across-heading component. */
  lemma ProjectRateMeaning(p: Translation, state: WheelState)
    requires state.speed != 0.0
    ensures ProjectRate(p, state).acceleration == p.x * state.angle.cos + p.y * state.angle.sin
    ensures ProjectRate(p, state).angularVelocity * state.speed
            == -p.x * state.angle.sin + p.y * state.angle.cos
  {
    var d := state.speed;
    var u := -p.x * state.angle.sin;
    var w := p.y * state.angle.cos;
    assert (u / d + w / d) * d == (u / d) * d + (w / d) * d;
  }

  /** The pairs of a 2n-vector, read as (x, y) translations. */
  function Pairs(v: Vector, n: nat): (ps: seq<Translation>)
    requires |v| == 2 * n
    ensures |ps| == n
  {
    seq(n, i requires 0 <= i < n => Translation(v[2 * i], v[2 * i + 1]))
  }

  /** toSwerveModuleRates.  All-zero accelerations short-circuit to zero
      rates without reading the module states; otherwise each module's
      rate is its rigid-body acceleration split along and across its
      heading. */
  function ToSwerveModuleRates(k: Kinematics, a: ChassisAccel, states: seq<WheelState>): (r: seq<ModuleRate>)
    requires Constructed(k)
    requires !IsZero(a) ==> |states| >= |k.modules|
    requires !IsZero(a) ==> forall i :: 0 <= i < |k.modules| ==> states[i].speed != 0.0
    ensures |r| == |k.modules|
    ensures IsZero(a) ==> forall i :: 0 <= i < |r| ==> r[i] == ModuleRate(0.0, 0.0)
    ensures !IsZero(a) ==>
              forall i :: 0 <= i < |r| ==> r[i] == ProjectRate(PointAcceleration(a, k.modules[i]), states[i])
  {
    if IsZero(a) then
      seq(|k.modules|, i => ModuleRate(0.0, 0.0))
    else
      var ps := Pairs(MatVec(k.inverse, AccelVector(a)), |k.modules|);
      InverseGivesPointAcceleration(k, a);
      seq(|k.modules|, i requires 0 <= i < |k.modules| => ProjectRate(ps[i], states[i]))
  }

  /** The short-circuit agrees with the general formula: a body with no
      acceleration gives every module zero drive acceleration and, at any
      nonzero speed, zero steering rate. */
  lemma ZeroShortCircuitConsistent(k: Kinematics, a: ChassisAccel, state: WheelState, i: nat)
    requires Constructed(k) && IsZero(a) && i < |k.modules| && state.speed != 0.0
    ensures PointAcceleration(a, k.modules[i]) == Translation(0.0, 0.0)
    ensures ProjectRate(PointAcceleration(a, k.modules[i]), state) == ModuleRate(0.0, 0.0)
  {
  }

  /** Splitting along and across a heading on the unit circle is a rotation:
      it keeps the magnitude and can be undone. */
  lemma ProjectionIsRotation(x: real, y: real, c: real, s: real)
    requires c * c + s * s == 1.0
    ensures var along := x * c + y * s;
            var across := -x * s + y * c;
            && along * along + across * across == x * x + y * y
            && along * c == x + across * s
            && along * s == y - across * c
  {
    NormPreserved(x, y, c, s);
    InverseRotation(x, y, c, s);
  }

  /** A 2n-vector from n pairs, x before y. */
  function Flatten(ps: seq<Translation>): (v: Vector)
    ensures |v| == 2 * |ps|
  {
    if |ps| == 0 then [] else [ps[0].x, ps[0].y] + Flatten(ps[1..])
  }

  lemma {:induction false} FlattenIndex(ps: seq<Translation>, i: nat)
    requires i < |ps|
    ensures Flatten(ps)[2 * i] == ps[i].x && Flatten(ps)[2 * i + 1] == ps[i].y
    decreases i
  {
    if i > 0 {
      FlattenIndex(ps[1..], i - 1);
      assert Flatten(ps) == [ps[0].x, ps[0].y] + Flatten(ps[1..]);
    }
  }

  /** Flattening the pairs of a vector gives the vector back. */
  lemma FlattenPairs(v: Vector, n: nat)
    requires |v| == 2 * n
    ensures Flatten(Pairs(v, n)) == v
  {
    var f := Flatten(Pairs(v, n));
    forall j | 0 <= j < |v|
      ensures f[j] == v[j]
    {
      var i := j / 2;
      FlattenIndex(Pairs(v, n), i);
      if j % 2 == 0 {
        assert j == 2 * i;
      } else {
        assert j == 2 * i + 1;
      }
    }
  }

  /** Module i's drive acceleration resolved along its heading. */
  function AlongHeading(state: WheelState, rate: ModuleRate): Translation {
    Translation(rate.acceleration * state.angle.cos, rate.acceleration * state.angle.sin)
  }

  /** toChassisAccelerations: the rate array must have one entry per
      module; the packed column multiplies the forward matrix. */
  function ToChassisAccelerations(k: Kinematics, states: seq<WheelState>, rates: seq<ModuleRate>)
    : (r: Result<ChassisAccel, KinematicsError>)
    requires Shape(k.forward, 4, 2 * |k.modules|)
    requires |rates| == |k.modules| ==> |states| >= |k.modules|
    ensures r.Failure? <==> |rates| != |k.modules|
    ensures r.Success? ==>
              var packed := Flatten(seq(|rates|, i requires 0 <= i < |rates| => AlongHeading(states[i], rates[i])));
              var m := MatVec(k.forward, packed);
              r.value == ChassisAccel(m[0], m[1], m[2], m[3])
  {
    if |rates| != |k.modules| then Failure(IllegalArgument)
    else
      var packed := Flatten(seq(|rates|, i requires 0 <= i < |rates| => AlongHeading(states[i], rates[i])));
      var m := MatVec(k.forward, packed);
      Success(ChassisAccel(m[0], m[1], m[2], m[3]))
  }

  /** What the forward path sees of a module whose rate came from
      toSwerveModuleRates: on the unit circle, the rigid-body acceleration
      with its across-heading part removed, of the drive acceleration's
      magnitude. */
  lemma AlongHeadingOfProjection(p: Translation, state: WheelState)
    requires state.speed != 0.0 && OnUnitCircle(state.angle)
    ensures var q := AlongHeading(state, ProjectRate(p, state));
            var across := -p.x * state.angle.sin + p.y * state.angle.cos;
            && q == Translation(p.x + across * state.angle.sin, p.y - across * state.angle.cos)
            && q.x * q.x + q.y * q.y == ProjectRate(p, state).acceleration * ProjectRate(p, state).acceleration
  {
    var c, s := state.angle.cos, state.angle.sin;
    var along := p.x * c + p.y * s;
    ProjectionIsRotation(p.x, p.y, c, s);
    assert (along * c) * (along * c) + (along * s) * (along * s) == along * along * (c * c + s * s);
  }

  /** One module of the round trip: with no across-heading component, the
      packed pair is exactly the module's rigid-body acceleration. */
  lemma AlongHeadingWhenNoSideways(p: Translation, state: WheelState)
    requires state.speed != 0.0 && OnUnitCircle(state.angle)
    requires -p.x * state.angle.sin + p.y * state.angle.cos == 0.0
    ensures AlongHeading(state, ProjectRate(p, state)) == p
  {
    AlongHeadingOfProjection(p, state);
  }

  /** Round trip: when the forward matrix is a left inverse of the inverse
      matrix and every module's rigid-body acceleration lies along its
      heading, the forward path recovers the chassis acceleration. */
  lemma RoundTrip(k: Kinematics, a: ChassisAccel, states: seq<WheelState>)
    requires Constructed(k) && Shape(k.forward, 4, 2 * |k.modules|) && !IsZero(a)
    requires MatVec(k.forward, MatVec(k.inverse, AccelVector(a))) == AccelVector(a)
    requires |states| >= |k.modules|
    requires forall j :: 0 <= j < |k.modules| ==> states[j].speed != 0.0 && OnUnitCircle(states[j].angle)
    requires forall j :: 0 <= j < |k.modules| ==>
               -PointAcceleration(a, k.modules[j]).x * states[j].angle.sin
               + PointAcceleration(a, k.modules[j]).y * states[j].angle.cos == 0.0
    ensures ToChassisAccelerations(k, states, ToSwerveModuleRates(k, a, states)) == Success(a)
  {
    var n := |k.modules|;
    var rates := ToSwerveModuleRates(k, a, states);
    var pairs := seq(n, i requires 0 <= i < n => AlongHeading(states[i], rates[i]));
    var column := MatVec(k.inverse, AccelVector(a));
    InverseGivesPointAcceleration(k, a);
    forall j | 0 <= j < n
      ensures pairs[j] == Pairs(column, n)[j]
    {
      var p := PointAcceleration(a, k.modules[j]);
      AlongHeadingWhenNoSideways(p, states[j]);
      assert rates[j] == ProjectRate(p, states[j]);
      assert Pairs(column, n)[j] == Translation(column[2 * j], column[2 * j + 1]);
    }
    assert pairs == Pairs(column, n);
    FlattenPairs(column, n);
    assert Flatten(pairs) == column;
  }
}
