/** A simulated alliance robot that shuttles between the source, where it
    picks game pieces, and the amp corner, where it scores them. */
module Friend {
  import opened Wrappers
  import opened Geometry

  const ForceN: real := 200.0
  const ToleranceM: real := 2.0
  const Source: Translation := Translation(16.0, 0.0)
  const AmpCorner: Translation := Translation(0.0, 8.0)

  datatype Goal = Pick | Score

  /** A push of the given magnitude along `direction`. */
  datatype Push = Push(direction: Translation, magnitude: real)

  /** Every friend starts out going to pick. */
  const InitialGoal: Goal := Pick

  function Target(goal: Goal): Translation {
    match goal
    case Pick => Source
    case Score => AmpCorner
  }

  /** Within the tolerance of `target`; the distance is compared through its
      square, which is equivalent for non-negative quantities. */
  predicate Arrived(position: Translation, target: Translation) {
    target.Minus(position).NormSquared() < ToleranceM * ToleranceM
  }

  /** act, goal logic only: on arrival the goal flips and no force is
      applied; otherwise the robot is pushed toward its target with the
      fixed force. */
  function Act(goal: Goal, position: Translation): (r: (Goal, Option<Push>))
    ensures goal == Pick && Arrived(position, Source) ==> r == (Score, None)
    ensures goal == Pick && !Arrived(position, Source) ==>
              r == (Pick, Some(Push(Source.Minus(position), ForceN)))
    ensures goal == Score && Arrived(position, AmpCorner) ==> r == (Pick, None)
    ensures goal == Score && !Arrived(position, AmpCorner) ==>
              r == (Score, Some(Push(AmpCorner.Minus(position), ForceN)))
  {
    var toTarget := Target(goal).Minus(position);
    if Arrived(position, Target(goal)) then
      (if goal == Pick then Score else Pick, None)
    else
      (goal, Some(Push(toTarget, ForceN)))
  }

  /** The goal changes exactly when no force is applied, and then it is
      the other goal. */
  lemma GoalChangesIffNoPush(goal: Goal, position: Translation)
    ensures Act(goal, position).0 != goal <==> Act(goal, position).1.None?
    ensures Act(goal, position).1.Some? ==> Act(goal, position).1.value.magnitude == ForceN
  {
  }

  /** The goal after acting at each position in turn. */
  function Run(goal: Goal, positions: seq<Translation>): Goal
    decreases |positions|
  {
    if |positions| == 0 then goal
    else Run(Act(goal, positions[0]).0, positions[1..])
  }

  /** A friend that starts out picking is only ever scoring after it has
      been near the source at some step. */
  lemma {:induction false} ScoringNeedsAVisitToTheSource(positions: seq<Translation>)
    ensures Run(Pick, positions) == Score ==>
              exists i :: 0 <= i < |positions| && Arrived(positions[i], Source)
    decreases |positions|
  {
    if |positions| > 0 && Run(Pick, positions) == Score {
      var next := Act(Pick, positions[0]).0;
      if next == Pick {
        ScoringNeedsAVisitToTheSource(positions[1..]);
        var i :| 0 <= i < |positions[1..]| && Arrived(positions[1..][i], Source);
        assert Arrived(positions[i + 1], Source);
      } else {
        assert Arrived(positions[0], Source);
      }
    }
  }
}
