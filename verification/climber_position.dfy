/** The climber-position command: drive both climber servos to one goal
    and finish when both measured positions are close to it. */
module ClimberPosition {
  import opened Wrappers
  import opened Geometry

  const ToleranceM: real := 0.01

  datatype Side = Left | Right

  datatype Action =
    | ResetServo(side: Side)
    | SetServoPosition(side: Side, goal: real)
    | StopServo(side: Side)
    | SetClimbingForce

  /** initialize: reset both servos, then set the climbing force. */
  function Initialize(): (actions: seq<Action>)
    ensures actions == [ResetServo(Left), ResetServo(Right), SetClimbingForce]
  {
    [ResetServo(Left), ResetServo(Right), SetClimbingForce]
  }

  /** execute: both servos toward the same goal. */
  function Execute(goal: real): (actions: seq<Action>)
    ensures |actions| == 2
    ensures forall k :: 0 <= k < 2 ==> actions[k].SetServoPosition? && actions[k].goal == goal
    ensures actions[0].side == Left && actions[1].side == Right
  {
    [SetServoPosition(Left, goal), SetServoPosition(Right, goal)]
  }

  /** isFinished: both sides strictly within the tolerance of the goal; a
      side with no measurement counts as already there. */
  function IsFinished(goal: real, left: Option<real>, right: Option<real>): (r: bool)
    ensures r <==> (left.None? || goal - 0.01 < left.value < goal + 0.01)
                   && (right.None? || goal - 0.01 < right.value < goal + 0.01)
  {
    IsNear(goal, left.OrElse(goal), ToleranceM) && IsNear(goal, right.OrElse(goal), ToleranceM)
  }

  /** With no measurements at all the command finishes at once. */
  lemma NoMeasurementFinishes(goal: real)
    ensures IsFinished(goal, None, None)
  {
  }

  /** end: stop both servos. */
  function End(interrupted: bool): (actions: seq<Action>)
    ensures actions == [StopServo(Left), StopServo(Right)]
  {
    [StopServo(Left), StopServo(Right)]
  }

  /** The two sides are treated alike: each is reset once on initialize,
      driven to the one goal on execute and stopped once on end, and the
      climbing force is set only after both resets. */
  lemma BothSidesTreatedAlike(side: Side, goal: real, interrupted: bool)
    ensures multiset(Initialize())[ResetServo(side)] == 1
    ensures SetServoPosition(side, goal) in Execute(goal)
    ensures multiset(End(interrupted))[StopServo(side)] == 1
    ensures Initialize()[|Initialize()| - 1] == SetClimbingForce
  {
  }
}
