/** Following a list of trajectories one after another.  Each trajectory
    starts with a steering phase (preview the first sample, steer at rest
    until aligned) and then advances through its samples.  The trajectory
    type T, the time iterator It and the sample type S are left abstract,
    as are the controller and the drive. */
module TrajectoryListCommand {
  import opened Wrappers
  import opened Geometry

  /** The command's fields; `remaining` is what the list iterator has not
      yet handed out. */
  datatype Command<T, It> = Command(remaining: seq<T>, iter: Option<It>, done: bool, aligned: bool)

  /** The time iterator's operations. */
  datatype Iteration<!T, !It, S> = Iteration(
    start: T -> It,
    isDone: It -> bool,
    advance: (It, real) -> (It, Option<S>),
    preview: (It, real) -> Option<S>)

  datatype Action<T> =
    | SetViz(trajectory: T)
    | DriveInFieldCoords(target: ChassisSpeeds)
    | SteerAtRest(target: ChassisSpeeds)
    | Cancel
    | StopDrive
    | ClearViz

  datatype Tick<T, It> = Tick(next: Command<T, It>, actions: seq<Action<T>>)

  /** initialize100: fetch the list for the current pose; no iterator, not
      aligned, not done. */
  function Initialize<T, It>(trajectories: seq<T>): (c: Command<T, It>)
    ensures c.remaining == trajectories && c.iter.None? && !c.aligned && !c.done
  {
    Command(trajectories, None, false, false)
  }

  /** Does this tick need the next trajectory? */
  predicate NeedsNext<T, It, S>(c: Command<T, It>, it: Iteration<T, It, S>) {
    c.iter.None? || it.isDone(c.iter.value)
  }

  /** The part of execute100 after a current trajectory exists. */
  function Follow<T, It, S>(c: Command<T, It>, it: Iteration<T, It, S>, dt: real,
                            control: S -> ChassisSpeeds, steerAnswer: bool): (t: Tick<T, It>)
    requires c.iter.Some?
    ensures t.next.remaining == c.remaining && t.next.done == c.done
    ensures c.aligned ==>
              var (after, sample) := it.advance(c.iter.value, dt);
              && t.next.iter == Some(after) && t.next.aligned
              && t.actions == (if sample.None? then [Cancel] else [DriveInFieldCoords(control(sample.value))])
    ensures !c.aligned ==>
              var sample := it.preview(c.iter.value, dt);
              && t.next.iter == c.iter
              && (sample.None? ==> t.actions == [Cancel] && !t.next.aligned)
              && (sample.Some? ==> t.actions == [SteerAtRest(control(sample.value))] && t.next.aligned == steerAnswer)
  {
    if c.aligned then
      var (after, sample) := it.advance(c.iter.value, dt);
      var c1 := c.(iter := Some(after));
      if sample.None? then Tick(c1, [Cancel])
      else Tick(c1, [DriveInFieldCoords(control(sample.value))])
    else
      var sample := it.preview(c.iter.value, dt);
      if sample.None? then Tick(c, [Cancel])
      else Tick(c.(aligned := steerAnswer), [SteerAtRest(control(sample.value))])
  }

  /** execute100.  `control` turns a sample into a field-relative target
      (the controller reading the measured state); `steerAnswer` is what
      steerAtRest would return this tick. */
  function Execute<T, It, S>(c: Command<T, It>, it: Iteration<T, It, S>, dt: real,
                             control: S -> ChassisSpeeds, steerAnswer: bool): (t: Tick<T, It>)
    // the list is used up: done, and nothing is driven
    ensures NeedsNext(c, it) && |c.remaining| == 0 ==>
              t.next == c.(done := true) && t.actions == []
    // the next trajectory becomes current and alignment starts over
    ensures NeedsNext(c, it) && |c.remaining| > 0 ==>
              var c1 := c.(remaining := c.remaining[1..], iter := Some(it.start(c.remaining[0])), aligned := false);
              t == Tick(Follow(c1, it, dt, control, steerAnswer).next,
                        [SetViz(c.remaining[0])] + Follow(c1, it, dt, control, steerAnswer).actions)
    ensures !NeedsNext(c, it) ==> t == Follow(c, it, dt, control, steerAnswer)
    // done is sticky and the list only shrinks, by at most one
    ensures c.done ==> t.next.done
    ensures t.next.remaining == c.remaining || (|c.remaining| > 0 && t.next.remaining == c.remaining[1..])
  {
    if NeedsNext(c, it) then
      if |c.remaining| > 0 then
        var c1 := c.(remaining := c.remaining[1..], iter := Some(it.start(c.remaining[0])), aligned := false);
        var f := Follow(c1, it, dt, control, steerAnswer);
        Tick(f.next, [SetViz(c.remaining[0])] + f.actions)
      else
        Tick(c.(done := true), [])
    else
      Follow(c, it, dt, control, steerAnswer)
  }

  /** isFinished is exactly done. */
  predicate IsFinished<T, It>(c: Command<T, It>) {
    c.done
  }

  /** end100: stop the drive and clear the visualisation. */
  function End<T>(interrupted: bool): (actions: seq<Action<T>>)
    ensures actions == [StopDrive, ClearViz]
  {
    [StopDrive, ClearViz]
  }

  /** A fresh trajectory is always steered before it is driven: the first
      tick on it previews and never advances. */
  lemma NewTrajectoryStartsBySteering<T, It, S>(c: Command<T, It>, it: Iteration<T, It, S>, dt: real,
                                                control: S -> ChassisSpeeds, steerAnswer: bool)
    requires NeedsNext(c, it) && |c.remaining| > 0
    ensures var t := Execute(c, it, dt, control, steerAnswer);
            && t.next.iter == Some(it.start(c.remaining[0]))
            && forall k :: 0 <= k < |t.actions| ==> !t.actions[k].DriveInFieldCoords?
  {
  }

  /** The observations of one tick. */
  datatype Observation = Observation(dt: real, steerAnswer: bool)

  /** The tick asked the scheduler to cancel the command. */
  predicate Cancelled<T>(actions: seq<Action<T>>) {
    exists k :: 0 <= k < |actions| && actions[k].Cancel?
  }

  /** Run execute100 over a sequence of ticks, stopping at a cancel. */
  function Run<T, It, S>(c: Command<T, It>, it: Iteration<T, It, S>, control: S -> ChassisSpeeds,
                         ticks: seq<Observation>): Command<T, It>
    decreases |ticks|
  {
    if |ticks| == 0 then c
    else
      var t := Execute(c, it, ticks[0].dt, control, ticks[0].steerAnswer);
      if Cancelled(t.actions) then t.next else Run(t.next, it, control, ticks[1..])
  }

  /** Over any run, the trajectories left are a suffix of those at the
      start, at least one is still there per tick not taken, and done stays
      set once set. */
  lemma {:induction false} RunOnlyConsumes<T, It, S>(c: Command<T, It>, it: Iteration<T, It, S>,
                                                     control: S -> ChassisSpeeds, ticks: seq<Observation>)
    ensures var r := Run(c, it, control, ticks);
            && |r.remaining| <= |c.remaining|
            && r.remaining == c.remaining[|c.remaining| - |r.remaining|..]
            && |c.remaining| - |r.remaining| <= |ticks|
            && (c.done ==> r.done)
    decreases |ticks|
  {
    if |ticks| > 0 {
      var t := Execute(c, it, ticks[0].dt, control, ticks[0].steerAnswer);
      if !Cancelled(t.actions) {
        RunOnlyConsumes(t.next, it, control, ticks[1..]);
        var r := Run(t.next, it, control, ticks[1..]);
        if t.next.remaining != c.remaining {
          assert t.next.remaining == c.remaining[1..];
          assert c.remaining[1..][|c.remaining[1..]| - |r.remaining|..] == c.remaining[|c.remaining| - |r.remaining|..];
        }
      } else {
        if t.next.remaining != c.remaining {
          assert t.next.remaining == c.remaining[1..];
        }
      }
    }
  }

  /** isFinished after any run: a command that was not already done
      finishes only by using up its whole list of trajectories. */
  lemma {:induction false} FinishesOnlyWhenListIsUsedUp<T, It, S>(c: Command<T, It>, it: Iteration<T, It, S>,
                                                                  control: S -> ChassisSpeeds, ticks: seq<Observation>)
    ensures IsFinished(Run(c, it, control, ticks)) ==> c.done || |Run(c, it, control, ticks).remaining| == 0
    decreases |ticks|
  {
    if |ticks| > 0 {
      var t := Execute(c, it, ticks[0].dt, control, ticks[0].steerAnswer);
      if !Cancelled(t.actions) {
        FinishesOnlyWhenListIsUsedUp(t.next, it, control, ticks[1..]);
        if t.next.done && !c.done {
          RunOnlyConsumes(t.next, it, control, ticks[1..]);
        }
      }
    }
  }
}
