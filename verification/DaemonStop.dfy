/**
 * Stopping the Go daemon, in every interleaving of its supervisor goroutine with
 * any number of Start and Stop calls and a cancellation of the start context.
 * A step is what one goroutine does between two accesses to shared state.
 */
module DaemonStop {

  datatype Supervisor = NotStarted | AtTop | AboutToBuild | Building | Running | Classifying | BackingOff | Ended

  /** One Stop call; `hadCancel` is whether its snapshot found a cancel function, that is, came after Start. */
  datatype StopCall = Snapshotted(hadCancel: bool) | Waiting(hadCancel: bool) | Returned(hadCancel: bool)

  datatype State = State(started: bool, cancelled: bool, supervisor: Supervisor, builds: nat, stops: map<nat, StopCall>)

  const CREATED := State(false, false, NotStarted, 0, map[])

  datatype Step =
    | Start
    | CancelParent
    | SnapshotForStop(id: nat)
    | CancelForStop(id: nat)
    | ReturnFromStop(id: nat)
    | CheckContext
    | Build
    | BuildEnds(ok: bool)
    | WorkerEnds
    | Decide(restart: bool)
    | BackoffEnds(elapsed: bool)

  /** The wait group's counter: the supervisor goroutine is the only one it counts. */
  predicate GoroutineLive(s: State) {
    !s.supervisor.NotStarted? && !s.supervisor.Ended?
  }

  predicate Enabled(s: State, step: Step) {
    match step
    case Start => true
    case CancelParent => s.started
    case SnapshotForStop(id) => id !in s.stops
    case CancelForStop(id) => id in s.stops && s.stops[id].Snapshotted?
    case ReturnFromStop(id) => id in s.stops && s.stops[id].Waiting? && !GoroutineLive(s)
    case CheckContext => s.supervisor.AtTop?
    case Build => s.supervisor.AboutToBuild?
    case BuildEnds(_) => s.supervisor.Building?
    case WorkerEnds => s.supervisor.Running?
    case Decide(_) => s.supervisor.Classifying?
    case BackoffEnds(elapsed) => s.supervisor.BackingOff? && (elapsed || s.cancelled)
  }

  function Next(s: State, step: Step): State
    requires Enabled(s, step)
  {
    match step
    case Start => if s.started then s else s.(started := true, supervisor := AtTop)
    case CancelParent => s.(cancelled := true)
    case SnapshotForStop(id) => s.(stops := s.stops[id := Snapshotted(s.started)])
    case CancelForStop(id) =>
      s.(cancelled := s.cancelled || s.stops[id].hadCancel, stops := s.stops[id := Waiting(s.stops[id].hadCancel)])
    case ReturnFromStop(id) => s.(stops := s.stops[id := Returned(s.stops[id].hadCancel)])
    case CheckContext => s.(supervisor := if s.cancelled then Ended else AboutToBuild)
    case Build => s.(supervisor := Building, builds := s.builds + 1)
    case BuildEnds(ok) => s.(supervisor := if ok then Running else Classifying)
    case WorkerEnds => s.(supervisor := if s.cancelled then Ended else Classifying)
    case Decide(restart) => s.(supervisor := if restart then BackingOff else Ended)
    case BackoffEnds(elapsed) => s.(supervisor := if elapsed then AtTop else Ended)
  }

  predicate MayRun(s: State, steps: seq<Step>)
    decreases |steps|
  {
    steps == [] || (Enabled(s, steps[0]) && MayRun(Next(s, steps[0]), steps[1..]))
  }

  function Run(s: State, steps: seq<Step>): State
    requires MayRun(s, steps)
    decreases |steps|
  {
    if steps == [] then s else Run(Next(s, steps[0]), steps[1..])
  }

  /** Some Stop call that came after Start has returned. */
  predicate StoppedAfterStart(s: State) {
    exists id :: id in s.stops && s.stops[id] == Returned(true)
  }

  ghost predicate Consistent(s: State) {
    && (s.supervisor.NotStarted? <==> !s.started)
    && (forall id :: id in s.stops && s.stops[id].hadCancel ==> s.started)
    && (forall id :: id in s.stops && s.stops[id].Waiting? && s.stops[id].hadCancel ==> s.cancelled)
    && (forall id :: id in s.stops && s.stops[id] == Returned(true) ==> s.supervisor.Ended? && s.cancelled)
  }

  lemma ConsistentStep(s: State, step: Step)
    requires Consistent(s) && Enabled(s, step)
    ensures Consistent(Next(s, step))
    ensures s.supervisor.Ended? ==> Next(s, step).supervisor.Ended? && Next(s, step).builds == s.builds
    ensures StoppedAfterStart(s) ==> StoppedAfterStart(Next(s, step))
  {
    if StoppedAfterStart(s) {
      var id :| id in s.stops && s.stops[id] == Returned(true);
      assert Next(s, step).stops[id] == Returned(true);
    }
  }

  lemma {:induction false} ConsistentRun(s: State, steps: seq<Step>)
    requires Consistent(s) && MayRun(s, steps)
    ensures Consistent(Run(s, steps))
    ensures s.supervisor.Ended? ==> Run(s, steps).builds == s.builds
    ensures StoppedAfterStart(s) ==> StoppedAfterStart(Run(s, steps))
    decreases |steps|
  {
    if steps != [] {
      ConsistentStep(s, steps[0]);
      ConsistentRun(Next(s, steps[0]), steps[1..]);
    }
  }

  /** Once a Stop of a started daemon has returned, no interleaving builds another worker. */
  lemma NoBuildAfterStop(before: seq<Step>, after: seq<Step>)
    requires MayRun(CREATED, before) && MayRun(Run(CREATED, before), after)
    requires StoppedAfterStart(Run(CREATED, before))
    ensures Run(Run(CREATED, before), after).builds == Run(CREATED, before).builds
    ensures !GoroutineLive(Run(Run(CREATED, before), after))
  {
    ConsistentRun(CREATED, before);
    ConsistentRun(Run(CREATED, before), after);
  }

  /** A Stop that comes before Start returns at once and does not keep a later Start from building. */
  lemma StopBeforeStartDoesNotStop()
    ensures var before := [SnapshotForStop(0), CancelForStop(0), ReturnFromStop(0)];
            var after := [Start, CheckContext, Build];
            && MayRun(CREATED, before) && Run(CREATED, before).stops == map[0 := Returned(false)]
            && MayRun(Run(CREATED, before), after)
            && Run(Run(CREATED, before), after).builds == Run(CREATED, before).builds + 1
  {
    var a := Next(CREATED, SnapshotForStop(0));
    var b := Next(a, CancelForStop(0));
    var c := Next(b, ReturnFromStop(0));
    RunThree(CREATED, SnapshotForStop(0), CancelForStop(0), ReturnFromStop(0));
    RunThree(c, Start, CheckContext, Build);
  }

  lemma RunThree(s: State, x: Step, y: Step, z: Step)
    requires Enabled(s, x) && Enabled(Next(s, x), y) && Enabled(Next(Next(s, x), y), z)
    ensures MayRun(s, [x, y, z]) && Run(s, [x, y, z]) == Next(Next(Next(s, x), y), z)
  {
    var t, u := Next(s, x), Next(Next(s, x), y);
    assert [x, y, z][1..] == [y, z] && [y, z][1..] == [z] && [z][1..] == [];
    assert MayRun(Next(u, z), []) && Run(Next(u, z), []) == Next(u, z);
    assert MayRun(u, [z]) && Run(u, [z]) == Next(u, z);
    assert MayRun(t, [y, z]) && Run(t, [y, z]) == Next(u, z);
  }

  /** The supervisor has checked its context and not yet called the builder. */
  predicate OneBuildLeft(s: State) {
    s.supervisor.AboutToBuild?
  }

  /** Once cancelled, at most the build already decided on still happens. */
  lemma {:induction false} CancelledBuildsAtMostOnce(s: State, steps: seq<Step>)
    requires Consistent(s) && s.cancelled && s.started && MayRun(s, steps)
    ensures Run(s, steps).builds <= s.builds + if OneBuildLeft(s) then 1 else 0
    decreases |steps|
  {
    if steps != [] {
      ConsistentStep(s, steps[0]);
      CancelledBuildsAtMostOnce(Next(s, steps[0]), steps[1..]);
    }
  }
}
