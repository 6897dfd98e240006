/**
 * Which request a session's team runs: the calls of a session are served in the
 * order they came, and a registered team is what the last build made of the
 * request it was started for.
 */
module TeamRequests {
  import opened Wrappers
  import opened TeamRegistry

  /** The requests passed to `materialize` for a session, in order. */
  function Called(steps: seq<Step>, session: string): seq<Request> {
    if steps == [] then []
    else
      var last := steps[|steps| - 1];
      Called(steps[..|steps| - 1], session) +
        (if last.Call? && last.session == session then [last.request] else [])
  }

  /** The requests a run took from the session's queue, in order. */
  ghost function Taken(steps: seq<Step>, session: string): seq<Request>
    requires IsRun(steps)
  {
    if steps == [] then []
    else
      var n := |steps| - 1;
      Taken(steps[..n], session) +
        (if steps[n] == Start(session) then [After(steps).running[session].request] else [])
  }

  /** The time passed. */
  function Ticks(steps: seq<Step>): nat {
    if steps == [] then 0 else Ticks(steps[..|steps| - 1]) + (if steps[|steps| - 1].Tick? then 1 else 0)
  }

  lemma {:induction false} ClockCountsTicks(steps: seq<Step>)
    requires IsRun(steps)
    ensures After(steps).clock == Ticks(steps)
  {
    if steps != [] {
      ClockCountsTicks(steps[..|steps| - 1]);
    }
  }

  /**
   * The calls of a session are started in the order they came, none is lost and
   * none is started twice: what was started and what still waits are all calls.
   */
  lemma {:induction false} CallsServedInOrder(steps: seq<Step>, session: string)
    requires IsRun(steps)
    ensures Taken(steps, session) + Queue(After(steps), session) == Called(steps, session)
    ensures Taken(steps, session) <= Called(steps, session)
  {
    if steps != [] {
      var init, last := steps[..|steps| - 1], steps[|steps| - 1];
      CallsServedInOrder(init, session);
      ServedStep(Taken(init, session), Called(init, session), After(init), last, session);
    }
  }

  lemma {:induction false} ServedStep(taken: seq<Request>, called: seq<Request>, s: State, step: Step, session: string)
    requires Enabled(s, step) && taken + Queue(s, session) == called
    ensures step == Start(session) ==> session in Next(s, step).running
    ensures taken + (if step == Start(session) then [Next(s, step).running[session].request] else [])
                  + Queue(Next(s, step), session)
         == called + (if step.Call? && step.session == session then [step.request] else [])
  {
    QueueStep(s, step, session);
  }

  lemma {:induction false} QueueStep(s: State, step: Step, session: string)
    requires Enabled(s, step)
    ensures var q, r := Queue(s, session), Queue(Next(s, step), session);
            if step.Call? && step.session == session then r == q + [step.request]
            else if step == Start(session) then
              q != [] && session in Next(s, step).running && q == [Next(s, step).running[session].request] + r
            else r == q
  {
  }

  // ------------------------------------------------------------- what is built

  /** The validation at `v` passed for the session, and no other of it started since. */
  ghost predicate LastPassed(steps: seq<Step>, v: nat, session: string) {
    && v < |steps| && steps[v] == ValidatePasses(session)
    && forall i :: v < i < |steps| ==> steps[i] != ValidatePasses(session)
  }

  /** The create time a session gets at a validation after `before`: its team's, if it has one, else the time of the moment. */
  ghost function DatedAfter(before: seq<Step>, session: string): nat
    requires IsRun(before)
  {
    var s := After(before);
    if session in s.teams && s.teams[session] in s.entries then s.entries[s.teams[session]].createTime
    else Ticks(before)
  }

  /** The session's job works on the request taken last, dated at its own validation. */
  ghost predicate JobIsOf(steps: seq<Step>, session: string)
    requires IsRun(steps)
  {
    var s, taken := After(steps), Taken(steps, session);
    session in s.running && !s.running[session].RollingBack? ==>
      && taken != [] && s.running[session].request == taken[|taken| - 1]
      && (!s.running[session].Validating? ==> JobIsDated(steps, session, s.running[session].createTime))
  }

  ghost predicate JobIsDated(steps: seq<Step>, session: string, createTime: nat)
    requires IsRun(steps)
  {
    exists v: nat :: LastPassed(steps, v, session) && IsRun(steps[..v]) && createTime == DatedAfter(steps[..v], session)
  }

  lemma {:induction false} DateStays(steps: seq<Step>, session: string, createTime: nat)
    requires steps != [] && IsRun(steps) && IsRun(steps[..|steps| - 1])
    requires JobIsDated(steps[..|steps| - 1], session, createTime)
    requires steps[|steps| - 1] != ValidatePasses(session)
    ensures JobIsDated(steps, session, createTime)
  {
    var init := steps[..|steps| - 1];
    var v: nat :| LastPassed(init, v, session) && IsRun(init[..v]) && createTime == DatedAfter(init[..v], session);
    assert init[..v] == steps[..v];
    assert LastPassed(steps, v, session);
  }

  lemma {:induction false} DateGiven(steps: seq<Step>, session: string)
    requires steps != [] && IsRun(steps) && steps[|steps| - 1] == ValidatePasses(session)
    requires IsRun(steps[..|steps| - 1])
    ensures session in After(steps).running && !After(steps).running[session].RollingBack?
    ensures !After(steps).running[session].Validating?
    ensures JobIsDated(steps, session, After(steps).running[session].createTime)
  {
    var n := |steps| - 1;
    ClockCountsTicks(steps[..n]);
    assert LastPassed(steps, n, session);
    assert After(steps).running[session].createTime == DatedAfter(steps[..n], session);
  }

  /** What a step other than Start and ValidatePasses of the session does to its job. */
  lemma {:induction false} JobStep(s: State, step: Step, session: string)
    requires Enabled(s, step) && step != Start(session) && step != ValidatePasses(session)
    ensures var t := Next(s, step);
            session in t.running && !t.running[session].RollingBack? ==>
              && session in s.running && !s.running[session].RollingBack?
              && t.running[session].request == s.running[session].request
              && (!t.running[session].Validating? ==>
                    !s.running[session].Validating? && t.running[session].createTime == s.running[session].createTime)
  {
  }

  lemma {:induction false} EveryJobIsOf(steps: seq<Step>, session: string)
    requires IsRun(steps)
    ensures JobIsOf(steps, session)
  {
    if steps != [] {
      var n := |steps| - 1;
      EveryJobIsOf(steps[..n], session);
      if steps[n] == ValidatePasses(session) {
        DateGiven(steps, session);
      } else if steps[n] != Start(session) {
        JobStep(After(steps[..n]), steps[n], session);
        var t := After(steps);
        if session in t.running && !t.running[session].RollingBack? && !t.running[session].Validating? {
          DateStays(steps, session, t.running[session].createTime);
        }
      }
    }
  }

  /** The build that step `k` returns is registered as the session's team. */
  ghost predicate Registers(steps: seq<Step>, k: nat, session: string)
    requires IsRun(steps)
  {
    && k < |steps| && steps[k].BuildReturns? && steps[k].session == session
    && IsRun(steps[..k + 1]) && session in After(steps[..k + 1]).teams
  }

  /** The members a build's projection calls for: agents on the request's routes, the rest announce only. */
  ghost predicate Runs(members: map<string, Runtime>, request: Request, projection: map<string, bool>) {
    && members.Keys == projection.Keys
    && forall r :: r in projection ==>
         if projection[r] then r in request && members[r] == AgentMember(request[r]) else members[r] == AnnounceOnly
  }

  /** The build made these parts, after `before`, of the request the session started last. */
  ghost predicate Made(before: seq<Step>, build: Step, session: string, request: Request,
                       members: map<string, Runtime>, createTime: nat)
    requires IsRun(before) && build.BuildReturns?
  {
    var taken := Taken(before, session);
    && taken != [] && request == taken[|taken| - 1]
    && Runs(members, request, build.projection)
    && JobIsDated(before, session, createTime)
  }

  ghost predicate BuiltFrom(e: Entry, before: seq<Step>, build: Step, session: string)
    requires IsRun(before) && build.BuildReturns?
  {
    && e.session == session && e.prompts == build.prompts
    && Made(before, build, session, e.request, e.members, e.createTime)
  }

  /**
   * A build that registers makes an entry of the request the session started last:
   * its routes are that request's, its members the projection's, its create time
   * that of its validation.
   */
  lemma {:induction false} BuildRunsLastStarted(before: seq<Step>, build: Step, session: string)
    requires IsRun(before) && build.BuildReturns? && build.session == session && Enabled(After(before), build)
    requires session in Next(After(before), build).teams
    ensures var t := Next(After(before), build);
            t.teams[session] in t.entries && BuiltFrom(t.entries[t.teams[session]], before, build, session)
  {
    EveryJobIsOf(before, session);
    EveryRunOk(before);
    BuildMakes(After(before), session, build.projection, build.prompts);
  }

  lemma {:induction false} BuildMakes(s: State, session: string, projection: map<string, bool>,
                                      prompts: map<string, string>)
    requires Enabled(s, BuildReturns(session, projection, prompts)) && session !in s.teams
    requires session in Next(s, BuildReturns(session, projection, prompts)).teams
    ensures var t, job := Next(s, BuildReturns(session, projection, prompts)), s.running[session];
            && t.teams[session] in t.entries
            && var e := t.entries[t.teams[session]];
               && e.session == session && e.request == job.request && e.createTime == job.createTime
               && e.prompts == prompts && Runs(e.members, job.request, projection)
  {
  }

  /** A build registers exactly when the request started last has the route of every agent it projects. */
  lemma {:induction false} BuildRegistersIff(before: seq<Step>, build: Step, session: string)
    requires IsRun(before) && build.BuildReturns? && build.session == session && Enabled(After(before), build)
    ensures var taken := Taken(before, session);
            taken != [] &&
            (session in Next(After(before), build).teams <==>
             forall r :: r in build.projection && build.projection[r] ==> r in taken[|taken| - 1])
  {
    EveryJobIsOf(before, session);
    EveryRunOk(before);
  }

  /** The last registering step of a session. */
  ghost predicate LastRegistered(steps: seq<Step>, k: nat, session: string)
    requires IsRun(steps)
  {
    Registers(steps, k, session) && forall j: nat :: k < j ==> !Registers(steps, j, session)
  }

  /** One entry, disposed or not. */
  predicate SameBuild(e: Entry, f: Entry) {
    f == e.(disposed := f.disposed)
  }

  /** A registered entry stays through every step but a build of its session. */
  lemma {:induction false} TeamStep(s: State, step: Step, session: string)
    requires TeamRegistry.Ok(s) && Enabled(s, step) && session in Next(s, step).teams
    requires !(step.BuildReturns? && step.session == session)
    ensures var t := Next(s, step);
            && session in s.teams && t.teams[session] == s.teams[session]
            && t.teams[session] in s.entries && t.teams[session] in t.entries
            && SameBuild(s.entries[t.teams[session]], t.entries[t.teams[session]])
  {
    match step
    case ValidatePasses(_) => SwapKeeps(s, step, session);
    case BuildReturns(_, _, _) => OtherBuildKeeps(s, step, session);
    case _ =>
  }

  lemma {:induction false} SwapKeeps(s: State, step: Step, session: string)
    requires TeamRegistry.Ok(s) && Enabled(s, step) && step.ValidatePasses? && session in Next(s, step).teams
    ensures var t := Next(s, step);
            && session in s.teams && t.teams[session] == s.teams[session]
            && t.teams[session] in s.entries && t.teams[session] in t.entries
            && SameBuild(s.entries[t.teams[session]], t.entries[t.teams[session]])
  {
  }

  lemma {:induction false} OtherBuildKeeps(s: State, step: Step, session: string)
    requires TeamRegistry.Ok(s) && Enabled(s, step) && step.BuildReturns? && step.session != session
    requires session in Next(s, step).teams
    ensures var t := Next(s, step);
            && session in s.teams && t.teams[session] == s.teams[session]
            && t.teams[session] in s.entries && t.teams[session] in t.entries
            && SameBuild(s.entries[t.teams[session]], t.entries[t.teams[session]])
  {
    assert s.teams[session] < s.nextGeneration;
  }

  lemma {:induction false} RegistersInPrefix(steps: seq<Step>, init: seq<Step>, k: nat, session: string)
    requires IsRun(steps) && steps != [] && init == steps[..|steps| - 1] && IsRun(init) && k < |init|
    ensures Registers(steps, k, session) <==> Registers(init, k, session)
    ensures init[..k] == steps[..k] && init[k] == steps[k]
  {
    assert init[..k + 1] == steps[..k + 1];
  }

  lemma {:induction false} LastStays(steps: seq<Step>, init: seq<Step>, k: nat, session: string)
    requires IsRun(steps) && steps != [] && init == steps[..|steps| - 1] && IsRun(init)
    requires LastRegistered(init, k, session)
    requires !(steps[|steps| - 1].BuildReturns? && steps[|steps| - 1].session == session)
    ensures LastRegistered(steps, k, session)
  {
    RegistersInPrefix(steps, init, k, session);
    forall j: nat | k < j ensures !Registers(steps, j, session) {
      if j < |init| {
        RegistersInPrefix(steps, init, j, session);
      }
    }
  }

  lemma {:induction false} LastIsLast(steps: seq<Step>, session: string)
    requires IsRun(steps) && steps != [] && session in After(steps).teams
    requires steps[|steps| - 1].BuildReturns? && steps[|steps| - 1].session == session
    ensures LastRegistered(steps, |steps| - 1, session)
  {
    assert steps[..|steps|] == steps;
  }

  /**
   * In every run a session's registered team is what its last registering build
   * made, of the request the session had started last before that build: it runs
   * that request's routes, and was dated at that request's validation.
   */
  lemma {:induction false} TeamRunsLastBuild(steps: seq<Step>, session: string) returns (k: nat)
    requires IsRun(steps) && session in After(steps).teams
    ensures LastRegistered(steps, k, session) && IsRun(steps[..k])
    ensures After(steps).teams[session] in After(steps).entries
    ensures BuiltFrom(After(steps).entries[After(steps).teams[session]], steps[..k], steps[k], session)
    decreases |steps|
  {
    var n := |steps| - 1;
    var init, last := steps[..n], steps[n];
    if last.BuildReturns? && last.session == session {
      k := n;
      BuildRunsLastStarted(init, last, session);
      LastIsLast(steps, session);
    } else {
      EveryRunOk(init);
      TeamStep(After(init), last, session);
      k := TeamRunsLastBuild(init, session);
      LastStays(steps, init, k, session);
      RegistersInPrefix(steps, init, k, session);
      SameEntry(After(init).entries[After(init).teams[session]], After(steps).entries[After(steps).teams[session]],
                init[..k], init[k], session);
    }
  }

  lemma SameEntry(e: Entry, f: Entry, before: seq<Step>, build: Step, session: string)
    requires SameBuild(e, f)
    requires IsRun(before) && build.BuildReturns? && BuiltFrom(e, before, build, session)
    ensures BuiltFrom(f, before, build, session)
  {
    assert f == e.(disposed := f.disposed);
  }
}
