/** The lifecycle manager of both languages: registration, one run, and the stop sequences. */
module Lifecycles {
  import opened Wrappers
  import opened Ordering
  import opened LifecycleModel

  datatype RegisterError = AfterRun | DuplicateName

  datatype RunResult = AlreadyRun | Clean | Failed(errors: seq<RunError>)

  /** A run with no errors ends clean; any error makes it fail with all of them. */
  function ResultOf(errors: seq<RunError>): RunResult {
    if errors == [] then Clean else Failed(errors)
  }

  /**
   * What the components do when called, each at most once a run; `dies` is the
   * component whose unexpected exit is reported first, if any.
   */
  datatype Environment = Environment(starts: Component -> bool, healthStarts: bool, stops: Target -> bool,
                                     dies: Option<string>)

  /** How many components come up: all before the first that fails to start. */
  function UpCount(order: seq<Component>, env: Environment): (k: nat)
    ensures k <= |order|
    ensures forall i :: 0 <= i < k ==> env.starts(order[i])
    ensures k < |order| ==> !env.starts(order[k])
  {
    if order == [] || !env.starts(order[0]) then 0 else 1 + UpCount(order[1..], env)
  }

  lemma UpCountUnique(order: seq<Component>, env: Environment, k: nat)
    requires k <= |order| && (forall i :: 0 <= i < k ==> env.starts(order[i]))
    requires k < |order| ==> !env.starts(order[k])
    ensures UpCount(order, env) == k
  {
  }

  /** Only a watched component's exit ends a run that is up; otherwise a signal does. */
  predicate Watched(components: seq<Component>, name: string) {
    exists i :: 0 <= i < |components| && components[i].watched && components[i].name == name
  }

  function ExitOf(order: seq<Component>, env: Environment): Exit {
    if UpCount(order, env) < |order| then StartFailed
    else if !env.healthStarts then HealthFailed
    else if env.dies.Some? && Watched(order, env.dies.value) then Exited(env.dies.value)
    else Signalled
  }

  /** The outcomes of the stops of an exit path when the budget ends with stop number `budget`. */
  function Outcomes(targets: seq<Target>, env: Environment, budget: nat): (oks: seq<bool>)
    ensures |oks| == |targets|
    ensures forall i :: 0 <= i < |oks| ==> oks[i] == (i < budget && env.stops(targets[i]))
  {
    seq(|targets|, i requires 0 <= i < |targets| => i < budget && env.stops(targets[i]))
  }

  predicate Taken(components: seq<Component>, name: string) {
    exists i :: 0 <= i < |components| && components[i].name == name
  }

  /** One stop sequence: every target called once, in order, and every failure kept. */
  ghost predicate StopsAll(targets: seq<Target>, oks: seq<bool>, calls: seq<Call>, errors: seq<RunError>) {
    |oks| == |targets| && calls == StopCalls(targets, oks) && errors == Failures(targets, oks)
  }

  /** Starts the components in order and stops at the first that fails. */
  method StartAll(order: seq<Component>, env: Environment)
    returns (started: seq<Component>, failed: bool, calls: seq<Call>)
    ensures |started| == UpCount(order, env) && started == order[..|started|]
    ensures failed <==> |started| < |order|
    ensures calls == seq(|started|, i requires 0 <= i < |started| => Start(order[i], true))
                     + (if failed then [Start(order[|started|], false)] else [])
  {
    started, failed, calls := [], false, [];
    for i := 0 to |order|
      invariant started == order[..i] && |started| == i
      invariant forall j :: 0 <= j < i ==> env.starts(order[j])
      invariant calls == seq(i, j requires 0 <= j < i => Start(order[j], true))
    {
      if !env.starts(order[i]) {
        UpCountUnique(order, env, i);
        calls := calls + [Start(order[i], false)];
        return started, true, calls;
      }
      calls := calls + [Start(order[i], true)];
      started := started + [order[i]];
    }
    UpCountUnique(order, env, |order|);
  }

  /** Health comes up after every component; then the run waits for what ends it. */
  method BringUp(order: seq<Component>, started: seq<Component>, failed: bool, starts: seq<Call>, env: Environment)
    returns (end: Exit, calls: seq<Call>)
    requires |started| == UpCount(order, env) && started == order[..|started|] && (failed <==> |started| < |order|)
    requires starts == seq(|started|, i requires 0 <= i < |started| => Start(order[i], true))
                       + (if failed then [Start(order[|started|], false)] else [])
    ensures end == ExitOf(order, env)
    ensures calls == StartCalls(order, |started|, end)
  {
    if failed {
      return StartFailed, starts;
    }
    calls := starts + [StartHealth(env.healthStarts)];
    if !env.healthStarts {
      return HealthFailed, calls;
    }
    assert started == order;
    end := if env.dies.Some? && Watched(started, env.dies.value) then Exited(env.dies.value) else Signalled;
  }

  /** The components in start order, then health, then the wait. */
  method ComeUp(order: seq<Component>, env: Environment) returns (started: seq<Component>, end: Exit, calls: seq<Call>)
    ensures |started| == UpCount(order, env) && started == order[..|started|]
    ensures end == ExitOf(order, env) && calls == StartCalls(order, |started|, end)
  {
    var failed, starts;
    started, failed, starts := StartAll(order, env);
    end, calls := BringUp(order, started, failed, starts, env);
  }

  lemma {:induction false} StopsOneMore(targets: seq<Target>, oks: seq<bool>, calls: seq<Call>, errors: seq<RunError>,
                                        ok: bool)
    requires |oks| < |targets| && StopsAll(targets[..|oks|], oks, calls, errors)
    ensures var n := |oks|;
            StopsAll(targets[..n + 1], oks + [ok], calls + [Stop(targets[n], ok)],
                     errors + if ok then [] else [StopFailed(targets[n])])
  {
    var n := |oks|;
    assert targets[..n + 1][..n] == targets[..n] && (oks + [ok])[..n] == oks;
  }

  /** A stop sequence under one shared budget, which ends while or before stop number `budget` is awaited. */
  method StopWithinBudget(targets: seq<Target>, env: Environment, budget: nat)
    returns (calls: seq<Call>, errors: seq<RunError>)
    ensures StopsAll(targets, Outcomes(targets, env, budget), calls, errors)
  {
    calls, errors := [], [];
    ghost var oks: seq<bool> := [];
    assert targets[..0] == [];
    for i := 0 to |targets|
      invariant |oks| == i && oks == Outcomes(targets, env, budget)[..i]
      invariant StopsAll(targets[..i], oks, calls, errors)
    {
      var ok := i < budget && env.stops(targets[i]);
      StopsOneMore(targets, oks, calls, errors, ok);
      calls := calls + [Stop(targets[i], ok)];
      if !ok {
        errors := errors + [StopFailed(targets[i])];
      }
      oks := oks + [ok];
    }
    assert targets[..|targets|] == targets;
    assert oks == Outcomes(targets, env, budget);
  }

  /** The run the environment determines: what comes up, what ends it, and which stops work. */
  ghost predicate Runs(order: seq<Component>, env: Environment, budget: nat, calls: seq<Call>, errors: seq<RunError>) {
    var k, exit := UpCount(order, env), ExitOf(order, env);
    IsRun(order, k, exit, Outcomes(StopOrder(order[..k], exit), env, budget), calls, errors)
  }

  /** The run the environment determines, with its errors as the result. */
  ghost predicate Ran(order: seq<Component>, env: Environment, budget: nat, result: RunResult, calls: seq<Call>) {
    exists errors :: result == ResultOf(errors) && Runs(order, env, budget, calls, errors)
  }

  /** The number of errors a result reports. */
  function ErrorCount(result: RunResult): nat {
    if result.Failed? then |result.errors| else 0
  }

  /**
   * What came up is the start order up to the first start that fails; exactly
   * that went down, once, in reverse, after the health endpoint if it was up; and
   * the errors are one for a cause other than a signal and one per failed stop.
   */
  ghost predicate StopsWhatStarted(order: seq<Component>, env: Environment, budget: nat, result: RunResult,
                                   calls: seq<Call>) {
    var up, exit := CameUp(calls), ExitOf(order, env);
    && up == order[..UpCount(order, env)]
    && WentDown(calls) == (if exit.Up() then [Health] else []) + Members(Reversed(up))
    && ErrorCount(result) == (if exit.Signalled? then 0 else 1) + Count(Outcomes(WentDown(calls), env, budget))
  }

  lemma {:induction false} RunsStopWhatStarted(order: seq<Component>, env: Environment, budget: nat, calls: seq<Call>,
                                               errors: seq<RunError>)
    requires Runs(order, env, budget, calls, errors)
    ensures StopsWhatStarted(order, env, budget, ResultOf(errors), calls)
  {
    var k, exit := UpCount(order, env), ExitOf(order, env);
    EveryExitPathStopsWhatStarted(order, k, exit, Outcomes(StopOrder(order[..k], exit), env, budget), calls, errors);
  }

  lemma {:induction false} RunComposed(order: seq<Component>, started: seq<Component>, end: Exit, env: Environment,
                                       budget: nat, starts: seq<Call>, stops: seq<Call>, failures: seq<RunError>)
    requires |started| == UpCount(order, env) && started == order[..|started|] && end == ExitOf(order, env)
    requires starts == StartCalls(order, |started|, end)
    requires StopsAll(StopOrder(started, end), Outcomes(StopOrder(started, end), env, budget), stops, failures)
    ensures var result := ResultOf(Cause(order, |started|, end) + failures);
            && Ran(order, env, budget, result, starts + stops)
            && StopsWhatStarted(order, env, budget, result, starts + stops)
  {
    var errors := Cause(order, |started|, end) + failures;
    assert Runs(order, env, budget, starts + stops, errors);
    RunsStopWhatStarted(order, env, budget, starts + stops, errors);
  }

  /** common/js/bootstrap: every stop of an exit path runs against one budget. */
  class Bootstrap {
    var components: seq<Component>
    var runStarted: bool

    ghost predicate Valid()
      reads this
    {
      DistinctNames(components)
    }

    constructor ()
      ensures Valid() && components == [] && !runStarted
    {
      components, runStarted := [], false;
    }

    /** A component joins before the run, unless its name is taken. */
    method Register(c: Component) returns (r: Result<(), RegisterError>)
      requires Valid()
      modifies this
      ensures Valid() && runStarted == old(runStarted)
      ensures r == if old(runStarted) then Err(AfterRun)
                   else if Taken(old(components), c.name) then Err(DuplicateName)
                   else Ok(())
      ensures components == if r.Ok? then old(components) + [c] else old(components)
    {
      if runStarted {
        return Err(AfterRun);
      }
      for i := 0 to |components|
        invariant forall j :: 0 <= j < i ==> components[j].name != c.name
      {
        if components[i].name == c.name {
          return Err(DuplicateName);
        }
      }
      components := components + [c];
      r := Ok(());
    }

    /** One run of the components in start order; a second run does nothing. */
    method Run(env: Environment, budget: nat) returns (result: RunResult, calls: seq<Call>)
      requires Valid()
      modifies `runStarted
      ensures runStarted
      ensures old(runStarted) ==> result == AlreadyRun && calls == []
      ensures !old(runStarted) ==> Ran(StartOrder(components), env, budget, result, calls)
      ensures !old(runStarted) ==> StopsWhatStarted(StartOrder(components), env, budget, result, calls)
    {
      if runStarted {
        return AlreadyRun, [];
      }
      runStarted := true;
      var sorted := StartOrder(components);
      var started, end, began := ComeUp(sorted, env);
      var targets := StopOrder(started, end);
      var stops, stopErrs := StopWithinBudget(targets, env, budget);
      RunComposed(sorted, started, end, env, budget, began, stops, stopErrs);
      calls := began + stops;
      result := ResultOf(Cause(sorted, |started|, end) + stopErrs);
    }
  }

  /**
   * common/gopkg/bootstrap: the deadline only reaches the stops as a context, so
   * a stop fails when it returns an error or panics, and the health endpoint is
   * stopped under a deadline of its own.
   */
  class GoBootstrap {
    var components: seq<Component>
    var running: bool

    ghost predicate Valid()
      reads this
    {
      DistinctNames(components)
    }

    constructor ()
      ensures Valid() && components == [] && !running
    {
      components, running := [], false;
    }

    method Register(c: Component) returns (r: Result<(), RegisterError>)
      requires Valid()
      modifies this
      ensures Valid() && running == old(running)
      ensures r == if old(running) then Err(AfterRun)
                   else if Taken(old(components), c.name) then Err(DuplicateName)
                   else Ok(())
      ensures components == if r.Ok? then old(components) + [c] else old(components)
    {
      if running {
        return Err(AfterRun);
      }
      for i := 0 to |components|
        invariant forall j :: 0 <= j < i ==> components[j].name != c.name
      {
        if components[i].name == c.name {
          return Err(DuplicateName);
        }
      }
      components := components + [c];
      r := Ok(());
    }

    /** As `Bootstrap.Run`, except that no stop is failed by the deadline. */
    method RunSignal(env: Environment) returns (result: RunResult, calls: seq<Call>)
      requires Valid()
      modifies `running
      ensures running
      ensures old(running) ==> result == AlreadyRun && calls == []
      ensures !old(running) ==> Ran(StartOrder(components), env, |components| + 1, result, calls)
      ensures !old(running) ==> StopsWhatStarted(StartOrder(components), env, |components| + 1, result, calls)
    {
      if running {
        return AlreadyRun, [];
      }
      running := true;
      AllAreSorted(components);
      result, calls := RunAndStop(StartOrder(components), env, |components| + 1);
    }
  }

  /** From the first start to the last stop, where no stop is cut off. */
  method RunAndStop(order: seq<Component>, env: Environment, ghost enough: nat)
    returns (result: RunResult, calls: seq<Call>)
    requires enough > |order|
    ensures Ran(order, env, enough, result, calls) && StopsWhatStarted(order, env, enough, result, calls)
  {
    var started, end, began := ComeUp(order, env);
    var stops, stopErrs := StopEverything(started, end, env, enough);
    RunComposed(order, started, end, env, enough, began, stops, stopErrs);
    calls := began + stops;
    result := ResultOf(Cause(order, |started|, end) + stopErrs);
  }

  lemma AllAreSorted(components: seq<Component>)
    ensures |StartOrder(components)| == |components|
  {
    SortPermutes(components, StartsBefore);
    assert |multiset(StartOrder(components))| == |StartOrder(components)|;
    assert |multiset(components)| == |components|;
  }

  /** Once the budget outlasts the stops, more of it changes nothing. */
  lemma MoreBudget(targets: seq<Target>, env: Environment, budget: nat, more: nat)
    requires |targets| <= budget <= more
    ensures Outcomes(targets, env, budget) == Outcomes(targets, env, more)
  {
  }

  lemma {:induction false} OutcomesAfterFirst(first: Target, rest: seq<Target>, env: Environment)
    ensures Outcomes([first] + rest, env, |rest| + 1) == [env.stops(first)] + Outcomes(rest, env, |rest|)
  {
  }

  /** The health endpoint's stop, if it is up, then the shutdown of the started components. */
  method StopEverything(started: seq<Component>, end: Exit, env: Environment, ghost enough: nat)
    returns (calls: seq<Call>, errors: seq<RunError>)
    requires enough > |started|
    ensures StopsAll(StopOrder(started, end), Outcomes(StopOrder(started, end), env, enough), calls, errors)
  {
    ghost var targets := Members(Reversed(started));
    calls, errors := Shutdown(started, env);
    if end.Up() {
      var ok := env.stops(Health);
      var failed := if ok then [] else [StopFailed(Health)];
      StopsHealth(ok);
      StopsJoined([Health], targets, [ok], Outcomes(targets, env, |started|), [Stop(Health, ok)], calls, failed, errors);
      OutcomesAfterFirst(Health, targets, env);
      calls, errors := [Stop(Health, ok)] + calls, failed + errors;
    } else {
      assert StopOrder(started, end) == targets;
      MoreBudget(targets, env, |started|, |started| + 1);
    }
    MoreBudget(StopOrder(started, end), env, |started| + 1, enough);
  }

  /** Stops the started components from last to first; a failed or panicking stop does not end the loop. */
  method Shutdown(started: seq<Component>, env: Environment) returns (calls: seq<Call>, errors: seq<RunError>)
    ensures StopsAll(Members(Reversed(started)), Outcomes(Members(Reversed(started)), env, |started|), calls, errors)
  {
    ghost var targets := Members(Reversed(started));
    ghost var oks: seq<bool> := [];
    calls, errors := [], [];
    assert targets[..0] == [];
    var i := |started|;
    while i > 0
      invariant 0 <= i <= |started| && |oks| == |started| - i
      invariant oks == Outcomes(targets, env, |started|)[..|oks|]
      invariant StopsAll(targets[..|oks|], oks, calls, errors)
    {
      i := i - 1;
      var c := started[i];
      assert targets[|oks|] == Member(c);
      var ok := env.stops(Member(c));
      StopsOneMore(targets, oks, calls, errors, ok);
      calls := calls + [Stop(Member(c), ok)];
      if !ok {
        errors := errors + [StopFailed(Member(c))];
      }
      oks := oks + [ok];
    }
    assert targets[..|oks|] == targets;
    assert oks == Outcomes(targets, env, |started|);
  }

  lemma {:induction false} StopsHealth(ok: bool)
    ensures StopsAll([Health], [ok], [Stop(Health, ok)], if ok then [] else [StopFailed(Health)])
  {
    assert [Health][..0] == [] && [ok][..0] == [];
  }

  lemma {:induction false} StopsJoined(a: seq<Target>, b: seq<Target>, oksA: seq<bool>, oksB: seq<bool>,
                                       callsA: seq<Call>, callsB: seq<Call>, errorsA: seq<RunError>,
                                       errorsB: seq<RunError>)
    requires StopsAll(a, oksA, callsA, errorsA) && StopsAll(b, oksB, callsB, errorsB)
    ensures StopsAll(a + b, oksA + oksB, callsA + callsB, errorsA + errorsB)
    decreases |b|
  {
    if b == [] {
      assert a + b == a && oksA + oksB == oksA;
    } else {
      var n := |b| - 1;
      StopsJoined(a, b[..n], oksA, oksB[..n], callsA, StopCalls(b[..n], oksB[..n]), errorsA, Failures(b[..n], oksB[..n]));
      assert (a + b)[..|a + b| - 1] == a + b[..n];
      assert (oksA + oksB)[..|a + b| - 1] == oksA + oksB[..n];
    }
  }

  /** Both languages do the same run when nothing of the exit path outlives the budget. */
  lemma SameRunWithinBudget(order: seq<Component>, env: Environment, budget: nat, calls: seq<Call>,
                            errors: seq<RunError>)
    requires budget > |order|
    ensures Runs(order, env, budget, calls, errors) <==> Runs(order, env, |order| + 1, calls, errors)
  {
    var k, exit := UpCount(order, env), ExitOf(order, env);
    var targets := StopOrder(order[..k], exit);
    assert Outcomes(targets, env, budget) == Outcomes(targets, env, |order| + 1);
  }

  /** A run ends clean exactly when all starts worked, a signal ended it, and every stop worked within the budget. */
  lemma CleanIff(order: seq<Component>, env: Environment, budget: nat, calls: seq<Call>, errors: seq<RunError>)
    requires Runs(order, env, budget, calls, errors)
    ensures ResultOf(errors) == Clean <==>
              && ExitOf(order, env).Signalled?
              && |order| < budget && env.stops(Health)
              && forall i :: 0 <= i < |order| ==> env.stops(Member(order[i]))
  {
    var k, exit := UpCount(order, env), ExitOf(order, env);
    var oks := Outcomes(StopOrder(order[..k], exit), env, budget);
    EveryExitPathStopsWhatStarted(order, k, exit, oks, calls, errors);
    NoneFailed(oks);
    if exit.Signalled? {
      assert order[..k] == order;
      EveryStopWorks(order, env, budget);
    }
  }

  /** Component `i` is the first that does not start. */
  predicate FailsFirst(order: seq<Component>, env: Environment, i: nat) {
    i < |order| && !env.starts(order[i]) && forall j :: 0 <= j < i ==> env.starts(order[j])
  }

  predicate AllStart(order: seq<Component>, env: Environment) {
    forall i :: 0 <= i < |order| ==> env.starts(order[i])
  }

  /** Stop number `i` is of `target`, and it failed or came after the end of the budget. */
  predicate StoppedBadly(stopped: seq<Target>, env: Environment, budget: nat, i: int, target: Target) {
    0 <= i < |stopped| && stopped[i] == target && !(i < budget && env.stops(target))
  }

  predicate FailedAt(targets: seq<Target>, oks: seq<bool>, i: int, e: RunError)
    requires |targets| == |oks|
  {
    0 <= i < |targets| && !oks[i] && e == StopFailed(targets[i])
  }

  lemma {:induction false} FailuresAre(targets: seq<Target>, oks: seq<bool>, e: RunError)
    requires |targets| == |oks|
    ensures e in Failures(targets, oks) <==> exists i :: FailedAt(targets, oks, i, e)
    decreases |targets|
  {
    if targets != [] {
      var n := |targets| - 1;
      var init, initOks := targets[..n], oks[..n];
      FailuresAre(init, initOks, e);
      if e in Failures(init, initOks) {
        var i :| FailedAt(init, initOks, i, e);
        assert FailedAt(targets, oks, i, e);
      }
      if !oks[n] && e == StopFailed(targets[n]) {
        assert FailedAt(targets, oks, n, e);
      }
      if i :| FailedAt(targets, oks, i, e) {
        assert i < n ==> FailedAt(init, initOks, i, e);
      }
    }
  }

  lemma {:induction false} NoOtherFailures(targets: seq<Target>, oks: seq<bool>, e: RunError)
    requires |targets| == |oks|
    ensures e in Failures(targets, oks) ==> e.StopFailed?
  {
    FailuresAre(targets, oks, e);
  }

  lemma {:induction false} StopErrorsAre(targets: seq<Target>, env: Environment, budget: nat, target: Target)
    ensures StopFailed(target) in Failures(targets, Outcomes(targets, env, budget))
       <==> exists i :: StoppedBadly(targets, env, budget, i, target)
  {
    var oks := Outcomes(targets, env, budget);
    FailuresAre(targets, oks, StopFailed(target));
    forall i ensures FailedAt(targets, oks, i, StopFailed(target)) <==> StoppedBadly(targets, env, budget, i, target) {
    }
  }

  /**
   * What a run reports: the first component that did not start, or the health
   * endpoint that did not, or the watched component whose exit ended it, and every
   * stop that failed or came after the end of the budget; and nothing else.
   */
  lemma {:induction false} ErrorsAre(order: seq<Component>, env: Environment, budget: nat, calls: seq<Call>,
                                     errors: seq<RunError>, e: RunError)
    requires Runs(order, env, budget, calls, errors)
    ensures e in errors <==>
            match e
            case CannotStart(name) => exists i: nat :: FailsFirst(order, env, i) && order[i].name == name
            case HealthCannotStart => AllStart(order, env) && !env.healthStarts
            case ExitedUnexpectedly(name) =>
              && AllStart(order, env) && env.healthStarts && env.dies == Some(name)
              && exists i :: 0 <= i < |order| && order[i].watched && order[i].name == name
            case StopFailed(target) =>
              exists i :: StoppedBadly(WentDown(calls), env, budget, i, target)
  {
    var k, exit := UpCount(order, env), ExitOf(order, env);
    var targets := StopOrder(order[..k], exit);
    var oks := Outcomes(targets, env, budget);
    EveryExitPathStopsWhatStarted(order, k, exit, oks, calls, errors);
    assert WentDown(calls) == targets;
    NoOtherFailures(targets, oks, e);
    UpCountIs(order, env);
    CauseIs(order, env, e);
    assert e in errors <==> e in Cause(order, k, exit) || e in Failures(targets, oks);
    if e.StopFailed? {
      StopErrorsAre(targets, env, budget, e.target);
    }
  }

  lemma {:induction false} UpCountIs(order: seq<Component>, env: Environment)
    ensures UpCount(order, env) < |order| ==> FailsFirst(order, env, UpCount(order, env))
    ensures UpCount(order, env) == |order| <==> AllStart(order, env)
    ensures forall i: nat :: FailsFirst(order, env, i) ==> i == UpCount(order, env)
  {
  }

  lemma {:induction false} CauseIs(order: seq<Component>, env: Environment, e: RunError)
    ensures var k, exit := UpCount(order, env), ExitOf(order, env);
            e in Cause(order, k, exit) <==>
            match e
            case CannotStart(name) => k < |order| && order[k].name == name
            case HealthCannotStart => k == |order| && !env.healthStarts
            case ExitedUnexpectedly(name) =>
              && k == |order| && env.healthStarts && env.dies == Some(name)
              && exists i :: 0 <= i < |order| && order[i].watched && order[i].name == name
            case StopFailed(_) => false
  {
  }

  lemma {:induction false} EveryStopWorks(order: seq<Component>, env: Environment, budget: nat)
    ensures false !in Outcomes(StopOrder(order, Signalled), env, budget) <==>
              && |order| < budget && env.stops(Health)
              && forall i :: 0 <= i < |order| ==> env.stops(Member(order[i]))
  {
    var targets := StopOrder(order, Signalled);
    var oks := Outcomes(targets, env, budget);
    assert |targets| == |order| + 1 && targets[0] == Health;
    if false !in oks {
      assert oks[0] && oks[|order|];
      forall i | 0 <= i < |order| ensures env.stops(Member(order[i])) {
        assert targets[|order| - i] == Member(order[i]) && oks[|order| - i];
      }
    } else {
      var i :| 0 <= i < |oks| && !oks[i];
      assert i > 0 ==> targets[i] == Member(order[|order| - i]);
    }
  }

  lemma {:induction false} NoneFailed(oks: seq<bool>)
    ensures Count(oks) == 0 <==> false !in oks
    decreases |oks|
  {
    if oks != [] {
      NoneFailed(oks[..|oks| - 1]);
      assert oks == oks[..|oks| - 1] + [oks[|oks| - 1]];
    }
  }
}
