/**
 * What one run of the lifecycle manager does to its components, as the list of
 * calls it makes: starts in order, then health, then the stops of its exit path.
 */
module LifecycleModel {
  import opened Texts
  import opened Ordering

  /** `watched` components report their own unexpected exit. */
  datatype Component = Component(name: string, stage: int, watched: bool)

  predicate StartsBefore(a: Component, b: Component) {
    a.stage < b.stage || (a.stage == b.stage && Before(a.name, b.name))
  }

  predicate DistinctNames(components: seq<Component>) {
    forall i, j :: 0 <= i < j < |components| ==> components[i].name != components[j].name
  }

  function StartOrder(components: seq<Component>): seq<Component> {
    Sort(components, StartsBefore)
  }

  lemma StartsBeforeIsStrict()
    ensures Strict(StartsBefore)
  {
    forall a: Component ensures !StartsBefore(a, a) {
      BeforeIrreflexive(a.name);
    }
    forall a: Component, b: Component, c: Component | StartsBefore(a, b) && StartsBefore(b, c)
      ensures StartsBefore(a, c)
    {
      if a.stage == b.stage == c.stage {
        BeforeTransitive(a.name, b.name, c.name);
      }
    }
  }

  lemma DistinctNamesCompare(components: seq<Component>)
    requires DistinctNames(components)
    ensures Comparable(components, StartsBefore)
  {
    forall i, j | 0 <= i < j < |components|
      ensures StartsBefore(components[i], components[j]) || StartsBefore(components[j], components[i])
    {
      BeforeTotal(components[i].name, components[j].name);
    }
  }

  /**
   * The start order is the one arrangement by stage, then name: it is strictly
   * increasing, has exactly the registered components, and does not depend on
   * the registration order.
   */
  lemma StartOrderIsTheOrder(components: seq<Component>, other: seq<Component>)
    requires DistinctNames(components) && DistinctNames(other)
    requires multiset(components) == multiset(other)
    ensures Increasing(StartOrder(components), StartsBefore)
    ensures multiset(StartOrder(components)) == multiset(components)
    ensures StartOrder(components) == StartOrder(other)
    ensures forall xs :: Increasing(xs, StartsBefore) && multiset(xs) == multiset(components) ==>
              xs == StartOrder(components)
  {
    StartsBeforeIsStrict();
    DistinctNamesCompare(components);
    DistinctNamesCompare(other);
    SortIncreases(components, StartsBefore);
    SortPermutes(components, StartsBefore);
    SortIgnoresOrder(components, other, StartsBefore);
    forall xs | Increasing(xs, StartsBefore) && multiset(xs) == multiset(components)
      ensures xs == StartOrder(components)
    {
      IncreasingUnique(xs, StartOrder(components), StartsBefore);
    }
  }

  /** Along the start order stages do not decrease, and within a stage the names increase. */
  lemma {:induction false} StagesThenNames(components: seq<Component>)
    requires DistinctNames(components)
    ensures var order := StartOrder(components);
            forall i, j :: 0 <= i < j < |order| ==>
              || order[i].stage < order[j].stage
              || (order[i].stage == order[j].stage && Before(order[i].name, order[j].name))
  {
    StartOrderIsTheOrder(components, components);
  }

  // ------------------------------------------------------------------- calls

  datatype Target = Health | Member(c: Component)

  datatype Call =
    | Start(c: Component, ok: bool)
    | StartHealth(ok: bool)
    | Stop(target: Target, ok: bool)

  /** How the starting phase of a run ended. */
  datatype Exit =
    | StartFailed
    | HealthFailed
    | Signalled
    | Exited(name: string)
  {
    predicate Up() {
      Signalled? || Exited?
    }
  }

  datatype RunError =
    | CannotStart(name: string)
    | HealthCannotStart
    | ExitedUnexpectedly(name: string)
    | StopFailed(target: Target)

  function Reversed(components: seq<Component>): (r: seq<Component>)
    ensures |r| == |components| && forall i :: 0 <= i < |r| ==> r[i] == components[|components| - 1 - i]
  {
    seq(|components|, i requires 0 <= i < |components| => components[|components| - 1 - i])
  }

  function Members(components: seq<Component>): (r: seq<Target>)
    ensures |r| == |components| && forall i :: 0 <= i < |r| ==> r[i] == Member(components[i])
  {
    seq(|components|, i requires 0 <= i < |components| => Member(components[i]))
  }

  function StartCalls(order: seq<Component>, k: nat, exit: Exit): seq<Call>
    requires k <= |order| && (exit.StartFailed? ==> k < |order|)
  {
    seq(k, i requires 0 <= i < k => Start(order[i], true))
      + [match exit
         case StartFailed => Start(order[k], false)
         case HealthFailed => StartHealth(false)
         case _ => StartHealth(true)]
  }

  function StopCalls(targets: seq<Target>, oks: seq<bool>): seq<Call>
    requires |targets| == |oks|
  {
    seq(|targets|, i requires 0 <= i < |targets| => Stop(targets[i], oks[i]))
  }

  function Failures(targets: seq<Target>, oks: seq<bool>): seq<RunError>
    requires |targets| == |oks|
  {
    if targets == [] then []
    else
      var n := |targets| - 1;
      Failures(targets[..n], oks[..n]) + (if oks[n] then [] else [StopFailed(targets[n])])
  }

  /** Health first once everything is up, then the started components from last to first. */
  function StopOrder(started: seq<Component>, exit: Exit): seq<Target> {
    (if exit.Up() then [Health] else []) + Members(Reversed(started))
  }

  function Cause(order: seq<Component>, k: nat, exit: Exit): seq<RunError>
    requires k <= |order| && (exit.StartFailed? ==> k < |order|)
  {
    match exit
    case StartFailed => [CannotStart(order[k].name)]
    case HealthFailed => [HealthCannotStart]
    case Signalled => []
    case Exited(name) => [ExitedUnexpectedly(name)]
  }

  /** The run started `order[..k]`, ended its starting phase with `exit` and stopped with the outcomes `oks`. */
  ghost predicate IsRun(order: seq<Component>, k: nat, exit: Exit, oks: seq<bool>, calls: seq<Call>,
                        errors: seq<RunError>) {
    && k <= |order|
    && (if exit.StartFailed? then k < |order| else k == |order|)
    && (exit.Exited? ==> exists i :: 0 <= i < k && order[i].watched && order[i].name == exit.name)
    && |oks| == |StopOrder(order[..k], exit)|
    && calls == StartCalls(order, k, exit) + StopCalls(StopOrder(order[..k], exit), oks)
    && errors == Cause(order, k, exit) + Failures(StopOrder(order[..k], exit), oks)
  }

  // ------------------------------------------- what the calls amount to, per run

  /** The components that came up, in the order they did. */
  function CameUp(calls: seq<Call>): seq<Component> {
    if calls == [] then []
    else
      var last := calls[|calls| - 1];
      CameUp(calls[..|calls| - 1]) + (if last.Start? && last.ok then [last.c] else [])
  }

  /** What was stopped, in the order it was. */
  function WentDown(calls: seq<Call>): seq<Target> {
    if calls == [] then []
    else
      var last := calls[|calls| - 1];
      WentDown(calls[..|calls| - 1]) + (if last.Stop? then [last.target] else [])
  }

  function Count(oks: seq<bool>): nat {
    if oks == [] then 0 else Count(oks[..|oks| - 1]) + (if oks[|oks| - 1] then 0 else 1)
  }

  lemma {:induction false} WentDownAppend(a: seq<Call>, targets: seq<Target>, oks: seq<bool>)
    requires |targets| == |oks|
    ensures WentDown(a + StopCalls(targets, oks)) == WentDown(a) + targets
    ensures CameUp(a + StopCalls(targets, oks)) == CameUp(a)
    decreases |targets|
  {
    if targets == [] {
      assert a + StopCalls(targets, oks) == a;
    } else {
      var n := |targets| - 1;
      WentDownAppend(a, targets[..n], oks[..n]);
      var all := a + StopCalls(targets, oks);
      assert all[..|all| - 1] == a + StopCalls(targets[..n], oks[..n]);
      assert targets == targets[..n] + [targets[n]];
    }
  }

  lemma {:induction false} StartsComeUp(order: seq<Component>, k: nat)
    requires k <= |order|
    ensures var calls := seq(k, i requires 0 <= i < k => Start(order[i], true));
            CameUp(calls) == order[..k] && WentDown(calls) == []
    decreases k
  {
    if k > 0 {
      StartsComeUp(order, k - 1);
      var calls := seq(k, i requires 0 <= i < k => Start(order[i], true));
      assert calls[..k - 1] == seq(k - 1, i requires 0 <= i < k - 1 => Start(order[i], true));
      assert order[..k] == order[..k - 1] + [order[k - 1]];
    }
  }

  lemma {:induction false} FailuresCounted(targets: seq<Target>, oks: seq<bool>)
    requires |targets| == |oks|
    ensures |Failures(targets, oks)| == Count(oks)
    decreases |targets|
  {
    if targets != [] {
      FailuresCounted(targets[..|targets| - 1], oks[..|targets| - 1]);
    }
  }

  /**
   * On every exit path: the components that came up are a prefix of the start
   * order; exactly those are stopped, each once, in reverse, after the health
   * endpoint if that was up; and the errors are the cause and the failed stops.
   */
  lemma EveryExitPathStopsWhatStarted(order: seq<Component>, k: nat, exit: Exit, oks: seq<bool>, calls: seq<Call>,
                                      errors: seq<RunError>)
    requires IsRun(order, k, exit, oks, calls, errors)
    ensures CameUp(calls) == order[..k]
    ensures WentDown(calls) == (if exit.Up() then [Health] else []) + Members(Reversed(CameUp(calls)))
    ensures |errors| == (if exit.Signalled? then 0 else 1) + Count(oks)
  {
    StartsComeUp(order, k);
    var ups := seq(k, i requires 0 <= i < k => Start(order[i], true));
    var head := StartCalls(order, k, exit);
    assert head[..|head| - 1] == ups;
    WentDownAppend(head, StopOrder(order[..k], exit), oks);
    FailuresCounted(StopOrder(order[..k], exit), oks);
  }

  /** With distinct names no component is stopped twice, and none that did not come up. */
  lemma StoppedOnce(order: seq<Component>, k: nat, exit: Exit, oks: seq<bool>, calls: seq<Call>,
                    errors: seq<RunError>, c: Component)
    requires IsRun(order, k, exit, oks, calls, errors) && DistinctNames(order)
    ensures multiset(WentDown(calls))[Member(c)] == (if c in CameUp(calls) then 1 else 0)
  {
    EveryExitPathStopsWhatStarted(order, k, exit, oks, calls, errors);
    CountMembers(order[..k], c);
    HealthAside(Members(Reversed(order[..k])), c);
  }

  lemma HealthAside(members: seq<Target>, c: Component)
    ensures multiset([Health] + members)[Member(c)] == multiset(members)[Member(c)]
    ensures [] + members == members
  {
  }

  lemma {:induction false} CountMembers(components: seq<Component>, c: Component)
    requires DistinctNames(components)
    ensures multiset(Members(Reversed(components)))[Member(c)] == (if c in components then 1 else 0)
    decreases |components|
  {
    if components != [] {
      var first, rest := components[0], components[1..];
      CountMembers(rest, c);
      assert Members(Reversed(components)) == Members(Reversed(rest)) + [Member(first)];
      assert components == [first] + rest;
      assert first !in rest;
    }
  }
}
