/** The two supervision loops, each proved to do what the restart policy says. */
module Daemons {
  import opened Wrappers
  import opened DaemonModel

  datatype StartError = AlreadyStarted

  /** common/js/bootstrap: one supervised worker. */
  class Daemon {
    const policy: Policy
    var supervised: bool
    var restarts: nat
    var backoff: int
    var fatalReported: bool
    var reports: nat
    var builds: nat
    var sleeps: seq<int>

    constructor (policy: Policy)
      ensures this.policy == policy && Fresh()
    {
      this.policy := policy;
      supervised, restarts, backoff := false, 0, policy.initialBackoff;
      fatalReported, reports, builds, sleeps := false, 0, 0, [];
    }

    /** Created and not started. */
    ghost predicate Fresh()
      reads this
    {
      !supervised && Waiting(0)
    }

    /** `k` restarts have happened and the loop is at its top. */
    ghost predicate Waiting(k: nat)
      reads this
    {
      && restarts == k && backoff == Backoff(policy, k) && builds == k && sleeps == Backoffs(policy, k)
      && !fatalReported && reports == 0
    }

    /** Settles `exited` unless it is settled. */
    method ReportFatal()
      modifies `fatalReported, `reports
      ensures fatalReported && reports == old(reports) + if old(fatalReported) then 0 else 1
    {
      if fatalReported {
        return;
      }
      fatalReported := true;
      reports := reports + 1;
    }

    method ApplyRestartPolicy(r: Round) returns (again: bool)
      requires restarts == |sleeps|
      requires backoff == Backoff(policy, restarts) && sleeps == Backoffs(policy, restarts)
      requires !fatalReported && reports == 0
      modifies `restarts, `backoff, `sleeps, `fatalReported, `reports
      ensures var k := old(restarts);
              var reading := Reading(Js, r);
              && (again <==> reading.Restart? && !Exhausted(policy, k + 1) && r.slept)
              && (fatalReported <==> reading.Fatal? || (reading.Restart? && Exhausted(policy, k + 1)))
              && reports == (if fatalReported then 1 else 0)
              && sleeps == Backoffs(policy, if reading.Restart? && !Exhausted(policy, k + 1) then k + 1 else k)
              && (again ==> restarts == k + 1 && backoff == Backoff(policy, k + 1))
    {
      if r.classifierThrows {
        ReportFatal();
        return false;
      }
      if r.decision.Stop? {
        return false;
      }
      if r.decision.Fatal? {
        ReportFatal();
        return false;
      }
      restarts := restarts + 1;
      if policy.maxRestarts >= 0 && restarts > policy.maxRestarts {
        ReportFatal();
        return false;
      }
      sleeps := sleeps + [backoff];
      if !r.slept {
        return false;
      }
      backoff := Min(backoff * 2, policy.maxBackoff);
      again := true;
    }

    /** The loop over the rounds it meets; past the last one supervision is cancelled. */
    method Supervise(rounds: seq<Round>) returns (ghost n: nat)
      requires Waiting(0)
      modifies `restarts, `backoff, `sleeps, `fatalReported, `reports, `builds
      ensures Supervised(Js, policy, rounds, n, builds, sleeps, fatalReported)
      ensures reports == if fatalReported then 1 else 0
    {
      n := 0;
      for k := 0 to |rounds|
        invariant n == k && Waiting(k)
        invariant forall j :: 0 <= j < k ==> Continues(Js, policy, rounds[j], j)
      {
        var r := rounds[k];
        if r.cancelledBefore {
          return;
        }
        builds := builds + 1;
        if r.cancelledAfter {
          return;
        }
        var again := ApplyRestartPolicy(r);
        if !again {
          return;
        }
        n := n + 1;
      }
    }

    /** Starting twice is refused and changes nothing. */
    method Start(rounds: seq<Round>) returns (r: Result<(), StartError>, ghost n: nat)
      requires supervised || Fresh()
      modifies this
      ensures supervised
      ensures r.Err? <==> old(supervised)
      ensures r.Err? ==> builds == old(builds) && sleeps == old(sleeps) && reports == old(reports)
      ensures r.Ok? ==> Supervised(Js, policy, rounds, n, builds, sleeps, fatalReported)
                        && reports == if fatalReported then 1 else 0
    {
      n := 0;
      if supervised {
        return Err(AlreadyStarted), n;
      }
      supervised := true;
      n := Supervise(rounds);
      r := Ok(());
    }
  }

  /** common/gopkg/bootstrap: the supervisor goroutine's loop, with its counters as locals. */
  class GoDaemon {
    const policy: Policy
    var fatalOnce: bool
    var done: nat
    var builds: nat
    var sleeps: seq<int>

    constructor (policy: Policy)
      ensures this.policy == policy && !fatalOnce && done == 0 && builds == 0 && sleeps == []
    {
      this.policy := policy;
      fatalOnce, done, builds, sleeps := false, 0, 0, [];
    }

    method ReportFatal()
      modifies `fatalOnce, `done
      ensures fatalOnce && done == old(done) + if old(fatalOnce) then 0 else 1
    {
      if !fatalOnce {
        fatalOnce := true;
        done := done + 1;
      }
    }

    /** The policy, updating the caller's counters. */
    method ApplyRestartPolicy(r: Round, restartCount: nat, backoff: int) returns (again: bool, count: nat, next: int)
      requires sleeps == Backoffs(policy, restartCount) && backoff == Backoff(policy, restartCount)
      requires !fatalOnce && done == 0
      modifies `sleeps, `fatalOnce, `done
      ensures var reading := Reading(Go, r);
              && (again <==> reading.Restart? && !Exhausted(policy, restartCount + 1) && r.slept)
              && (fatalOnce <==> reading.Fatal? || (reading.Restart? && Exhausted(policy, restartCount + 1)))
              && done == (if fatalOnce then 1 else 0)
              && sleeps == Backoffs(policy, if reading.Restart? && !Exhausted(policy, restartCount + 1)
                                            then restartCount + 1 else restartCount)
              && (again ==> count == restartCount + 1 && next == Backoff(policy, count))
    {
      again, count, next := false, restartCount, backoff;
      match r.decision {
        case Restart =>
          count := count + 1;
          if policy.maxRestarts >= 0 && count > policy.maxRestarts {
            ReportFatal();
            return;
          }
          sleeps := sleeps + [backoff];
          if !r.slept {
            return;
          }
          next := Min(backoff * 2, policy.maxBackoff);
          again := true;
        case Stop =>
        case Fatal =>
          ReportFatal();
        case Unknown =>
      }
    }

    method Supervise(rounds: seq<Round>) returns (ghost n: nat)
      requires !fatalOnce && done == 0 && builds == 0 && sleeps == []
      modifies `sleeps, `fatalOnce, `done, `builds
      ensures Supervised(Go, policy, rounds, n, builds, sleeps, fatalOnce)
      ensures done == if fatalOnce then 1 else 0
    {
      n := 0;
      var restartCount, backoff := 0, policy.initialBackoff;
      for k := 0 to |rounds|
        invariant n == k == restartCount && builds == k
        invariant backoff == Backoff(policy, k) && sleeps == Backoffs(policy, k)
        invariant !fatalOnce && done == 0
        invariant forall j :: 0 <= j < k ==> Continues(Go, policy, rounds[j], j)
      {
        var r := rounds[k];
        if r.cancelledBefore {
          return;
        }
        builds := builds + 1;
        if r.built && r.cancelledAfter {
          return;
        }
        var again, count, next := ApplyRestartPolicy(r, restartCount, backoff);
        if !again {
          return;
        }
        restartCount, backoff := count, next;
        n := n + 1;
      }
    }
  }
}
