/**
 * The restart policy of a supervised worker: what one round of the loop meets,
 * when the loop goes on, and how long it backs off.
 */
module DaemonModel {

  datatype Decision = Restart | Stop | Fatal | Unknown

  /**
   * What one round of the supervision loop meets: whether supervision is already
   * cancelled, whether a worker could be built, whether supervision is cancelled
   * when the build or the worker ends, the classifier's answer, and whether the
   * backoff elapsed uncancelled.
   */
  datatype Round = Round(cancelledBefore: bool, built: bool, cancelledAfter: bool, decision: Decision,
                         classifierThrows: bool, slept: bool)

  datatype Policy = Policy(initialBackoff: int, maxBackoff: int, maxRestarts: int)

  predicate Exhausted(p: Policy, restarts: nat) {
    p.maxRestarts >= 0 && restarts > p.maxRestarts
  }

  // ------------------------------------------------------------------ backoff

  function Min(a: int, b: int): int {
    if a <= b then a else b
  }

  function Pow2(k: nat): (p: nat)
    ensures p > 0
  {
    if k == 0 then 1 else 2 * Pow2(k - 1)
  }

  /** The k-th backoff as the loop computes it, doubling and capping the one before. */
  function Backoff(p: Policy, k: nat): int {
    if k == 0 then p.initialBackoff else Min(Backoff(p, k - 1) * 2, p.maxBackoff)
  }

  /** The sleeps of the first `n` restarts. */
  function Backoffs(p: Policy, n: nat): (s: seq<int>)
    ensures |s| == n && forall k :: 0 <= k < n ==> s[k] == Backoff(p, k)
  {
    seq(n, k requires 0 <= k < n => Backoff(p, k))
  }

  lemma {:induction false} DoublesUnderCap(p: Policy, k: nat)
    requires p.maxBackoff >= 0 || 2 * p.initialBackoff <= p.maxBackoff
    requires k >= 1
    ensures Backoff(p, k) == Min(p.initialBackoff * Pow2(k), p.maxBackoff)
    decreases k
  {
    assert Pow2(k) == 2 * Pow2(k - 1);
    if k > 1 {
      DoublesUnderCap(p, k - 1);
      CapThenDouble(p.initialBackoff, Pow2(k - 1), p.maxBackoff);
      if p.maxBackoff < 0 {
        NegativeStaysBelow(p, k - 1);
      }
    } else {
      assert Pow2(0) == 1;
    }
  }

  lemma CapThenDouble(i: int, q: nat, m: int)
    ensures i * (2 * q) == 2 * (i * q)
  {
  }

  /** A negative cap that the first doubling respects is never reached. */
  lemma {:induction false} NegativeStaysBelow(p: Policy, k: nat)
    requires p.maxBackoff < 0 && 2 * p.initialBackoff <= p.maxBackoff && k >= 1
    ensures p.initialBackoff * Pow2(k) <= p.maxBackoff
    decreases k
  {
    if k > 1 {
      NegativeStaysBelow(p, k - 1);
      CapThenDouble(p.initialBackoff, Pow2(k - 1), p.maxBackoff);
    } else {
      assert Pow2(0) == 1;
    }
  }

  /**
   * From the second sleep on, the backoff is the initial one doubled k times and
   * capped, exactly when the cap is not negative or already above the doubled
   * initial backoff. The first sleep is the initial backoff, uncapped.
   */
  lemma BackoffFormula(p: Policy)
    ensures (forall k: nat :: k >= 1 ==> Backoff(p, k) == Min(p.initialBackoff * Pow2(k), p.maxBackoff))
        <==> p.maxBackoff >= 0 || 2 * p.initialBackoff <= p.maxBackoff
    ensures Backoff(p, 0) == p.initialBackoff
  {
    if p.maxBackoff >= 0 || 2 * p.initialBackoff <= p.maxBackoff {
      forall k: nat | k >= 1 ensures Backoff(p, k) == Min(p.initialBackoff * Pow2(k), p.maxBackoff) {
        DoublesUnderCap(p, k);
      }
    } else {
      assert Pow2(0) == 1 && Pow2(1) == 2 && Pow2(2) == 4;
      assert Backoff(p, 0) == p.initialBackoff;
      assert Backoff(p, 1) == p.maxBackoff;
      assert Backoff(p, 2) == 2 * p.maxBackoff;
      assert Min(p.initialBackoff * Pow2(2), p.maxBackoff) >= Min(4 * p.initialBackoff, p.maxBackoff);
      assert Backoff(p, 2) != Min(p.initialBackoff * Pow2(2), p.maxBackoff);
    }
  }

  // ---------------------------------------------------------- 64-bit durations

  const TWO_TO_THE_62: int := 0x4000_0000_0000_0000
  const TWO_TO_THE_63: int := 0x8000_0000_0000_0000

  /** A 64-bit two's complement duration. */
  function Wrapped(x: int): (w: int)
    ensures -TWO_TO_THE_63 <= w < TWO_TO_THE_63
    ensures (x - w) % (2 * TWO_TO_THE_63) == 0
  {
    var r := x % (2 * TWO_TO_THE_63);
    if r < TWO_TO_THE_63 then r else r - 2 * TWO_TO_THE_63
  }

  /** The k-th backoff in 64-bit arithmetic. */
  function WrappedBackoff(p: Policy, k: nat): int {
    if k == 0 then p.initialBackoff else Min(Wrapped(WrappedBackoff(p, k - 1) * 2), p.maxBackoff)
  }

  /** Doubling cannot overflow when both bounds are non-negative and below 2^62. */
  lemma {:induction false} DoublingDoesNotOverflow(p: Policy, k: nat)
    requires 0 <= p.initialBackoff < TWO_TO_THE_62 && 0 <= p.maxBackoff < TWO_TO_THE_62
    ensures WrappedBackoff(p, k) == Backoff(p, k)
    ensures 0 <= Backoff(p, k) < TWO_TO_THE_62
    decreases k
  {
    if k > 0 {
      DoublingDoesNotOverflow(p, k - 1);
      WrapsNothing(Backoff(p, k - 1) * 2);
    }
  }

  lemma WrapsNothing(x: int)
    requires -TWO_TO_THE_63 <= x < TWO_TO_THE_63
    ensures Wrapped(x) == x
  {
  }

  lemma {:induction false} ZeroStaysZero(p: Policy, k: nat)
    requires p.initialBackoff == 0 && p.maxBackoff >= 0
    ensures Backoff(p, k) == WrappedBackoff(p, k) == 0
    decreases k
  {
    if k > 0 {
      ZeroStaysZero(p, k - 1);
      WrapsNothing(0);
    }
  }

  /** A positive backoff grows past 2^62 when the cap lets it. */
  lemma {:induction false} BackoffGrows(p: Policy, k: nat)
    requires p.initialBackoff >= 1 && p.maxBackoff >= TWO_TO_THE_62
    ensures Backoff(p, k) >= Min(TWO_TO_THE_62, p.initialBackoff + k)
    decreases k
  {
    if k > 0 {
      BackoffGrows(p, k - 1);
    }
  }

  /** Doubling a backoff in [2^62, 2^63) turns it negative in 64 bits, and in 64 bits only. */
  lemma OverflowsAfter(p: Policy, k: nat)
    requires p.maxBackoff >= 0 && TWO_TO_THE_62 <= Backoff(p, k) < TWO_TO_THE_63
    ensures WrappedBackoff(p, k) == Backoff(p, k) ==> WrappedBackoff(p, k + 1) < 0 <= Backoff(p, k + 1)
  {
    var x := Backoff(p, k);
    assert Wrapped(x * 2) == x * 2 - 2 * TWO_TO_THE_63;
  }

  ghost predicate NeverOverflows(p: Policy) {
    forall k: nat :: WrappedBackoff(p, k) == Backoff(p, k)
  }

  /** One of the backoffs is too large to double. */
  lemma {:induction false} TooLargeToDouble(p: Policy) returns (k: nat)
    requires 0 < p.initialBackoff < TWO_TO_THE_63 && 0 <= p.maxBackoff < TWO_TO_THE_63
    requires p.initialBackoff >= TWO_TO_THE_62 || p.maxBackoff >= TWO_TO_THE_62
    ensures TWO_TO_THE_62 <= Backoff(p, k) < TWO_TO_THE_63
  {
    if p.initialBackoff >= TWO_TO_THE_62 {
      k := 0;
    } else {
      k := TWO_TO_THE_62;
      BackoffGrows(p, k);
    }
  }

  /**
   * For durations that fit, 64-bit doubling is the unbounded doubling exactly
   * when the initial backoff is zero or both bounds are below 2^62.
   */
  lemma {:induction false} NeverOverflowsIff(p: Policy)
    requires 0 <= p.initialBackoff < TWO_TO_THE_63 && 0 <= p.maxBackoff < TWO_TO_THE_63
    ensures NeverOverflows(p) <==>
            p.initialBackoff == 0 || (p.initialBackoff < TWO_TO_THE_62 && p.maxBackoff < TWO_TO_THE_62)
  {
    if p.initialBackoff == 0 {
      forall k: nat ensures WrappedBackoff(p, k) == Backoff(p, k) {
        ZeroStaysZero(p, k);
      }
    } else if p.initialBackoff < TWO_TO_THE_62 && p.maxBackoff < TWO_TO_THE_62 {
      forall k: nat ensures WrappedBackoff(p, k) == Backoff(p, k) {
        DoublingDoesNotOverflow(p, k);
      }
    } else {
      var k := TooLargeToDouble(p);
      OverflowsAfter(p, k);
      assert WrappedBackoff(p, k) != Backoff(p, k) || WrappedBackoff(p, k + 1) != Backoff(p, k + 1);
    }
  }

  // ------------------------------------------------------------------- the loop

  /** The two supervisors differ in when they notice a cancellation and in unknown decisions. */
  datatype Dialect = Js | Go

  predicate CutShort(d: Dialect, r: Round) {
    r.cancelledBefore || (r.cancelledAfter && (r.built || d.Js?))
  }

  /** The classifier's answer as the loop reads it. */
  function Reading(d: Dialect, r: Round): Decision {
    if d.Js? && r.classifierThrows then Fatal
    else if r.decision.Unknown? then (if d.Js? then Restart else Stop)
    else r.decision
  }

  /** Round number `k`, reached after `k` restarts, ends in another restart. */
  predicate Continues(d: Dialect, p: Policy, r: Round, k: nat) {
    !CutShort(d, r) && Reading(d, r).Restart? && !Exhausted(p, k + 1) && r.slept
  }

  /** Round number `k` ends in a fatal report. */
  predicate EndsFatally(d: Dialect, p: Policy, r: Round, k: nat) {
    && !CutShort(d, r)
    && (Reading(d, r).Fatal? || (Reading(d, r).Restart? && Exhausted(p, k + 1)))
  }

  /** Round number `k` begins a backoff. */
  predicate Sleeps(d: Dialect, p: Policy, r: Round, k: nat) {
    !CutShort(d, r) && Reading(d, r).Restart? && !Exhausted(p, k + 1)
  }

  /**
   * What a supervision did: all rounds before the n-th ended in a restart, and
   * the n-th (if supervision was not cancelled first) did not.
   */
  ghost predicate Supervised(d: Dialect, p: Policy, rounds: seq<Round>, n: nat, builds: nat, sleeps: seq<int>,
                             fatal: bool) {
    && n <= |rounds|
    && (forall k :: 0 <= k < n ==> Continues(d, p, rounds[k], k))
    && (n < |rounds| ==> !Continues(d, p, rounds[n], n))
    && builds == n + (if n < |rounds| && !rounds[n].cancelledBefore then 1 else 0)
    && sleeps == Backoffs(p, n + if n < |rounds| && Sleeps(d, p, rounds[n], n) then 1 else 0)
    && (fatal <==> n < |rounds| && EndsFatally(d, p, rounds[n], n))
  }

  /** Supervision is cancelled before the round, or when its worker ends; javascript also looks when a build fails. */
  predicate Cancelled(d: Dialect, r: Round) {
    match d
    case Js => r.cancelledBefore || r.cancelledAfter
    case Go => r.cancelledBefore || (r.built && r.cancelledAfter)
  }

  /** The classifier asks for a restart; javascript reads an unknown answer as one, Go as a stop. */
  predicate AsksRestart(d: Dialect, r: Round) {
    match d
    case Js => !r.classifierThrows && (r.decision == Restart || r.decision == Unknown)
    case Go => r.decision == Restart
  }

  /** The classifier calls the end fatal; in javascript a classifier that throws does. */
  predicate AsksFatal(d: Dialect, r: Round) {
    match d
    case Js => r.classifierThrows || r.decision == Fatal
    case Go => r.decision == Fatal
  }

  /**
   * A supervision, round by round: every round before the last asked for a restart
   * and slept its backoff out; the last is cancelled, or asks for a stop, or is
   * fatal, or asks for a restart that is cut off or beyond the limit. It is
   * reported as fatal exactly when it is called fatal or is beyond the limit.
   */
  lemma {:induction false} SupervisionIs(d: Dialect, p: Policy, rounds: seq<Round>, n: nat, builds: nat,
                                         sleeps: seq<int>, fatal: bool)
    requires Supervised(d, p, rounds, n, builds, sleeps, fatal)
    ensures forall k :: 0 <= k < n ==>
              !Cancelled(d, rounds[k]) && AsksRestart(d, rounds[k]) && rounds[k].slept
    ensures n == |rounds| ==> !fatal && builds == n && |sleeps| == n
    ensures n < |rounds| ==>
              var r := rounds[n];
              var beyond := 0 <= p.maxRestarts <= n;
              && builds == n + (if r.cancelledBefore then 0 else 1)
              && (fatal <==> !Cancelled(d, r) && (AsksFatal(d, r) || (AsksRestart(d, r) && beyond)))
              && |sleeps| == n + (if !Cancelled(d, r) && AsksRestart(d, r) && !beyond then 1 else 0)
              && (|sleeps| == n + 1 ==> !r.slept)
  {
    forall k | 0 <= k < n ensures !Cancelled(d, rounds[k]) && AsksRestart(d, rounds[k]) && rounds[k].slept {
      assert Continues(d, p, rounds[k], k);
    }
  }

  /** A restart limit M bounds the builds by M + 1 and the backoffs by M, under any classifier. */
  lemma RestartsAreBounded(d: Dialect, p: Policy, rounds: seq<Round>, n: nat, builds: nat, sleeps: seq<int>,
                           fatal: bool)
    requires Supervised(d, p, rounds, n, builds, sleeps, fatal) && p.maxRestarts >= 0
    ensures builds <= p.maxRestarts + 1 && |sleeps| <= p.maxRestarts
  {
    if n > 0 {
      assert Continues(d, p, rounds[n - 1], n - 1);
    }
  }

  /**
   * A worker that always crashes and never stops being supervised uses its limit
   * up: exactly M restarts and M + 1 builds, then the fatal report. A negative
   * limit is never used up.
   */
  lemma {:induction false} CrashLoopUsesTheLimit(d: Dialect, p: Policy, rounds: seq<Round>, n: nat, builds: nat,
                                                 sleeps: seq<int>, fatal: bool)
    requires Supervised(d, p, rounds, n, builds, sleeps, fatal)
    requires forall k :: 0 <= k < |rounds| ==>
               !CutShort(d, rounds[k]) && Reading(d, rounds[k]).Restart? && rounds[k].slept
    ensures fatal <==> 0 <= p.maxRestarts < |rounds|
    ensures |sleeps| == (if fatal then p.maxRestarts else |rounds|)
    ensures builds == |sleeps| + if fatal then 1 else 0
  {
    if n > 0 {
      assert Continues(d, p, rounds[n - 1], n - 1);
    }
    if n < |rounds| {
      assert !Continues(d, p, rounds[n], n);
    }
  }
}
