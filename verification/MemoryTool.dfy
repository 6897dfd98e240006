/**
 * The memory tool's batch against the service: one listing, the preflight loop,
 * and the commit loop without a transaction.
 */
module MemoryTool {
  import opened StoreSeam
  import opened Wrappers
  import opened Texts
  import opened MemoryPlan
  import opened MemoryOps
  import opened AppliedPositions

  lemma {:induction false} ListOne(listed: seq<Entry>, all: Store, rest: set<string>, id: string)
    requires id in rest && rest <= all.Keys && Lists(listed, all - rest)
    ensures Lists(listed + [Entry(id, all[id])], all - (rest - {id}))
  {
    assert !HasId(listed, id);
    AddStep(listed, all - rest, id, all[id], 0);
    assert all - (rest - {id}) == (all - rest)[id := all[id]];
  }

  /** One scope's collection behind the storage seam. */
  class MemoryService {
    var entries: Store

    constructor ()
      ensures entries == map[]
    {
      entries := map[];
    }

    /** Every entry once, in whatever order the service picks; or an outage. */
    method List() returns (r: Result<seq<Entry>, RpcError>)
      ensures r.Ok? ==> Lists(r.value, entries)
      ensures r.Err? ==> r.error == Outage
    {
      var down: bool := *;
      if down {
        return Err(Outage);
      }
      var all := entries;
      var listed: seq<Entry> := [];
      var rest := all.Keys;
      while rest != {}
        invariant rest <= all.Keys && Lists(listed, all - rest)
        decreases |rest|
      {
        var id :| id in rest;
        ListOne(listed, all, rest, id);
        listed := listed + [Entry(id, all[id])];
        rest := rest - {id};
      }
      assert all - {} == all;
      r := Ok(listed);
    }

    /** One write: the service may reject it, or the call may fail before or after taking effect. */
    method Perform(w: Write) returns (r: Result<(), RpcError>)
      modifies this
      ensures r.Ok? ==> Apply(old(entries), w) == Some(entries)
      ensures r.Err? && r.error != Outage ==> Apply(old(entries), w).None? && entries == old(entries)
      ensures r == Err(Outage) ==> entries == old(entries) || Apply(old(entries), w) == Some(entries)
      ensures r == Err(AlreadyExists) ==> w.Create?
      ensures r == Err(NotFound) ==> !w.Create?
    {
      var down, late: bool := *, *;
      if down {
        if late && Apply(entries, w).Some? {
          entries := Apply(entries, w).value;
        }
        return Err(Outage);
      }
      var after := Apply(entries, w);
      if after.None? {
        return Err(if w.Create? then AlreadyExists else NotFound);
      }
      entries := after.value;
      r := Ok(());
    }
  }

  datatype BatchOutcome =
    | EmptyBatch
    | Unavailable
    | Refused(rejection: Rejection)
    | Applied(count: nat)
    | Interrupted(error: RpcError, applied: Option<string>)

  /** The 1-based positions of the operations behind a prefix of the writes. */
  function PositionsOf(writes: seq<Write>): (p: seq<nat>)
    ensures |p| == |writes| && forall i :: 0 <= i < |p| ==> p[i] == writes[i].opIndex + 1
  {
    seq(|writes|, i requires 0 <= i < |writes| => writes[i].opIndex + 1)
  }

  /** The preflight loop: every operation against the working copy its predecessors left. */
  method RunPreflight(entries: seq<Entry>, ops: seq<Order>, digest: string -> string)
    returns (r: Result<Plan, Rejection>)
    ensures r == Preflight(entries, ops, digest)
  {
    var working := entries;
    var writes: seq<Write> := [];
    for i := 0 to |ops|
      invariant Preflight(entries, ops[..i], digest) == Ok(Plan(working, writes))
    {
      var next := ops[..i + 1];
      assert next[..i] == ops[..i] && next[i] == ops[i];
      var c := Decide(working, ops[i], digest);
      if c.Err? {
        RefusalStands(entries, ops, i + 1, digest);
        return Err(Rejection(i + 1, c.error));
      }
      writes := writes + Queued(working, c.value, i);
      working := Changed(working, c.value);
    }
    assert ops[..|ops|] == ops;
    r := Ok(Plan(working, writes));
  }

  lemma ReplaySnoc(s: Store, writes: seq<Write>, k: nat)
    requires k < |writes| && Replay(s, writes[..k]).Some?
    ensures Replay(s, writes[..k + 1]) == Apply(Replay(s, writes[..k]).value, writes[k])
  {
    assert writes[..k + 1][..k] == writes[..k];
  }

  /** The store holds the first `k` writes, or one more when the reply to that one was lost. */
  predicate HoldsPrefix(s: Store, before: Store, writes: seq<Write>, k: nat)
    requires k < |writes|
  {
    || Replay(before, writes[..k]) == Some(s)
    || Replay(before, writes[..k + 1]) == Some(s)
  }

  /** The commit loop: `done` writes are in place when it stops. */
  method Commit(service: MemoryService, writes: seq<Write>) returns (done: nat, r: Result<(), RpcError>)
    modifies service
    ensures done <= |writes|
    ensures r.Ok? ==> done == |writes| && Replay(old(service.entries), writes) == Some(service.entries)
    ensures r.Err? ==> done < |writes| && Replay(old(service.entries), writes[..done]).Some?
                       && HoldsPrefix(service.entries, old(service.entries), writes, done)
    ensures r.Err? && r.error != Outage ==> Replay(old(service.entries), writes[..done + 1]).None?
  {
    done := 0;
    while done < |writes|
      invariant done <= |writes|
      invariant Replay(old(service.entries), writes[..done]) == Some(service.entries)
    {
      ReplaySnoc(old(service.entries), writes, done);
      var result := service.Perform(writes[done]);
      if result.Err? {
        return done, Err(result.error);
      }
      done := done + 1;
    }
    assert writes[..done] == writes;
    r := Ok(());
  }

  lemma {:induction false} PrefixOfReplay(s: Store, writes: seq<Write>, k: nat)
    requires k <= |writes| && Replay(s, writes[..k]).None?
    ensures Replay(s, writes).None?
  {
    assert writes == writes[..k] + writes[k..];
    ReplayAppend(s, writes[..k], writes[k..]);
  }

  /** The report names the first `done` of the writes, in runs that cannot be joined; nothing when there is none. */
  ghost predicate Names(report: Option<string>, writes: seq<Write>, done: nat)
    requires done <= |writes|
  {
    match report
    case None => done == 0
    case Some(text) =>
      && done > 0
      && Read(text) == PositionsOf(writes[..done])
      && Describes(text, PositionsOf(writes[..done]))
  }

  /** The commit phase with its report. */
  method CommitAndReport(service: MemoryService, writes: seq<Write>)
    returns (outcome: BatchOutcome, ghost done: nat)
    modifies service
    ensures outcome.Applied? || outcome.Interrupted?
    ensures outcome.Applied? ==>
              outcome.count == |writes| && Replay(old(service.entries), writes) == Some(service.entries)
    ensures outcome.Interrupted? ==>
              && done < |writes|
              && HoldsPrefix(service.entries, old(service.entries), writes, done)
              && Names(outcome.applied, writes, done)
              && (outcome.error != Outage ==> Replay(old(service.entries), writes).None?)
  {
    var count, r := Commit(service, writes);
    done := count;
    if r.Ok? {
      return Applied(|writes|), done;
    }
    if r.error != Outage {
      PrefixOfReplay(old(service.entries), writes, done + 1);
    }
    if count == 0 {
      return Interrupted(r.error, None), done;
    }
    var text := FormatAppliedPositions(PositionsOf(writes[..count]));
    return Interrupted(r.error, Some(text)), done;
  }

  /** What an interrupted batch leaves and reports. */
  ghost predicate Stopped(plan: Plan, done: nat, report: Option<string>, before: Store, after: Store) {
    done < |plan.writes| && HoldsPrefix(after, before, plan.writes, done) && Names(report, plan.writes, done)
  }

  /**
   * A batch call. Refused, it writes nothing. Applied, the collection is the
   * working copy. Interrupted, the collection holds a prefix of the planned
   * writes, and the reported text reads back as the positions of the operations
   * it confirms; without an outage only a digest collision interrupts.
   */
  method ApplyBatch(service: MemoryService, ops: seq<MemoryOp>, digest: string -> string)
    returns (outcome: BatchOutcome, ghost listed: seq<Entry>, ghost done: nat)
    modifies service
    ensures outcome.EmptyBatch? <==> ops == []
    ensures outcome.EmptyBatch? || outcome.Unavailable? || outcome.Refused? ==> service.entries == old(service.entries)
    ensures !outcome.EmptyBatch? && !outcome.Unavailable? ==> Lists(listed, old(service.entries))
    ensures outcome.Refused? ==> FirstRefused(listed, ops, outcome.rejection.position, digest)
    ensures outcome.Applied? ==> exists last :: BatchAccepted(listed, ops, last, digest) && Lists(last, service.entries)
    ensures outcome.Interrupted? ==> exists last :: BatchAccepted(listed, ops, last, digest)
    ensures outcome.Refused? ==> Preflight(listed, OrdersOf(ops), digest) == Err(outcome.rejection)
    ensures outcome.Applied? || outcome.Interrupted? ==> Preflight(listed, OrdersOf(ops), digest).Ok?
    ensures outcome.Applied? ==>
              var plan := Preflight(listed, OrdersOf(ops), digest).value;
              outcome.count == |plan.writes| && Lists(plan.working, service.entries)
    ensures outcome.Interrupted? ==>
              Stopped(Preflight(listed, OrdersOf(ops), digest).value, done, outcome.applied, old(service.entries), service.entries)
    ensures outcome.Interrupted? && outcome.error != Outage ==> !NoCollision(listed, OrdersOf(ops), digest)
  {
    listed, done := [], 0;
    if |ops| == 0 {
      return EmptyBatch, listed, done;
    }
    var listing := service.List();
    if listing.Err? {
      return Unavailable, listed, done;
    }
    listed := listing.value;
    var orders := OrdersOf(ops);
    var plan := RunPreflight(listing.value, orders, digest);
    PreflightAccepts(listed, ops, digest);
    if plan.Err? {
      return Refused(plan.error), listed, done;
    }
    BatchReplays(listed, service.entries, orders, digest);
    outcome, done := CommitAndReport(service, plan.value.writes);
  }

  /** The positions an interrupted batch reports are strictly increasing positions of the batch. */
  lemma ReportedPositionsIncrease(entries: seq<Entry>, s: Store, ops: seq<Order>, digest: string -> string, k: nat)
    requires Lists(entries, s) && Preflight(entries, ops, digest).Ok?
    requires k <= |Preflight(entries, ops, digest).value.writes|
    ensures var p := PositionsOf(Preflight(entries, ops, digest).value.writes[..k]);
            && (forall i :: 0 <= i < |p| ==> 1 <= p[i] <= |ops|)
            && (forall i, j :: 0 <= i < j < |p| ==> p[i] < p[j])
  {
    BatchReplays(entries, s, ops, digest);
  }

  // ----------------------------------------------------- a single add, raced

  /** What another writer of the same tool does to the collection. */
  datatype Rival = Adds(content: string) | Rewrites(id: string, content: string) | Erases(id: string)

  function RivalWrite(w: Rival, digest: string -> string): Write {
    match w
    case Adds(content) => Create(digest(content), content, 0)
    case Rewrites(id, content) => Update(id, content, 0)
    case Erases(id) => Delete(id, 0)
  }

  /** The collection after the rivals' writes; one the service rejects changes nothing. */
  function After(s: Store, rivals: seq<Rival>, digest: string -> string): Store {
    if rivals == [] then s
    else
      var t := After(s, rivals[..|rivals| - 1], digest);
      Apply(t, RivalWrite(rivals[|rivals| - 1], digest)).GetOr(t)
  }

  predicate Holds(s: Store, text: string) {
    exists id :: id in s && s[id] == text
  }

  datatype AddReport = Created | Duplicate

  /** The report of an add that lists `s` and creates after the rivals' writes. */
  function RacedAdd(s: Store, rivals: seq<Rival>, text: string, digest: string -> string): AddReport {
    if Holds(s, text) then Duplicate
    else if digest(text) in After(s, rivals, digest) then Duplicate
    else Created
  }

  /** The text was in the collection at some moment between the listing and the end of the call. */
  ghost predicate HeldDuring(s: Store, rivals: seq<Rival>, text: string, digest: string -> string) {
    || (exists n :: 0 <= n <= |rivals| && Holds(After(s, rivals[..n], digest), text))
    || RacedAdd(s, rivals, text, digest) == Created
  }

  /** The rivals put `text` into the collection at some moment. */
  ghost predicate Surfaces(s: Store, rivals: seq<Rival>, text: string, digest: string -> string) {
    exists n :: 0 <= n <= |rivals| && Holds(After(s, rivals[..n], digest), text)
  }

  /**
   * While the text never surfaces, the id it would get is live after the rivals'
   * writes exactly when it was live before them and nobody erased it.
   */
  lemma {:induction false} IdStaysLive(s: Store, rivals: seq<Rival>, text: string, digest: string -> string)
    requires Injective(digest) && !Surfaces(s, rivals, text, digest)
    ensures digest(text) in After(s, rivals, digest) <==>
              digest(text) in s && Erases(digest(text)) !in rivals
  {
    IdStaysLiveUpTo(s, rivals, |rivals|, text, digest);
    assert rivals[..|rivals|] == rivals;
  }

  lemma {:induction false} IdStaysLiveUpTo(s: Store, rivals: seq<Rival>, n: nat, text: string,
                                           digest: string -> string)
    requires n <= |rivals| && Injective(digest) && !Surfaces(s, rivals, text, digest)
    ensures digest(text) in After(s, rivals[..n], digest) <==>
              digest(text) in s && Erases(digest(text)) !in rivals[..n]
    decreases n
  {
    if n == 0 {
      assert rivals[..0] == [];
    } else {
      IdStaysLiveUpTo(s, rivals, n - 1, text, digest);
      AfterStep(s, rivals, n - 1, digest);
      assert !Holds(After(s, rivals[..n], digest), text);
      IdStaysLiveStep(After(s, rivals[..n - 1], digest), rivals[n - 1], text, digest);
      OneMoreRival(rivals, n, Erases(digest(text)));
    }
  }

  lemma OneMoreRival(rivals: seq<Rival>, n: nat, w: Rival)
    requires 0 < n <= |rivals|
    ensures w in rivals[..n] <==> w in rivals[..n - 1] || w == rivals[n - 1]
  {
    assert rivals[..n] == rivals[..n - 1] + [rivals[n - 1]];
  }

  /** One write that does not bring the text keeps its id live unless it erases it, and does not make it live. */
  lemma {:induction false} IdStaysLiveStep(t: Store, w: Rival, text: string, digest: string -> string)
    requires Injective(digest) && !Holds(Apply(t, RivalWrite(w, digest)).GetOr(t), text)
    ensures digest(text) in Apply(t, RivalWrite(w, digest)).GetOr(t) <==>
              digest(text) in t && w != Erases(digest(text))
  {
  }

  /** Some rival rewrites a live entry to `text`. */
  ghost predicate Restored(s: Store, rivals: seq<Rival>, text: string, digest: string -> string) {
    exists n :: 0 <= n < |rivals| && Restores(After(s, rivals[..n], digest), rivals[n], text)
  }

  predicate Restores(s: Store, w: Rival, text: string) {
    w.Rewrites? && w.content == text && w.id in s
  }

  lemma {:induction false} AfterStep(s: Store, rivals: seq<Rival>, n: nat, digest: string -> string)
    requires n < |rivals|
    ensures var t := After(s, rivals[..n], digest);
            After(s, rivals[..n + 1], digest) == Apply(t, RivalWrite(rivals[n], digest)).GetOr(t)
  {
    assert rivals[..n + 1][..n] == rivals[..n];
  }

  /** With its id taken by another text throughout, the text cannot surface but by a rewrite. */
  lemma {:induction false} TakenIdKeepsTextOut(s: Store, rivals: seq<Rival>, n: nat, text: string,
                                               digest: string -> string)
    requires n <= |rivals| && digest(text) in s && !Holds(s, text)
    requires Erases(digest(text)) !in rivals && !Restored(s, rivals, text, digest)
    ensures digest(text) in After(s, rivals[..n], digest) && !Holds(After(s, rivals[..n], digest), text)
    decreases n
  {
    if n == 0 {
      assert rivals[..0] == [];
    } else {
      TakenIdKeepsTextOut(s, rivals, n - 1, text, digest);
      AfterStep(s, rivals, n - 1, digest);
      assert !Restores(After(s, rivals[..n - 1], digest), rivals[n - 1], text);
      assert rivals[n - 1] != Erases(digest(text));
    }
  }

  lemma {:induction false} RestoredSurfaces(s: Store, rivals: seq<Rival>, text: string, digest: string -> string)
    ensures Restored(s, rivals, text, digest) ==> Surfaces(s, rivals, text, digest)
  {
    if Restored(s, rivals, text, digest) {
      var n :| 0 <= n < |rivals| && Restores(After(s, rivals[..n], digest), rivals[n], text);
      AfterStep(s, rivals, n, digest);
      assert After(s, rivals[..n + 1], digest)[rivals[n].id] == text;
      assert Holds(After(s, rivals[..n + 1], digest), text);
    }
  }

  /**
   * An add's success report is false exactly when the collection it listed lacks
   * the text although the text's digest id is live (a replace rewrote that
   * entry), and before the create nobody erases that entry or rewrites one back.
   */
  lemma FalseReportIff(s: Store, rivals: seq<Rival>, text: string, digest: string -> string)
    requires Injective(digest)
    ensures !HeldDuring(s, rivals, text, digest) <==>
              && digest(text) in s && !Holds(s, text)
              && Erases(digest(text)) !in rivals && !Restored(s, rivals, text, digest)
  {
    assert rivals[..0] == [] && rivals[..|rivals|] == rivals;
    RestoredSurfaces(s, rivals, text, digest);
    if !HeldDuring(s, rivals, text, digest) {
      assert !Holds(After(s, rivals[..0], digest), text);
      IdStaysLive(s, rivals, text, digest);
    } else if digest(text) in s && !Holds(s, text)
              && Erases(digest(text)) !in rivals && !Restored(s, rivals, text, digest) {
      forall n | 0 <= n <= |rivals| ensures !Holds(After(s, rivals[..n], digest), text) {
        TakenIdKeepsTextOut(s, rivals, n, text, digest);
      }
      TakenIdKeepsTextOut(s, rivals, |rivals|, text, digest);
      assert false;
    }
  }

  /** Since the live entry `id` was created, a replace rewrote it. */
  predicate Rewritten(history: seq<Rival>, id: string, digest: string -> string) {
    history != [] &&
    var init, last := history[..|history| - 1], history[|history| - 1];
    match last
    case Rewrites(i, _) => i == id || Rewritten(init, id, digest)
    case Erases(i) => i != id && Rewritten(init, id, digest)
    case Adds(content) =>
      Rewritten(init, id, digest) && (digest(content) == id ==> id in After(map[], init, digest))
  }

  /** In a collection the tool built, an entry no replace rewrote holds the text its id is the digest of. */
  lemma {:induction false} UnrewrittenHoldsItsText(history: seq<Rival>, text: string, digest: string -> string)
    requires Injective(digest) && !Rewritten(history, digest(text), digest)
    ensures digest(text) in After(map[], history, digest) ==> After(map[], history, digest)[digest(text)] == text
    decreases |history|
  {
    if history != [] {
      var init, last := history[..|history| - 1], history[|history| - 1];
      if !Rewritten(init, digest(text), digest) {
        UnrewrittenHoldsItsText(init, text, digest);
      }
    }
  }

  /** A success report is true, whatever the rivals do, unless a replace rewrote the entry owning the digest id. */
  lemma AddReportsTruthfully(history: seq<Rival>, rivals: seq<Rival>, text: string, digest: string -> string)
    requires Injective(digest) && !Rewritten(history, digest(text), digest)
    ensures HeldDuring(After(map[], history, digest), rivals, text, digest)
  {
    var s := After(map[], history, digest);
    UnrewrittenHoldsItsText(history, text, digest);
    FalseReportIff(s, rivals, text, digest);
  }

  /** Left alone, a rewritten entry makes the report false: the add claims a duplicate of a text nobody holds. */
  lemma RewrittenEntryFalsifies(a: string, b: string, digest: string -> string)
    requires Injective(digest) && a != b
    ensures var history := [Adds(a), Rewrites(digest(a), b)];
            var s := After(map[], history, digest);
            RacedAdd(s, [], a, digest) == Duplicate && !HeldDuring(s, [], a, digest)
  {
    var history := [Adds(a), Rewrites(digest(a), b)];
    AfterStep(map[], history, 0, digest);
    AfterStep(map[], history, 1, digest);
    assert history[..0] == [] && history[..2] == history;
    assert After(map[], history, digest) == map[digest(a) := b];
    FalseReportIff(map[digest(a) := b], [], a, digest);
  }
}
