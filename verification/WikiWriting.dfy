/** wiki_write: the preflight that resolves every target, then the commit without a transaction. */
module WikiWriting {
  import opened StoreSeam
  import opened Wrappers
  import opened ResourceNames
  import opened WikiPlan
  import opened WikiTool
  import opened WikiEntries

  datatype WriteArgs = WriteArgs(title: Option<string>, content: Option<string>, entries: Option<seq<WriteEntry>>)

  datatype Outcome =
    | AmbiguousArgs
    | MissingArgs
    | EmptyEntries
    | Unavailable
    | Refused(position: nat, reason: Reason)
    | Written(writes: seq<WikiWrite>)
    | Interrupted(error: RpcError, written: seq<string>)

  /** The call's entries: the batch as given, or the single form as a batch of one. */
  function EntriesOf(args: WriteArgs): seq<WriteEntry> {
    if args.entries.Some? then args.entries.value else [WriteEntry(args.title, args.content)]
  }

  function ItemsOf(entries: seq<WriteEntry>): (items: seq<Item>)
    ensures |items| == |entries| && forall i :: 0 <= i < |items| ==> items[i] == ItemOf(entries[i])
  {
    seq(|entries|, i requires 0 <= i < |entries| => ItemOf(entries[i]))
  }

  /** The first refused item is the one at the 1-based position. */
  predicate FirstRefused(items: seq<Item>, position: nat, reason: Reason) {
    && 1 <= position <= |items|
    && (forall i :: 0 <= i < position - 1 ==> Refusal(items[i]).None?) && Refusal(items[position - 1]) == Some(reason)
  }

  predicate AllAccepted(items: seq<Item>) {
    forall i :: 0 <= i < |items| ==> Refusal(items[i]).None?
  }

  lemma AcceptedSnoc(items: seq<Item>, i: nat)
    requires i < |items| && AllAccepted(items[..i]) && Refusal(items[i]).None?
    ensures AllAccepted(items[..i + 1])
  {
    forall j | 0 <= j < i ensures Refusal(items[j]).None? {
      assert items[..i][j] == items[j];
    }
  }

  /** The collection can be addressed by normalised title, and the two functions are what the source relies on. */
  ghost predicate Ready(service: WikiService, digest: string -> string)
    reads service
  {
    && UniqueTitles(service.wikis, service.norm) && SlashFree(service.wikis)
    && Idempotent(service.norm) && Injective(digest)
  }

  lemma {:induction false} PlanSnoc(s: Wikis, items: seq<Item>, i: nat, norm: string -> string, digest: string -> string)
    requires i < |items|
    ensures PlanAll(s, items[..i + 1], norm, digest) == PlanEntry(PlanAll(s, items[..i], norm, digest), s, items[i], norm, digest)
  {
    assert items[..i + 1][..i] == items[..i];
  }

  /** The hit a unique collection resolves to is the one the plan uses. */
  lemma ResolvedHit(s: Wikis, id: string, n: string, norm: string -> string)
    requires UniqueTitles(s, norm) && Carries(s, id, n, norm)
    ensures Resolved(s, n, norm) == Some(id)
  {
    assert HasTitle(s, n, norm);
  }

  /** One accepted item: planned before, found in the collection, or new. */
  method PlanItem(service: WikiService, plan: Plan, item: Item, digest: string -> string)
    returns (r: Result<Plan, RpcError>)
    requires Ready(service, digest)
    ensures r.Ok? ==> r.value == PlanEntry(plan, service.wikis, item, service.norm, digest)
  {
    var norm := service.norm(item.title);
    if norm in plan.planned {
      return Ok(plan.(writes := plan.writes + [UpdateWiki(plan.planned[norm], item.title, item.content)]));
    }
    var hit := ResolveWiki(service, item.title);
    if hit.Err? {
      return Err(hit.error);
    }
    if hit.value.None? {
      var id := digest(norm);
      return Ok(Plan(plan.writes + [CreateWiki(id, item.title, item.content)], plan.planned[norm := id]));
    }
    var id := ParseName(hit.value.value.name);
    ResolvedHit(service.wikis, id, norm, service.norm);
    r := Ok(Plan(plan.writes + [UpdateWiki(id, item.title, item.content)], plan.planned[norm := id]));
  }

  /** The preflight loop. It only reads the collection. */
  method Preflight(service: WikiService, items: seq<Item>, digest: string -> string)
    returns (r: Result<Plan, Outcome>)
    requires Ready(service, digest)
    ensures r.Ok? ==> AllAccepted(items) && r.value == PlanAll(service.wikis, items, service.norm, digest)
    ensures r.Err? ==> r.error.Refused? || r.error.Unavailable?
    ensures r.Err? && r.error.Refused? ==> FirstRefused(items, r.error.position, r.error.reason)
  {
    var plan := Plan([], map[]);
    for i := 0 to |items|
      invariant AllAccepted(items[..i])
      invariant plan == PlanAll(service.wikis, items[..i], service.norm, digest)
    {
      var reason := Refusal(items[i]);
      if reason.Some? {
        return Err(Refused(i + 1, reason.value));
      }
      AcceptedSnoc(items, i);
      PlanSnoc(service.wikis, items, i, service.norm, digest);
      var next := PlanItem(service, plan, items[i], digest);
      if next.Err? {
        return Err(Unavailable);
      }
      plan := next.value;
    }
    assert items[..|items|] == items;
    r := Ok(plan);
  }

  lemma {:induction false} ReplaySnoc(s: Wikis, writes: seq<WikiWrite>, k: nat, norm: string -> string)
    requires k < |writes| && Replay(s, writes[..k], norm).Some?
    ensures Replay(s, writes[..k + 1], norm) == Apply(Replay(s, writes[..k], norm).value, writes[k], norm)
  {
    assert writes[..k + 1][..k] == writes[..k];
  }

  /** The commit loop: the titles written so far when it stops. */
  method Commit(service: WikiService, writes: seq<WikiWrite>) returns (written: seq<string>, r: Result<(), RpcError>)
    modifies service`wikis
    ensures |written| <= |writes| && forall i :: 0 <= i < |written| ==> written[i] == writes[i].title
    ensures r.Ok? ==> |written| == |writes| && Replay(old(service.wikis), writes, service.norm) == Some(service.wikis)
    ensures r.Err? ==>
              && |written| < |writes|
              && var left := Replay(old(service.wikis), writes[..|written|], service.norm);
                 left.Some? && (service.wikis == left.value
                                || Replay(old(service.wikis), writes[..|written| + 1], service.norm) == Some(service.wikis))
    ensures r.Err? && r.error != Outage ==>
              Replay(old(service.wikis), writes[..|written| + 1], service.norm).None?
  {
    written := [];
    for k := 0 to |writes|
      invariant |written| == k && forall i :: 0 <= i < k ==> written[i] == writes[i].title
      invariant Replay(old(service.wikis), writes[..k], service.norm) == Some(service.wikis)
    {
      ReplaySnoc(old(service.wikis), writes, k, service.norm);
      var result := service.Perform(writes[k]);
      if result.Err? {
        return written, Err(result.error);
      }
      written := written + [writes[k].title];
    }
    assert writes[..|writes|] == writes;
    r := Ok(());
  }

  /** The upserts of the first `k` items, or of one more when the reply to that one was lost. */
  ghost predicate UpsertedUpTo(after: Wikis, before: Wikis, items: seq<Item>, k: nat, norm: string -> string,
                               digest: string -> string)
    requires k < |items|
  {
    || after == UpsertAll(before, items[..k], norm, digest)
    || after == UpsertAll(before, items[..k + 1], norm, digest)
  }

  /** The titles of the first `k` items. */
  predicate TitlesOf(written: seq<string>, items: seq<Item>) {
    |written| <= |items| && forall i :: 0 <= i < |written| ==> written[i] == items[i].title
  }

  lemma {:induction false} PlanTitles(s: Wikis, items: seq<Item>, norm: string -> string, digest: string -> string)
    ensures var writes := PlanAll(s, items, norm, digest).writes;
            |writes| == |items| && forall i :: 0 <= i < |items| ==> writes[i].title == items[i].title
    decreases |items|
  {
    if items != [] {
      PlanTitles(s, items[..|items| - 1], norm, digest);
    }
  }

  /** The commit phase of an accepted plan. */
  method CommitPlan(service: WikiService, items: seq<Item>, plan: Plan, digest: string -> string)
    returns (outcome: Outcome)
    requires Ready(service, digest) && plan == PlanAll(service.wikis, items, service.norm, digest)
    modifies service`wikis
    ensures outcome.Written? || outcome.Interrupted?
    ensures UniqueTitles(service.wikis, service.norm)
    ensures outcome.Written? ==>
              && outcome.writes == plan.writes && FreeIds(old(service.wikis), items, service.norm, digest)
              && service.wikis == UpsertAll(old(service.wikis), items, service.norm, digest)
    ensures outcome.Interrupted? ==>
              && |outcome.written| < |items| && TitlesOf(outcome.written, items)
              && UpsertedUpTo(service.wikis, old(service.wikis), items, |outcome.written|, service.norm, digest)
              && (outcome.error != Outage ==> !FreeIds(old(service.wikis), items, service.norm, digest))
  {
    ghost var before := service.wikis;
    PlanTitles(before, items, service.norm, digest);
    var written, r := Commit(service, plan.writes);
    if r.Ok? {
      WriteIsUpsertFold(before, items, service.norm, digest);
      return Written(plan.writes);
    }
    PrefixIsUpsertFold(before, items, |written|, service.norm, digest);
    PrefixIsUpsertFold(before, items, |written| + 1, service.norm, digest);
    outcome := Interrupted(r.error, written);
  }

  /**
   * A wiki_write call. Anything but a commit leaves the collection as it was; a
   * commit is the fold of upserts, and a stopped one the fold of a prefix of
   * them, named by the titles written. Titles stay unique in every case.
   */
  method WikiWriteCall(service: WikiService, args: WriteArgs, digest: string -> string) returns (outcome: Outcome)
    requires Ready(service, digest)
    modifies service`wikis
    ensures UniqueTitles(service.wikis, service.norm)
    ensures outcome.AmbiguousArgs? <==> (args.title.Some? || args.content.Some?) && args.entries.Some?
    ensures outcome.MissingArgs? <==> args.title.None? && args.content.None? && args.entries.None?
    ensures outcome.EmptyEntries? <==> args == WriteArgs(None, None, Some([]))
    ensures !outcome.Written? && !outcome.Interrupted? ==> service.wikis == old(service.wikis)
    ensures outcome.Refused? ==> Refuses(args, outcome.position)
    ensures outcome.Written? || outcome.Interrupted? ==> Accepts(args)
    ensures outcome.Written? ==> Writes(args, old(service.wikis), service.wikis, service.norm)
    ensures outcome.Refused? ==> FirstRefused(ItemsOf(EntriesOf(args)), outcome.position, outcome.reason)
    ensures outcome.Written? ==>
              var items := ItemsOf(EntriesOf(args));
              && AllAccepted(items) && |outcome.writes| == |items|
              && service.wikis == UpsertAll(old(service.wikis), items, service.norm, digest)
    ensures outcome.Interrupted? ==>
              var items := ItemsOf(EntriesOf(args));
              && AllAccepted(items) && |outcome.written| < |items| && TitlesOf(outcome.written, items)
              && UpsertedUpTo(service.wikis, old(service.wikis), items, |outcome.written|, service.norm, digest)
              && (outcome.error != Outage ==> !FreeIds(old(service.wikis), items, service.norm, digest))
  {
    var hasSingle := args.title.Some? || args.content.Some?;
    var hasBatch := args.entries.Some?;
    if hasSingle && hasBatch {
      return AmbiguousArgs;
    }
    if !hasSingle && !hasBatch {
      return MissingArgs;
    }
    if hasBatch && |args.entries.value| == 0 {
      return EmptyEntries;
    }
    var items := ItemsOf(EntriesOf(args));
    ghost var before := service.wikis;
    outcome := WriteItems(service, items, digest);
    ItemsAreWritten(EntriesOf(args));
    if outcome.Refused? {
      RefusedIs(args, items, outcome.position, outcome.reason);
    } else if outcome.Written? || outcome.Interrupted? {
      AcceptedAre(args, items);
      if outcome.Written? {
        WritesAre(args, items, before, service.norm, digest);
      }
    }
  }

  /** A call's title and content are those of its one entry, or it has the entries of its batch. */
  predicate Refuses(args: WriteArgs, position: nat) {
    match args.entries
    case Some(entries) => RefusedAt(Titles(entries), Bodies(entries), position)
    case None =>
      position == 1 && !Fine(TitleOf(WriteEntry(args.title, args.content)), BodyOf(WriteEntry(args.title, args.content)))
  }

  predicate Accepts(args: WriteArgs) {
    match args.entries
    case Some(entries) => AllFine(Titles(entries), Bodies(entries))
    case None => Fine(TitleOf(WriteEntry(args.title, args.content)), BodyOf(WriteEntry(args.title, args.content)))
  }

  /** The collection shows the entries of the call. */
  ghost predicate Writes(args: WriteArgs, before: Wikis, after: Wikis, norm: string -> string) {
    var entries := if args.entries.Some? then args.entries.value else [WriteEntry(args.title, args.content)];
    Says(before, after, Titles(entries), Bodies(entries), norm)
  }

  lemma {:induction false} ItemsAreWritten(entries: seq<WriteEntry>)
    ensures WrittenAs(Titles(entries), Bodies(entries), ItemsOf(entries))
  {
    var titles, bodies, items := Titles(entries), Bodies(entries), ItemsOf(entries);
    forall i | 0 <= i < |items| ensures items[i].title == titles[i] && items[i].content == bodies[i] {
      ItemIs(entries[i]);
    }
  }

  lemma {:induction false} AcceptedFine(titles: seq<string>, bodies: seq<string>, items: seq<Item>)
    requires WrittenAs(titles, bodies, items) && AllAccepted(items)
    ensures AllFine(titles, bodies)
  {
    forall i | 0 <= i < |titles| ensures Fine(titles[i], bodies[i]) {
      RefusalIs(items[i]);
    }
  }

  lemma {:induction false} RefusedFine(titles: seq<string>, bodies: seq<string>, items: seq<Item>, position: nat,
                                       reason: Reason)
    requires WrittenAs(titles, bodies, items) && FirstRefused(items, position, reason)
    ensures RefusedAt(titles, bodies, position)
  {
    RefusalIs(items[position - 1]);
    forall i | 0 <= i < position - 1 ensures Fine(titles[i], bodies[i]) {
      RefusalIs(items[i]);
    }
  }

  lemma {:induction false} RefusedIs(args: WriteArgs, items: seq<Item>, position: nat, reason: Reason)
    requires items == ItemsOf(EntriesOf(args)) && WrittenAs(Titles(EntriesOf(args)), Bodies(EntriesOf(args)), items)
    requires FirstRefused(items, position, reason)
    ensures Refuses(args, position)
  {
    RefusedFine(Titles(EntriesOf(args)), Bodies(EntriesOf(args)), items, position, reason);
  }

  lemma {:induction false} AcceptedAre(args: WriteArgs, items: seq<Item>)
    requires items == ItemsOf(EntriesOf(args)) && WrittenAs(Titles(EntriesOf(args)), Bodies(EntriesOf(args)), items)
    requires AllAccepted(items)
    ensures Accepts(args)
  {
    AcceptedFine(Titles(EntriesOf(args)), Bodies(EntriesOf(args)), items);
    if args.entries.None? {
      assert Fine(Titles(EntriesOf(args))[0], Bodies(EntriesOf(args))[0]);
    }
  }

  lemma {:induction false} WritesAre(args: WriteArgs, items: seq<Item>, before: Wikis, norm: string -> string,
                                     digest: string -> string)
    requires UniqueTitles(before, norm) && Injective(digest) && FreeIds(before, items, norm, digest)
    requires items == ItemsOf(EntriesOf(args)) && WrittenAs(Titles(EntriesOf(args)), Bodies(EntriesOf(args)), items)
    ensures Writes(args, before, UpsertAll(before, items, norm, digest), norm)
  {
    UpsertsSay(before, Titles(EntriesOf(args)), Bodies(EntriesOf(args)), items, norm, digest);
  }

  /** The preflight of the items, then the commit of an accepted plan. */
  method WriteItems(service: WikiService, items: seq<Item>, digest: string -> string) returns (outcome: Outcome)
    requires Ready(service, digest)
    modifies service`wikis
    ensures UniqueTitles(service.wikis, service.norm)
    ensures !outcome.AmbiguousArgs? && !outcome.MissingArgs? && !outcome.EmptyEntries?
    ensures !outcome.Written? && !outcome.Interrupted? ==> service.wikis == old(service.wikis)
    ensures outcome.Refused? ==> FirstRefused(items, outcome.position, outcome.reason)
    ensures outcome.Written? ==>
              && AllAccepted(items) && |outcome.writes| == |items|
              && FreeIds(old(service.wikis), items, service.norm, digest)
              && service.wikis == UpsertAll(old(service.wikis), items, service.norm, digest)
    ensures outcome.Interrupted? ==>
              && AllAccepted(items) && |outcome.written| < |items| && TitlesOf(outcome.written, items)
              && UpsertedUpTo(service.wikis, old(service.wikis), items, |outcome.written|, service.norm, digest)
              && (outcome.error != Outage ==> !FreeIds(old(service.wikis), items, service.norm, digest))
  {
    var plan := Preflight(service, items, digest);
    if plan.Err? {
      return plan.error;
    }
    PlanTitles(service.wikis, items, service.norm, digest);
    outcome := CommitPlan(service, items, plan.value, digest);
  }
}
