/** The single-operation form of the memory tool against the service. */
module MemoryCalls {
  import opened MemoryPlan
  import opened MemorySingles
  import opened MemoryTool
  import opened StoreSeam
  import opened Wrappers

  datatype CallOutcome = Declined(reason: Refusal) | Served(duplicate: bool) | Broken(error: RpcError)

  /**
   * What a single call does: declined, it changes nothing; served, it takes the
   * single step on the collection it listed; broken by an outage, it took that
   * step or changed nothing.
   */
  ghost predicate Does(op: Order, digest: string -> string, outcome: CallOutcome, listed: seq<Entry>, before: Store,
                       after: Store)
  {
    match outcome
    case Declined(_) =>
      && after == before && DecideSingle(listed, op, digest).Err?
      && (Lists(listed, before) || forall entries :: DecideSingle(entries, op, digest).Err?)
    case Served(_) =>
      Lists(listed, before) && DecideSingle(listed, op, digest).Ok? && after == SingleAfter(listed, before, op, digest)
    case Broken(error) =>
      error == Outage && (after == before || (Lists(listed, before) && after == SingleAfter(listed, before, op, digest)))
  }

  /** A single add; a create that finds its id taken reports a duplicate. */
  method ApplyAdd(service: MemoryService, content: string, digest: string -> string)
    returns (outcome: CallOutcome, ghost listed: seq<Entry>)
    modifies service
    ensures Does(Order(Add, content, ""), digest, outcome, listed, old(service.entries), service.entries)
    ensures outcome.Served? && outcome.duplicate ==> service.entries == old(service.entries)
    ensures outcome.Served? && !outcome.duplicate ==>
              digest(content) !in old(service.entries) && !HasContent(listed, content)
              && service.entries == old(service.entries)[digest(content) := content]
  {
    listed := [];
    if content == "" {
      return Declined(ContentRequired), listed;
    }
    if |content| > CONTENT_MAX_RUNES {
      return Declined(ContentTooLong(|content|)), listed;
    }
    var entries := service.List();
    if entries.Err? {
      return Broken(entries.error), listed;
    }
    listed := entries.value;
    var w := Create(digest(content), content, 0);
    ReplayOne(service.entries, w);
    if HasContent(entries.value, content) {
      return Served(true), listed;
    }
    var r := service.Perform(w);
    if r.Err? && r.error == AlreadyExists {
      return Served(true), listed;
    }
    if r.Err? {
      return Broken(r.error), listed;
    }
    outcome := Served(false);
  }

  /** A single replace or remove of the entry an old_text addresses. */
  method ApplyLocated(service: MemoryService, op: Order, digest: string -> string)
    returns (outcome: CallOutcome, ghost listed: seq<Entry>)
    requires op.action.Replace? || op.action.Remove?
    modifies service
    ensures Does(op, digest, outcome, listed, old(service.entries), service.entries)
    ensures outcome.Served? ==> !outcome.duplicate
  {
    listed := [];
    if op.action.Replace? && op.content == "" {
      return Declined(ContentRequired), listed;
    }
    if op.action.Replace? && |op.content| > CONTENT_MAX_RUNES {
      return Declined(ContentTooLong(|op.content|)), listed;
    }
    var entries := service.List();
    if entries.Err? {
      return Broken(entries.error), listed;
    }
    listed := entries.value;
    var hit := MatchBySubstring(entries.value, op.part);
    if hit.Err? {
      return Declined(hit.error), listed;
    }
    IndexOfMember(entries.value, hit.value);
    var w := if op.action.Replace? then Update(hit.value.id, op.content, 0) else Delete(hit.value.id, 0);
    ReplayOne(service.entries, w);
    var r := service.Perform(w);
    if r.Err? {
      return Broken(r.error), listed;
    }
    outcome := Served(false);
  }
}
