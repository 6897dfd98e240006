/**
 * The memory tool's batch: the preflight over a working copy, the writes it
 * queues, and what replaying those writes does to the store.
 *
 * The service's collection is a map from memory id to content. A listing is any
 * enumeration of it; nothing here depends on the order the service picks.
 */
module MemoryPlan {
  import opened StoreSeam
  import opened Wrappers
  import opened Texts

  const CONTENT_MAX_RUNES: nat := 1024

  datatype Entry = Entry(id: string, content: string)

  type Store = map<string, string>

  datatype Action = Add | Replace | Remove | Other(name: string)

  /** One operation as the tool receives it. */
  datatype MemoryOp = MemoryOp(action: Action, content: Option<string>, oldText: Option<string>)

  /** The same operation with its texts trimmed, an absent one being empty; `part` locates an entry. */
  datatype Order = Order(action: Action, content: string, part: string)

  function OrderOf(op: MemoryOp): Order {
    Order(op.action, Trim(op.content.GetOr(""), JsTrim), Trim(op.oldText.GetOr(""), JsTrim))
  }

  function OrdersOf(ops: seq<MemoryOp>): (orders: seq<Order>)
    ensures |orders| == |ops| && forall i :: 0 <= i < |ops| ==> orders[i] == OrderOf(ops[i])
  {
    seq(|ops|, i requires 0 <= i < |ops| => OrderOf(ops[i]))
  }

  datatype Refusal =
    | ContentRequired
    | ContentTooLong(runes: nat)
    | LocatorRequired
    | NothingMatched
    | Ambiguous(matched: seq<Entry>)
    | UnknownAction

  datatype Write =
    | Create(id: string, content: string, opIndex: nat)
    | Update(id: string, content: string, opIndex: nat)
    | Delete(id: string, opIndex: nat)

  /** The preflight's state: the working copy and the writes queued so far. */
  datatype Plan = Plan(working: seq<Entry>, writes: seq<Write>)

  datatype Rejection = Rejection(position: nat, reason: Refusal)

  // ---------------------------------------------------------------- entries

  predicate DistinctIds(entries: seq<Entry>) {
    forall i, j :: 0 <= i < j < |entries| ==> entries[i].id != entries[j].id
  }

  /** `entries` enumerates the collection `s`, each entry once. */
  predicate Lists(entries: seq<Entry>, s: Store) {
    && DistinctIds(entries)
    && (forall i :: 0 <= i < |entries| ==> entries[i].id in s && s[entries[i].id] == entries[i].content)
    && (forall id :: id in s ==> Entry(id, s[id]) in entries)
  }

  predicate HasContent(entries: seq<Entry>, content: string) {
    exists i :: 0 <= i < |entries| && entries[i].content == content
  }

  predicate HasId(entries: seq<Entry>, id: string) {
    exists i :: 0 <= i < |entries| && entries[i].id == id
  }

  /** The first entry with this id, or the length when there is none. */
  function IndexOf(entries: seq<Entry>, id: string): (k: nat)
    ensures k <= |entries|
    ensures k < |entries| ==> entries[k].id == id
    ensures forall i :: 0 <= i < k ==> entries[i].id != id
  {
    if entries == [] || entries[0].id == id then 0 else 1 + IndexOf(entries[1..], id)
  }

  // --------------------------------------------------------------- location

  /** The entries whose content contains `part`, in order. */
  function Hits(entries: seq<Entry>, part: string): (hits: seq<Entry>)
    ensures forall e :: e in hits <==> e in entries && Includes(e.content, part)
  {
    if entries == [] then []
    else
      var rest := Hits(entries[..|entries| - 1], part);
      var last := entries[|entries| - 1];
      assert entries == entries[..|entries| - 1] + [last];
      if Includes(last.content, part) then rest + [last] else rest
  }

  /** The entry an old_text addresses: the first hit, when all hits hold one content. */
  function MatchBySubstring(entries: seq<Entry>, part: string): (r: Result<Entry, Refusal>)
    ensures r.Ok? ==>
              && r.value in entries && Includes(r.value.content, part)
              && forall e :: e in entries && Includes(e.content, part) ==> e.content == r.value.content
  {
    if part == "" then Err(LocatorRequired)
    else
      var hits := Hits(entries, part);
      if hits == [] then Err(NothingMatched)
      else if exists i :: 0 <= i < |hits| && hits[i].content != hits[0].content then Err(Ambiguous(hits))
      else
        assert hits[0] in hits;
        Ok(hits[0])
  }

  /** An old_text addresses an entry exactly when it is not empty and in entries of one content only. */
  lemma {:induction false} MatchIff(entries: seq<Entry>, part: string)
    ensures MatchBySubstring(entries, part).Ok? <==>
              && part != ""
              && (exists e :: e in entries && Includes(e.content, part))
              && (forall e, f :: e in entries && f in entries && Includes(e.content, part) && Includes(f.content, part) ==>
                    e.content == f.content)
  {
    var hits := Hits(entries, part);
    assert forall i :: 0 <= i < |hits| ==> hits[i] in hits;
    if MatchBySubstring(entries, part).Ok? {
      var e := MatchBySubstring(entries, part).value;
      assert e in entries && Includes(e.content, part);
    } else if part != "" {
      if exists e :: e in entries && Includes(e.content, part) {
        var e :| e in entries && Includes(e.content, part);
        assert e in hits;
        var i :| 0 <= i < |hits| && hits[i].content != hits[0].content;
        assert hits[i] in entries && hits[0] in entries;
      }
    }
  }

  // -------------------------------------------------------------- preflight

  /** What an accepted operation does to the entries; an add of known content does nothing. */
  datatype Change =
    | Nothing
    | Added(id: string, content: string)
    | Replaced(k: nat, content: string)
    | Removed(k: nat)
  {
    predicate In(working: seq<Entry>) {
      (Replaced? || Removed?) ==> k < |working|
    }
  }

  /** The validation of one operation against the entries it sees. */
  function Decide(working: seq<Entry>, op: Order, digest: string -> string): (r: Result<Change, Refusal>)
    ensures r.Ok? ==> r.value.In(working)
  {
    if op.action.Add? then DecideAdd(working, op.content, digest)
    else if op.action.Replace? then
      DecideReplace(working, op.part, op.content)
    else if op.action.Remove? then DecideRemove(working, op.part)
    else Err(UnknownAction)
  }

  function DecideAdd(working: seq<Entry>, content: string, digest: string -> string): Result<Change, Refusal> {
    if content == "" then Err(ContentRequired)
    else if |content| > CONTENT_MAX_RUNES then Err(ContentTooLong(|content|))
    else if HasContent(working, content) then Ok(Nothing)
    else Ok(Added(digest(content), content))
  }

  function DecideReplace(working: seq<Entry>, part: string, content: string): (r: Result<Change, Refusal>)
    ensures r.Ok? ==> r.value.Replaced? && r.value.k < |working|
  {
    if part == "" then Err(LocatorRequired)
    else if content == "" then Err(ContentRequired)
    else if |content| > CONTENT_MAX_RUNES then Err(ContentTooLong(|content|))
    else
      var hit := MatchBySubstring(working, part);
      if hit.Err? then Err(hit.error) else Ok(Replaced(IndexOf(working, hit.value.id), content))
  }

  function DecideRemove(working: seq<Entry>, part: string): (r: Result<Change, Refusal>)
    ensures r.Ok? ==> r.value.Removed? && r.value.k < |working|
  {
    if part == "" then Err(LocatorRequired)
    else
      var hit := MatchBySubstring(working, part);
      if hit.Err? then Err(hit.error) else Ok(Removed(IndexOf(working, hit.value.id)))
  }

  /** A content the tool accepts. */
  predicate Acceptable(content: string) {
    content != "" && |content| <= CONTENT_MAX_RUNES
  }

  /** What an operation must bring to be accepted: a content within the limit, a locator that matches, or both. */
  lemma {:induction false} AcceptedIff(working: seq<Entry>, op: Order, digest: string -> string)
    ensures Decide(working, op, digest).Ok? <==>
              && !op.action.Other?
              && (op.action.Remove? || Acceptable(op.content))
              && (op.action.Add? || MatchBySubstring(working, op.part).Ok?)
  {
  }

  /** What an accepted operation changes: only an add of unknown content, or the located entry. */
  lemma {:induction false} AcceptedChange(working: seq<Entry>, op: Order, digest: string -> string)
    requires DistinctIds(working) && Decide(working, op, digest).Ok?
    ensures var c := Decide(working, op, digest).value;
            match op.action
            case Add => c == if HasContent(working, op.content) then Nothing else Added(digest(op.content), op.content)
            case Replace => c.Replaced? && c.content == op.content && Includes(working[c.k].content, op.part)
            case Remove => c.Removed? && Includes(working[c.k].content, op.part)
            case Other(_) => false
  {
    if op.action.Replace? || op.action.Remove? {
      var e := MatchBySubstring(working, op.part).value;
      var i :| 0 <= i < |working| && working[i] == e;
      assert working[IndexOf(working, e.id)].id == working[i].id;
    }
  }

  /** The entries after a change. */
  function Changed(working: seq<Entry>, c: Change): seq<Entry>
    requires c.In(working)
  {
    match c
    case Nothing => working
    case Added(id, content) => working + [Entry(id, content)]
    case Replaced(k, content) => working[k := Entry(working[k].id, content)]
    case Removed(k) => working[..k] + working[k + 1..]
  }

  /** The write a change queues for operation `i`. */
  function Queued(working: seq<Entry>, c: Change, i: nat): seq<Write>
    requires c.In(working)
  {
    match c
    case Nothing => []
    case Added(id, content) => [Create(id, content, i)]
    case Replaced(k, content) => [Update(working[k].id, content, i)]
    case Removed(k) => [Delete(working[k].id, i)]
  }

  function PlanOp(plan: Plan, op: Order, i: nat, digest: string -> string): Result<Plan, Refusal> {
    var c := Decide(plan.working, op, digest);
    if c.Err? then Err(c.error)
    else Ok(Plan(Changed(plan.working, c.value), plan.writes + Queued(plan.working, c.value, i)))
  }

  /** The preflight of a batch: the fold of `PlanOp`, stopped at the first refusal. */
  function Preflight(entries: seq<Entry>, ops: seq<Order>, digest: string -> string): Result<Plan, Rejection> {
    if ops == [] then Ok(Plan(entries, []))
    else
      var before := Preflight(entries, ops[..|ops| - 1], digest);
      if before.Err? then before
      else
        var r := PlanOp(before.value, ops[|ops| - 1], |ops| - 1, digest);
        if r.Ok? then Ok(r.value) else Err(Rejection(|ops|, r.error))
  }

  /** A refusal of a prefix is the refusal of the whole batch. */
  lemma {:induction false} RefusalStands(entries: seq<Entry>, ops: seq<Order>, n: nat, digest: string -> string)
    requires n <= |ops| && Preflight(entries, ops[..n], digest).Err?
    ensures Preflight(entries, ops, digest) == Preflight(entries, ops[..n], digest)
    decreases |ops|
  {
    if n == |ops| {
      assert ops[..n] == ops;
    } else {
      var init := ops[..|ops| - 1];
      assert init[..n] == ops[..n];
      RefusalStands(entries, init, n, digest);
    }
  }

  // ----------------------------------------------------------------- replay

  /** One write on the service: create needs a free id, update and delete a live one. */
  function Apply(s: Store, w: Write): Option<Store> {
    match w
    case Create(id, content, _) => if id in s then None else Some(s[id := content])
    case Update(id, content, _) => if id in s then Some(s[id := content]) else None
    case Delete(id, _) => if id in s then Some(s - {id}) else None
  }

  /** All the writes in order, stopped at the first the service rejects. */
  function Replay(s: Store, writes: seq<Write>): Option<Store> {
    if writes == [] then Some(s)
    else
      var t := Replay(s, writes[..|writes| - 1]);
      if t.None? then None else Apply(t.value, writes[|writes| - 1])
  }

  // -------------------------------------------------------- the side condition

  /** The operation is an accepted add of new content whose digest is the id of a live entry. */
  predicate Collides(working: seq<Entry>, op: Order, digest: string -> string) {
    var c := Decide(working, op, digest);
    c.Ok? && Blocked(working, c.value)
  }

  predicate Blocked(working: seq<Entry>, c: Change) {
    c.Added? && HasId(working, c.id)
  }

  /** No operation of the batch collides with the working copy its predecessors leave. */
  predicate NoCollision(entries: seq<Entry>, ops: seq<Order>, digest: string -> string) {
    || ops == []
    || (NoCollision(entries, ops[..|ops| - 1], digest)
        && var before := Preflight(entries, ops[..|ops| - 1], digest);
           before.Ok? ==> !Collides(before.value.working, ops[|ops| - 1], digest))
  }

  // ------------------------------------------------------------ one operation

  lemma {:induction false} AddStep(working: seq<Entry>, s: Store, id: string, content: string, i: nat)
    requires Lists(working, s)
    ensures Apply(s, Create(id, content, i)).Some? <==> !HasId(working, id)
    ensures !HasId(working, id) ==> Lists(working + [Entry(id, content)], s[id := content])
  {
    if id in s {
      assert Entry(id, s[id]) in working;
    }
    if !HasId(working, id) {
      var after := working + [Entry(id, content)];
      var t := s[id := content];
      forall x | x in t ensures Entry(x, t[x]) in after {
        if x == id {
          assert after[|working|] == Entry(id, content);
        } else {
          assert Entry(x, s[x]) in working;
        }
      }
    }
  }

  lemma {:induction false} ReplaceStep(working: seq<Entry>, s: Store, k: nat, content: string, i: nat)
    requires Lists(working, s) && k < |working|
    ensures var id := working[k].id;
            && Apply(s, Update(id, content, i)) == Some(s[id := content])
            && Lists(working[k := Entry(id, content)], s[id := content])
  {
    var id := working[k].id;
    var after := working[k := Entry(id, content)];
    var t := s[id := content];
    forall x | x in t ensures Entry(x, t[x]) in after {
      if x == id {
        assert after[k] == Entry(id, content);
      } else {
        assert Entry(x, s[x]) in working;
        var j :| 0 <= j < |working| && working[j] == Entry(x, s[x]);
        assert after[j] == Entry(x, t[x]);
      }
    }
  }

  /** Where an entry of the whole stands once entry `k` is cut out. */
  lemma {:induction false} CutMember(working: seq<Entry>, k: nat, j: nat)
    requires k < |working| && j < |working| && j != k
    ensures working[j] in working[..k] + working[k + 1..]
  {
    assert working[j] == (working[..k] + working[k + 1..])[if j < k then j else j - 1];
  }

  lemma {:induction false} CutDistinct(working: seq<Entry>, k: nat)
    requires DistinctIds(working) && k < |working|
    ensures var after := working[..k] + working[k + 1..];
            DistinctIds(after) && forall j :: 0 <= j < |after| ==> after[j].id != working[k].id && after[j] in working
  {
    var after := working[..k] + working[k + 1..];
    forall j | 0 <= j < |after| ensures after[j] == working[if j < k then j else j + 1] {
    }
  }

  lemma {:induction false} RemoveStep(working: seq<Entry>, s: Store, k: nat, i: nat)
    requires Lists(working, s) && k < |working|
    ensures var id := working[k].id;
            && Apply(s, Delete(id, i)) == Some(s - {id})
            && Lists(working[..k] + working[k + 1..], s - {id})
  {
    var id := working[k].id;
    var after := working[..k] + working[k + 1..];
    CutDistinct(working, k);
    forall x | x in s - {id} ensures Entry(x, s[x]) in after {
      assert Entry(x, s[x]) in working;
      var j :| 0 <= j < |working| && working[j] == Entry(x, s[x]);
      CutMember(working, k, j);
    }
  }

  /** Making a change to the entries and performing its write on the store they list keep in step. */
  lemma {:induction false} ChangeInStep(working: seq<Entry>, s: Store, c: Change, i: nat)
    requires Lists(working, s) && c.In(working)
    ensures Replay(s, Queued(working, c, i)).Some? <==> !Blocked(working, c)
    ensures !Blocked(working, c) ==> Lists(Changed(working, c), Replay(s, Queued(working, c, i)).value)
  {
    match c
    case Nothing =>
    case Added(id, content) =>
      AddStep(working, s, id, content, i);
      ReplayOne(s, Create(id, content, i));
    case Replaced(k, content) =>
      ReplaceStep(working, s, k, content, i);
      ReplayOne(s, Update(working[k].id, content, i));
    case Removed(k) =>
      RemoveStep(working, s, k, i);
      ReplayOne(s, Delete(working[k].id, i));
  }

  lemma ReplayOne(s: Store, w: Write)
    ensures Replay(s, [w]) == Apply(s, w)
  {
    assert [w][..0] == [];
  }

  /** Replaying two runs of writes one after the other. */
  lemma {:induction false} ReplayAppend(s: Store, first: seq<Write>, second: seq<Write>)
    ensures Replay(s, first + second) ==
            (if Replay(s, first).None? then None else Replay(Replay(s, first).value, second))
    decreases |second|
  {
    if second == [] {
      assert first + second == first;
    } else {
      var init := second[..|second| - 1];
      assert (first + second)[..|first + second| - 1] == first + init;
      ReplayAppend(s, first, init);
    }
  }

  // --------------------------------------------------------------- the batch

  /** The queued writes address the batch's operations in strictly increasing order. */
  predicate OpIndexesIncrease(writes: seq<Write>, bound: nat) {
    && (forall i :: 0 <= i < |writes| ==> writes[i].opIndex < bound)
    && (forall i, j :: 0 <= i < j < |writes| ==> writes[i].opIndex < writes[j].opIndex)
  }

  /**
   * Replaying an accepted batch succeeds exactly when no add's digest is the id
   * of a live entry, and then the store is the working copy.
   */
  lemma {:induction false} BatchReplays(entries: seq<Entry>, s: Store, ops: seq<Order>, digest: string -> string)
    requires Lists(entries, s) && Preflight(entries, ops, digest).Ok?
    ensures var plan := Preflight(entries, ops, digest).value;
            && OpIndexesIncrease(plan.writes, |ops|)
            && (Replay(s, plan.writes).Some? <==> NoCollision(entries, ops, digest))
            && (Replay(s, plan.writes).Some? ==> Lists(plan.working, Replay(s, plan.writes).value))
    decreases |ops|
  {
    if ops != [] {
      var i := |ops| - 1;
      BatchReplays(entries, s, ops[..i], digest);
      var before := Preflight(entries, ops[..i], digest).value;
      var c := Decide(before.working, ops[i], digest).value;
      ReplayAppend(s, before.writes, Queued(before.working, c, i));
      if Replay(s, before.writes).Some? {
        ChangeInStep(before.working, Replay(s, before.writes).value, c, i);
      }
    }
  }

  predicate AllAcceptable(entries: seq<Entry>) {
    forall i :: 0 <= i < |entries| ==> Acceptable(entries[i].content)
  }

  /** An accepted batch leaves no content the tool would not accept. */
  lemma {:induction false} ContentsStayAcceptable(entries: seq<Entry>, ops: seq<Order>, digest: string -> string)
    requires AllAcceptable(entries) && Preflight(entries, ops, digest).Ok?
    ensures AllAcceptable(Preflight(entries, ops, digest).value.working)
    decreases |ops|
  {
    if ops != [] {
      var i := |ops| - 1;
      ContentsStayAcceptable(entries, ops[..i], digest);
      var before := Preflight(entries, ops[..i], digest).value;
      AcceptedIff(before.working, ops[i], digest);
      ChangeKeepsAcceptable(before.working, ops[i], digest);
    }
  }

  lemma {:induction false} ChangeKeepsAcceptable(working: seq<Entry>, op: Order, digest: string -> string)
    requires AllAcceptable(working) && Decide(working, op, digest).Ok?
    ensures AllAcceptable(Changed(working, Decide(working, op, digest).value))
  {
  }

  ghost predicate DigestKeyed(entries: seq<Entry>, digest: string -> string) {
    forall i :: 0 <= i < |entries| ==> entries[i].id == digest(entries[i].content)
  }

  lemma {:induction false} DigestKeyedStep(working: seq<Entry>, c: Change, digest: string -> string)
    requires Injective(digest) && DigestKeyed(working, digest) && c.In(working)
    requires !c.Replaced?
    requires c.Added? ==> c.id == digest(c.content) && !HasContent(working, c.content)
    ensures !Blocked(working, c)
    ensures DigestKeyed(Changed(working, c), digest)
  {
  }

  lemma {:induction false} UnreplacedShape(working: seq<Entry>, op: Order, digest: string -> string)
    requires !op.action.Replace? && Decide(working, op, digest).Ok?
    ensures var c := Decide(working, op, digest).value;
            !c.Replaced? && (c.Added? ==> c.id == digest(c.content) && !HasContent(working, c.content))
  {
  }

  /** A store whose ids are digests stays collision free as long as nothing is replaced. */
  lemma {:induction false} DigestKeyedNeverCollides(entries: seq<Entry>, ops: seq<Order>, digest: string -> string)
    requires Injective(digest) && DigestKeyed(entries, digest)
    requires forall i :: 0 <= i < |ops| ==> !ops[i].action.Replace?
    ensures NoCollision(entries, ops, digest)
    ensures Preflight(entries, ops, digest).Ok? ==> DigestKeyed(Preflight(entries, ops, digest).value.working, digest)
    decreases |ops|
  {
    if ops != [] {
      var init := ops[..|ops| - 1];
      DigestKeyedNeverCollides(entries, init, digest);
      var before := Preflight(entries, init, digest);
      if before.Ok? {
        var c := Decide(before.value.working, ops[|ops| - 1], digest);
        if c.Ok? {
          UnreplacedShape(before.value.working, ops[|ops| - 1], digest);
          DigestKeyedStep(before.value.working, c.value, digest);
        }
      }
    }
  }

  /** Whatever the digest: replacing an entry and then adding its old content back collides. */
  lemma ReplaceThenAddCollides(a: string, b: string, ops: seq<Order>, digest: string -> string)
    requires Acceptable(a) && Acceptable(b) && a != b && |ops| == 2
    requires ops[0].action.Replace? && ops[0].part == a && ops[0].content == b
    requires ops[1].action.Add? && ops[1].content == a
    ensures var entries, s := [Entry(digest(a), a)], map[digest(a) := a];
            && Lists(entries, s)
            && Preflight(entries, ops, digest).Ok?
            && Replay(s, Preflight(entries, ops, digest).value.writes).None?
  {
    var entries, s := [Entry(digest(a), a)], map[digest(a) := a];
    assert Lists(entries, s) by {
      assert entries[0] in entries;
    }
    ReplacesTheOnly(entries, ops[0], b, digest);
    var replaced := [Entry(digest(a), b)];
    AddsBack(replaced, ops[1], a, digest);
    CollisionAt(entries, replaced, ops, digest);
    BatchReplays(entries, s, ops, digest);
  }

  lemma {:induction false} CollisionAt(entries: seq<Entry>, replaced: seq<Entry>, ops: seq<Order>,
                                       digest: string -> string)
    requires |ops| == 2 && |entries| == 1
    requires Decide(entries, ops[0], digest).Ok?
    requires Changed(entries, Decide(entries, ops[0], digest).value) == replaced
    requires Collides(replaced, ops[1], digest)
    ensures Preflight(entries, ops, digest).Ok? && !NoCollision(entries, ops, digest)
  {
    assert ops[..1][..0] == [] && ops[..1][0] == ops[0];
    var before := Preflight(entries, ops[..1], digest);
    assert Preflight(entries, [], digest) == Ok(Plan(entries, []));
    assert before.Ok? && before.value.working == replaced;
  }

  lemma {:induction false} DecidesTheOnly(entries: seq<Entry>, b: string)
    requires |entries| == 1 && Acceptable(entries[0].content) && Acceptable(b)
    ensures DecideReplace(entries, entries[0].content, b) == Ok(Replaced(0, b))
  {
    var e := entries[0];
    assert IncludesAt(e.content, e.content, 0);
    assert e in entries;
    assert e in Hits(entries, e.content);
    assert MatchBySubstring(entries, e.content) == Ok(e);
    assert IndexOf(entries, e.id) == 0;
  }

  lemma {:induction false} ReplacesTheOnly(entries: seq<Entry>, op: Order, b: string, digest: string -> string)
    requires |entries| == 1 && Acceptable(entries[0].content) && Acceptable(b)
    requires op.action.Replace? && op.part == entries[0].content && op.content == b
    ensures Decide(entries, op, digest) == Ok(Replaced(0, b))
    ensures Changed(entries, Replaced(0, b)) == [Entry(entries[0].id, b)]
  {
    DecidesTheOnly(entries, b);
  }

  lemma AddsBack(working: seq<Entry>, op: Order, a: string, digest: string -> string)
    requires Acceptable(a) && |working| == 1 && working[0].id == digest(a) && working[0].content != a
    requires op.action.Add? && op.content == a
    ensures Decide(working, op, digest) == Ok(Added(digest(a), a))
    ensures Collides(working, op, digest)
  {
    assert DecideAdd(working, a, digest) == Ok(Added(digest(a), a));
  }
}
