/**
 * The single-operation form of the memory tool, and the batch form as a fold of
 * single calls, each of which lists the collection afresh.
 */
module MemorySingles {
  import opened Wrappers
  import opened Texts
  import opened MemoryPlan

  /** What one single call does to the entries it listed. */
  function DecideSingle(listing: seq<Entry>, op: Order, digest: string -> string): (r: Result<Change, Refusal>)
    ensures r.Ok? ==> r.value.In(listing)
  {
    var content := op.content;
    match op.action
    case Add => DecideAdd(listing, content, digest)
    case Replace =>
      if content == "" then Err(ContentRequired)
      else if |content| > CONTENT_MAX_RUNES then Err(ContentTooLong(|content|))
      else
        var hit := MatchBySubstring(listing, op.part);
        if hit.Err? then Err(hit.error) else Ok(Replaced(IndexOf(listing, hit.value.id), content))
    case Remove =>
      var hit := MatchBySubstring(listing, op.part);
      if hit.Err? then Err(hit.error) else Ok(Removed(IndexOf(listing, hit.value.id)))
    case Other(_) => Err(UnknownAction)
  }

  /** The collection after a single call; a create that finds its id taken counts as a duplicate. */
  function SingleAfter(listing: seq<Entry>, s: Store, op: Order, digest: string -> string): Store {
    var c := DecideSingle(listing, op, digest);
    if c.Err? then s else Replay(s, Queued(listing, c.value, 0)).GetOr(s)
  }

  /** The single calls in order: `stores[i]` is the collection the i-th call lists as `listings[i]`. */
  ghost predicate RunsSingles(stores: seq<Store>, listings: seq<seq<Entry>>, ops: seq<Order>,
                              digest: string -> string) {
    && |stores| == |ops| + 1 && |listings| == |ops|
    && forall i :: 0 <= i < |ops| ==>
         Lists(listings[i], stores[i]) && stores[i + 1] == SingleAfter(listings[i], stores[i], ops[i], digest)
  }

  /** The single form accepts exactly what the batch form accepts, with the same effect. */
  lemma {:induction false} SingleAcceptsLikeBatch(entries: seq<Entry>, op: Order, digest: string -> string)
    ensures Decide(entries, op, digest).Ok? <==> DecideSingle(entries, op, digest).Ok?
    ensures Decide(entries, op, digest).Ok? ==> DecideSingle(entries, op, digest) == Decide(entries, op, digest)
  {
  }

  // ------------------------------------------- when the listing order matters

  predicate OneEntryIncludes(entries: seq<Entry>, part: string) {
    forall i, j :: 0 <= i < |entries| && 0 <= j < |entries| ==>
      Includes(entries[i].content, part) && Includes(entries[j].content, part) ==> i == j
  }

  /** The old_text of the operation addresses at most one entry. */
  predicate OneHit(entries: seq<Entry>, op: Order) {
    (op.action.Replace? || op.action.Remove?) ==>
      OneEntryIncludes(entries, op.part)
  }

  /** A replace that writes the content its hits already hold. */
  predicate RewritesTheSame(entries: seq<Entry>, op: Order) {
    op.action.Replace? && forall e :: e in entries && Includes(e.content, op.part) ==> e.content == op.content
  }

  predicate Determined(entries: seq<Entry>, op: Order) {
    OneHit(entries, op) || RewritesTheSame(entries, op)
  }

  /** A single call leaves the same collection whichever listing it is given. */
  ghost predicate SameForEveryListing(s: Store, op: Order, digest: string -> string) {
    forall a, b :: Lists(a, s) && Lists(b, s) ==> SingleAfter(a, s, op, digest) == SingleAfter(b, s, op, digest)
  }

  lemma {:induction false} SameMembers(a: seq<Entry>, b: seq<Entry>, s: Store)
    requires Lists(a, s) && Lists(b, s)
    ensures forall e :: e in a ==> e in b
  {
    forall e | e in a ensures e in b {
      var i :| 0 <= i < |a| && a[i] == e;
      assert e == Entry(e.id, s[e.id]);
    }
  }

  lemma {:induction false} IndexOfMember(entries: seq<Entry>, e: Entry)
    requires DistinctIds(entries) && e in entries
    ensures IndexOf(entries, e.id) < |entries| && entries[IndexOf(entries, e.id)] == e
  {
    var i :| 0 <= i < |entries| && entries[i] == e;
    assert IndexOf(entries, e.id) == i;
  }

  lemma {:induction false} HasContentOfMembers(a: seq<Entry>, b: seq<Entry>, content: string)
    requires forall e :: e in a ==> e in b
    ensures HasContent(a, content) ==> HasContent(b, content)
  {
    if HasContent(a, content) {
      var i :| 0 <= i < |a| && a[i].content == content;
      assert a[i] in b;
    }
  }

  /** Acceptance does not depend on the listing order. */
  lemma {:induction false} AcceptsAlike(a: seq<Entry>, b: seq<Entry>, s: Store, op: Order, digest: string -> string)
    requires Lists(a, s) && Lists(b, s) && Decide(a, op, digest).Ok?
    ensures Decide(b, op, digest).Ok?
  {
    SameMembers(a, b, s);
    SameMembers(b, a, s);
    AcceptedIff(a, op, digest);
    AcceptedIff(b, op, digest);
    MatchIff(a, op.part);
    MatchIff(b, op.part);
  }

  /** What an accepted replace or remove does to the collection, by the entry it locates. */
  lemma {:induction false} LocatedAfter(a: seq<Entry>, s: Store, op: Order, digest: string -> string)
    requires Lists(a, s) && Decide(a, op, digest).Ok? && !op.action.Add?
    ensures MatchBySubstring(a, op.part).Ok?
    ensures var e := MatchBySubstring(a, op.part).value;
            && e in a && e.id in s && s[e.id] == e.content
            && SingleAfter(a, s, op, digest)
            == if op.action.Remove? then s - {e.id} else s[e.id := op.content]
  {
    AcceptedIff(a, op, digest);
    var e := MatchBySubstring(a, op.part).value;
    IndexOfMember(a, e);
    if op.action.Remove? {
      ReplayOne(s, Delete(e.id, 0));
    } else {
      ReplayOne(s, Update(e.id, op.content, 0));
    }
  }

  lemma {:induction false} AddsTheSame(a: seq<Entry>, b: seq<Entry>, s: Store, op: Order, digest: string -> string)
    requires Lists(a, s) && Lists(b, s) && op.action.Add?
    ensures SingleAfter(a, s, op, digest) == SingleAfter(b, s, op, digest)
  {
    SameMembers(a, b, s);
    SameMembers(b, a, s);
    HasContentOfMembers(a, b, op.content);
    HasContentOfMembers(b, a, op.content);
  }

  /** Two listings of one collection locate the same entry, when there is one hit. */
  lemma {:induction false} LocatesTheSame(a: seq<Entry>, b: seq<Entry>, s: Store, part: string)
    requires Lists(a, s) && Lists(b, s)
    requires OneEntryIncludes(a, part)
    requires MatchBySubstring(a, part).Ok? && MatchBySubstring(b, part).Ok?
    ensures MatchBySubstring(b, part) == MatchBySubstring(a, part)
  {
    var e, f := MatchBySubstring(a, part).value, MatchBySubstring(b, part).value;
    SameMembers(b, a, s);
    var j :| 0 <= j < |a| && a[j] == f;
    var k :| 0 <= k < |a| && a[k] == e;
  }

  lemma {:induction false} DeterminedIsSame(a: seq<Entry>, b: seq<Entry>, s: Store, op: Order, digest: string -> string)
    requires Lists(a, s) && Lists(b, s) && Decide(a, op, digest).Ok? && Determined(a, op)
    ensures SingleAfter(b, s, op, digest) == SingleAfter(a, s, op, digest)
  {
    if op.action.Add? {
      AddsTheSame(a, b, s, op, digest);
    } else {
      AcceptsAlike(a, b, s, op, digest);
      LocatedAfter(a, s, op, digest);
      LocatedAfter(b, s, op, digest);
      if OneHit(a, op) {
        AcceptedIff(a, op, digest);
        LocatesTheSame(a, b, s, op.part);
      } else {
        RewritesNothing(a, a, s, op, digest);
        RewritesNothing(a, b, s, op, digest);
      }
    }
  }

  /** Rewriting what the hits hold leaves the collection as it was. */
  lemma {:induction false} RewritesNothing(a: seq<Entry>, b: seq<Entry>, s: Store, op: Order, digest: string -> string)
    requires Lists(a, s) && Lists(b, s) && Decide(b, op, digest).Ok? && RewritesTheSame(a, op)
    ensures SingleAfter(b, s, op, digest) == s
  {
    SameMembers(b, a, s);
    LocatedAfter(b, s, op, digest);
    var f := MatchBySubstring(b, op.part).value;
    assert f.content == op.content;
    assert s[f.id := op.content] == s;
  }

  lemma {:induction false} HitsOfSnoc(init: seq<Entry>, x: Entry, part: string)
    ensures Hits(init + [x], part) == Hits(init, part) + (if Includes(x.content, part) then [x] else [])
  {
    assert (init + [x])[..|init|] == init;
  }

  lemma {:induction false} HitsOfCons(x: Entry, rest: seq<Entry>, part: string)
    requires Includes(x.content, part)
    ensures Hits([x] + rest, part) == [x] + Hits(rest, part)
    decreases |rest|
  {
    if rest == [] {
      assert [x] + rest == [] + [x];
      HitsOfSnoc([], x, part);
    } else {
      var init, last := rest[..|rest| - 1], rest[|rest| - 1];
      assert [x] + rest == ([x] + init) + [last];
      assert rest == init + [last];
      HitsOfCons(x, init, part);
      HitsOfSnoc(init, last, part);
      HitsOfSnoc([x] + init, last, part);
    }
  }

  /** The listing that names the entry at `j` first. */
  function Fronted(a: seq<Entry>, j: nat): seq<Entry>
    requires j < |a|
  {
    [a[j]] + (a[..j] + a[j + 1..])
  }

  lemma {:induction false} FrontedLists(a: seq<Entry>, s: Store, j: nat)
    requires Lists(a, s) && j < |a|
    ensures Lists(Fronted(a, j), s)
  {
    var rest := a[..j] + a[j + 1..];
    CutDistinct(a, j);
    DistinctCons(a[j], rest);
    forall i | 0 <= i < |Fronted(a, j)| ensures Fronted(a, j)[i] in a {
      assert i > 0 ==> Fronted(a, j)[i] == rest[i - 1];
    }
    forall id | id in s ensures Entry(id, s[id]) in Fronted(a, j) {
      assert Entry(id, s[id]) in a;
      FrontedHas(a, j, Entry(id, s[id]));
    }
  }

  lemma {:induction false} DistinctCons(x: Entry, rest: seq<Entry>)
    requires DistinctIds(rest) && forall i :: 0 <= i < |rest| ==> rest[i].id != x.id
    ensures DistinctIds([x] + rest)
  {
  }

  lemma {:induction false} FrontedHas(a: seq<Entry>, j: nat, e: Entry)
    requires j < |a| && e in a
    ensures e in Fronted(a, j)
  {
    var k :| 0 <= k < |a| && a[k] == e;
    if k == j {
      assert Fronted(a, j)[0] == e;
    } else {
      CutMember(a, j, k);
    }
  }

  /** Named first, a hit is the entry the old_text addresses. */
  lemma {:induction false} FrontedMatches(a: seq<Entry>, s: Store, j: nat, part: string)
    requires Lists(a, s) && j < |a| && Includes(a[j].content, part)
    requires MatchBySubstring(Fronted(a, j), part).Ok?
    ensures MatchBySubstring(Fronted(a, j), part).value == a[j]
  {
    HitsOfCons(a[j], a[..j] + a[j + 1..], part);
  }

  lemma {:induction false} UndeterminedDiffers(a: seq<Entry>, s: Store, op: Order, digest: string -> string)
    returns (b: seq<Entry>)
    requires Lists(a, s) && Decide(a, op, digest).Ok? && !Determined(a, op)
    ensures Lists(b, s) && SingleAfter(b, s, op, digest) != SingleAfter(a, s, op, digest)
  {
    AcceptedIff(a, op, digest);
    LocatedAfter(a, s, op, digest);
    var e := MatchBySubstring(a, op.part).value;
    var j := AnotherHit(a, e, op.part);
    b := Fronted(a, j);
    FrontedLists(a, s, j);
    AcceptsAlike(a, b, s, op, digest);
    LocatedAfter(b, s, op, digest);
    FrontedMatches(a, s, j, op.part);
    assert op.action.Replace? ==> e.content != op.content;
    OtherStores(s, e.id, a[j].id, op.content);
  }

  /** Removing or rewriting one entry is not removing or rewriting another. */
  lemma OtherStores(s: Store, x: string, y: string, content: string)
    requires x in s && y in s && x != y
    ensures s - {x} != s - {y}
    ensures s[x] != content ==> s[x := content] != s[y := content]
  {
    assert y in s - {x} && y !in s - {y};
    assert s[x := content][x] == content && s[y := content][x] == s[x];
  }

  lemma {:induction false} AnotherHit(a: seq<Entry>, e: Entry, part: string) returns (j: nat)
    requires DistinctIds(a) && e in a && Includes(e.content, part) && !OneEntryIncludes(a, part)
    ensures j < |a| && a[j].id != e.id && Includes(a[j].content, part)
  {
    var k :| 0 <= k < |a| && a[k] == e;
    var x, y :| 0 <= x < |a| && 0 <= y < |a| && Includes(a[x].content, part) && Includes(a[y].content, part) && x != y;
    j := if x == k then y else x;
  }

  /**
   * The listing order of an accepted operation matters unless it has one hit or
   * rewrites what its hits hold, and then only.
   */
  lemma {:induction false} ListingOrderIff(a: seq<Entry>, s: Store, op: Order, digest: string -> string)
    requires Lists(a, s) && Decide(a, op, digest).Ok?
    ensures SameForEveryListing(s, op, digest) <==> Determined(a, op)
  {
    if Determined(a, op) {
      forall b | Lists(b, s) ensures SingleAfter(b, s, op, digest) == SingleAfter(a, s, op, digest) {
        DeterminedIsSame(a, b, s, op, digest);
      }
    } else {
      var b := UndeterminedDiffers(a, s, op, digest);
    }
  }

  // -------------------------------------------------------- the batch as a fold

  /** Every operation is determined on the working copy its predecessors leave. */
  predicate AlwaysDetermined(entries: seq<Entry>, ops: seq<Order>, digest: string -> string) {
    || ops == []
    || (AlwaysDetermined(entries, ops[..|ops| - 1], digest)
        && var before := Preflight(entries, ops[..|ops| - 1], digest);
           before.Ok? ==> Determined(before.value.working, ops[|ops| - 1]))
  }

  lemma {:induction false} RunsFewer(stores: seq<Store>, listings: seq<seq<Entry>>, ops: seq<Order>,
                                     digest: string -> string)
    requires RunsSingles(stores, listings, ops, digest) && ops != []
    ensures RunsSingles(stores[..|ops|], listings[..|ops| - 1], ops[..|ops| - 1], digest)
    ensures stores[..|ops|][0] == stores[0] && stores[..|ops|][|ops| - 1] == stores[|ops| - 1]
    ensures Lists(listings[|ops| - 1], stores[|ops| - 1])
    ensures stores[|ops|] == SingleAfter(listings[|ops| - 1], stores[|ops| - 1], ops[|ops| - 1], digest)
  {
  }

  predicate EverySingleAccepted(listings: seq<seq<Entry>>, ops: seq<Order>, digest: string -> string)
    requires |listings| == |ops|
  {
    || ops == []
    || (EverySingleAccepted(listings[..|ops| - 1], ops[..|ops| - 1], digest)
        && DecideSingle(listings[|ops| - 1], ops[|ops| - 1], digest).Ok?)
  }

  /**
   * An accepted batch of determined operations is the fold of its single
   * operations: whatever order each call lists the collection in, every single
   * call is accepted and the last collection is the working copy, which is what
   * replaying the batch gives.
   */
  lemma {:induction false} BatchIsFoldOfSingles(entries: seq<Entry>, stores: seq<Store>, listings: seq<seq<Entry>>,
                                                ops: seq<Order>, digest: string -> string)
    requires RunsSingles(stores, listings, ops, digest) && Lists(entries, stores[0])
    requires Preflight(entries, ops, digest).Ok?
    requires NoCollision(entries, ops, digest) && AlwaysDetermined(entries, ops, digest)
    ensures Replay(stores[0], Preflight(entries, ops, digest).value.writes) == Some(stores[|ops|])
    ensures Lists(Preflight(entries, ops, digest).value.working, stores[|ops|])
    ensures EverySingleAccepted(listings, ops, digest)
    decreases |ops|
  {
    if ops != [] {
      var n := |ops| - 1;
      RunsFewer(stores, listings, ops, digest);
      BatchIsFoldOfSingles(entries, stores[..n + 1], listings[..n], ops[..n], digest);
      var before := Preflight(entries, ops[..n], digest).value;
      FoldStep(before, stores[n], ops[n], n, stores[0], digest);
      DeterminedIsSame(before.working, listings[n], stores[n], ops[n], digest);
      AcceptsAlike(before.working, listings[n], stores[n], ops[n], digest);
      SingleAcceptsLikeBatch(listings[n], ops[n], digest);
    }
  }

  /** The batch's step does what a single call on the working copy does. */
  lemma {:induction false} FoldStep(before: Plan, t: Store, op: Order, i: nat, s: Store, digest: string -> string)
    requires Replay(s, before.writes) == Some(t) && Lists(before.working, t)
    requires PlanOp(before, op, i, digest).Ok? && !Collides(before.working, op, digest)
    ensures var after := PlanOp(before, op, i, digest).value;
            && Replay(s, after.writes) == Some(SingleAfter(before.working, t, op, digest))
            && Lists(after.working, SingleAfter(before.working, t, op, digest))
  {
    var c := Decide(before.working, op, digest).value;
    SingleAcceptsLikeBatch(before.working, op, digest);
    IndexIsALabel(before.working, t, c, i);
    ChangeInStep(before.working, t, c, i);
    ReplayAppend(s, before.writes, Queued(before.working, c, i));
  }

  /** The operation a write belongs to does not change what it does. */
  lemma {:induction false} IndexIsALabel(working: seq<Entry>, s: Store, c: Change, i: nat)
    requires c.In(working)
    ensures Replay(s, Queued(working, c, i)) == Replay(s, Queued(working, c, 0))
  {
    match c
    case Nothing =>
    case Added(id, content) =>
      ReplayOne(s, Create(id, content, i));
      ReplayOne(s, Create(id, content, 0));
    case Replaced(k, content) =>
      ReplayOne(s, Update(working[k].id, content, i));
      ReplayOne(s, Update(working[k].id, content, 0));
    case Removed(k) =>
      ReplayOne(s, Delete(working[k].id, i));
      ReplayOne(s, Delete(working[k].id, 0));
  }

  // ------------------------------------------------- the exact condition of a fold

  /** However the single calls list the collection, they end where the batch ends. */
  ghost predicate Agrees(entries: seq<Entry>, s: Store, ops: seq<Order>, digest: string -> string)
    requires Preflight(entries, ops, digest).Ok?
  {
    forall stores, listings :: RunsSingles(stores, listings, ops, digest) && stores[0] == s ==>
      Replay(s, Preflight(entries, ops, digest).value.writes) == Some(stores[|ops|])
  }

  /** They do so after every operation of the batch. */
  ghost predicate EveryPrefixAgrees(entries: seq<Entry>, s: Store, ops: seq<Order>, digest: string -> string)
    requires Preflight(entries, ops, digest).Ok?
  {
    && (ops == [] || EveryPrefixAgrees(entries, s, ops[..|ops| - 1], digest))
    && Agrees(entries, s, ops, digest)
  }

  lemma {:induction false} SomeListing(s: Store) returns (a: seq<Entry>)
    ensures Lists(a, s)
    decreases |s|
  {
    if s == map[] {
      a := [];
    } else {
      var id :| id in s;
      var rest := s - {id};
      a := SomeListing(rest);
      AddStep(a, rest, id, s[id], 0);
      a := a + [Entry(id, s[id])];
      assert rest[id := s[id]] == s;
    }
  }

  /** One more call, on any listing. */
  lemma {:induction false} RunsMore(stores: seq<Store>, listings: seq<seq<Entry>>, listing: seq<Entry>,
                                    ops: seq<Order>, digest: string -> string)
    requires ops != [] && RunsSingles(stores, listings, ops[..|ops| - 1], digest)
    requires Lists(listing, stores[|ops| - 1])
    ensures RunsSingles(stores + [SingleAfter(listing, stores[|ops| - 1], ops[|ops| - 1], digest)],
                        listings + [listing], ops, digest)
  {
  }

  lemma {:induction false} SomeRun(s: Store, ops: seq<Order>, digest: string -> string)
    returns (stores: seq<Store>, listings: seq<seq<Entry>>)
    ensures RunsSingles(stores, listings, ops, digest) && stores[0] == s
    decreases |ops|
  {
    if ops == [] {
      stores, listings := [s], [];
    } else {
      stores, listings := SomeRun(s, ops[..|ops| - 1], digest);
      var listing := SomeListing(stores[|ops| - 1]);
      RunsMore(stores, listings, listing, ops, digest);
      stores := stores + [SingleAfter(listing, stores[|ops| - 1], ops[|ops| - 1], digest)];
      listings := listings + [listing];
    }
  }

  /** Where all runs of a prefix agree, one more call on any listing ends where the batch ends. */
  lemma {:induction false} NextCallAgrees(entries: seq<Entry>, s: Store, t: Store, ops: seq<Order>, a: seq<Entry>,
                                          digest: string -> string)
    requires Preflight(entries, ops, digest).Ok? && ops != []
    requires Agrees(entries, s, ops[..|ops| - 1], digest) && Agrees(entries, s, ops, digest)
    requires Replay(s, Preflight(entries, ops[..|ops| - 1], digest).value.writes) == Some(t) && Lists(a, t)
    ensures Replay(s, Preflight(entries, ops, digest).value.writes)
         == Some(SingleAfter(a, t, ops[|ops| - 1], digest))
  {
    var stores, listings := SomeRun(s, ops[..|ops| - 1], digest);
    assert stores[|ops| - 1] == t;
    RunsMore(stores, listings, a, ops, digest);
    var longer := stores + [SingleAfter(a, t, ops[|ops| - 1], digest)];
    assert RunsSingles(longer, listings + [a], ops, digest) && longer[0] == s;
    assert longer[|ops|] == SingleAfter(a, t, ops[|ops| - 1], digest);
  }

  /** Agreement makes the last operation the same on every listing. */
  lemma {:induction false} AgreementDetermines(entries: seq<Entry>, s: Store, t: Store, ops: seq<Order>,
                                               digest: string -> string)
    requires Preflight(entries, ops, digest).Ok? && ops != []
    requires Agrees(entries, s, ops[..|ops| - 1], digest) && Agrees(entries, s, ops, digest)
    requires Replay(s, Preflight(entries, ops[..|ops| - 1], digest).value.writes) == Some(t)
    ensures SameForEveryListing(t, ops[|ops| - 1], digest)
  {
    forall a, b | Lists(a, t) && Lists(b, t)
      ensures SingleAfter(a, t, ops[|ops| - 1], digest) == SingleAfter(b, t, ops[|ops| - 1], digest)
    {
      NextCallAgrees(entries, s, t, ops, a, digest);
      NextCallAgrees(entries, s, t, ops, b, digest);
    }
  }

  /**
   * A batch without collisions and its single calls keep in step on every listing
   * order exactly when each operation has one hit or rewrites what its hits hold.
   */
  lemma {:induction false} BatchMatchesSinglesIff(entries: seq<Entry>, s: Store, ops: seq<Order>,
                                                  digest: string -> string)
    requires Lists(entries, s) && Preflight(entries, ops, digest).Ok? && NoCollision(entries, ops, digest)
    ensures EveryPrefixAgrees(entries, s, ops, digest) <==> AlwaysDetermined(entries, ops, digest)
    decreases |ops|
  {
    if AlwaysDetermined(entries, ops, digest) {
      forall stores, listings | RunsSingles(stores, listings, ops, digest) && stores[0] == s
        ensures Replay(s, Preflight(entries, ops, digest).value.writes) == Some(stores[|ops|])
      {
        BatchIsFoldOfSingles(entries, stores, listings, ops, digest);
      }
    }
    if ops != [] {
      var n := |ops| - 1;
      BatchMatchesSinglesIff(entries, s, ops[..n], digest);
      if EveryPrefixAgrees(entries, s, ops, digest) {
        BatchReplays(entries, s, ops[..n], digest);
        var working := Preflight(entries, ops[..n], digest).value.working;
        var t := Replay(s, Preflight(entries, ops[..n], digest).value.writes).value;
        AgreementDetermines(entries, s, t, ops, digest);
        ListingOrderIff(working, t, ops[n], digest);
      }
    }
  }
}
