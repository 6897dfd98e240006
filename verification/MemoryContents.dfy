/**
 * The texts a batch leaves, when entries with identical content make the
 * located ids depend on the listing order: the ids may differ from those single
 * calls would leave, the multiset of contents never does.
 */
module MemoryContents {
  import opened Wrappers
  import opened Texts
  import opened MemoryPlan
  import opened MemorySingles

  function ContentsOf(entries: seq<Entry>): multiset<string> {
    if entries == [] then multiset{}
    else ContentsOf(entries[..|entries| - 1]) + multiset{entries[|entries| - 1].content}
  }

  lemma {:induction false} ContentsMember(entries: seq<Entry>, content: string)
    ensures content in ContentsOf(entries) <==> exists e :: e in entries && e.content == content
    ensures content in ContentsOf(entries) <==> HasContent(entries, content)
    decreases |entries|
  {
    if entries != [] {
      var init, last := entries[..|entries| - 1], entries[|entries| - 1];
      ContentsMember(init, content);
      assert entries == init + [last];
      if content in ContentsOf(entries) {
        if last.content == content {
          assert entries[|init|].content == content && entries[|init|] in entries;
        } else {
          var i :| 0 <= i < |init| && init[i].content == content;
          assert entries[i].content == content && entries[i] in entries;
        }
      }
      if HasContent(entries, content) {
        var i :| 0 <= i < |entries| && entries[i].content == content;
        assert i < |init| ==> init[i].content == content;
      }
      forall e | e in entries && e.content == content ensures HasContent(entries, content) {
        var i :| 0 <= i < |entries| && entries[i] == e;
      }
    }
  }

  lemma {:induction false} ContentsAppend(a: seq<Entry>, b: seq<Entry>)
    ensures ContentsOf(a + b) == ContentsOf(a) + ContentsOf(b)
    decreases |b|
  {
    if b == [] {
      assert a + b == a;
    } else {
      var init := b[..|b| - 1];
      assert (a + b)[..|a + b| - 1] == a + init;
      ContentsAppend(a, init);
    }
  }

  lemma {:induction false} ContentsOfOne(e: Entry)
    ensures ContentsOf([e]) == multiset{e.content}
  {
    assert [e][..0] == [];
  }

  lemma {:induction false} ContentsSplit(entries: seq<Entry>, k: nat)
    requires k < |entries|
    ensures ContentsOf(entries) == ContentsOf(entries[..k]) + ContentsOf(entries[k + 1..]) + multiset{entries[k].content}
  {
    assert entries == entries[..k] + ([entries[k]] + entries[k + 1..]);
    ContentsAppend(entries[..k], [entries[k]] + entries[k + 1..]);
    ContentsAppend([entries[k]], entries[k + 1..]);
    ContentsOfOne(entries[k]);
  }

  /** What a change does to the contents, whatever the ids are. */
  function ChangedContents(m: multiset<string>, entries: seq<Entry>, c: Change): multiset<string>
    requires c.In(entries)
  {
    match c
    case Nothing => m
    case Added(_, content) => m + multiset{content}
    case Replaced(k, content) => m - multiset{entries[k].content} + multiset{content}
    case Removed(k) => m - multiset{entries[k].content}
  }

  lemma {:induction false} ContentsOfReplaced(entries: seq<Entry>, k: nat, e: Entry)
    requires k < |entries|
    ensures ContentsOf(entries[k := e]) == ContentsOf(entries) - multiset{entries[k].content} + multiset{e.content}
  {
    var after := entries[k := e];
    assert after[..k] == entries[..k] && after[k + 1..] == entries[k + 1..];
    ContentsSplit(entries, k);
    ContentsSplit(after, k);
  }

  lemma {:induction false} ContentsOfRemoved(entries: seq<Entry>, k: nat)
    requires k < |entries|
    ensures ContentsOf(entries[..k] + entries[k + 1..]) == ContentsOf(entries) - multiset{entries[k].content}
  {
    ContentsSplit(entries, k);
    ContentsAppend(entries[..k], entries[k + 1..]);
  }

  lemma {:induction false} ContentsOfChanged(entries: seq<Entry>, c: Change)
    requires c.In(entries)
    ensures ContentsOf(Changed(entries, c)) == ChangedContents(ContentsOf(entries), entries, c)
  {
    match c
    case Nothing =>
    case Added(id, content) =>
      ContentsAppend(entries, [Entry(id, content)]);
      ContentsOfOne(Entry(id, content));
    case Replaced(k, content) => ContentsOfReplaced(entries, k, Entry(entries[k].id, content));
    case Removed(k) => ContentsOfRemoved(entries, k);
  }

  /** An old_text that is only in entries of one content, and in one of them, addresses that content. */
  lemma {:induction false} MatchesSole(b: seq<Entry>, part: string, f: Entry)
    requires f in b && part != "" && Includes(f.content, part)
    requires forall e :: e in b && Includes(e.content, part) ==> e.content == f.content
    ensures MatchBySubstring(b, part).Ok?
    ensures MatchBySubstring(b, part).value.content == f.content
  {
    var hits := Hits(b, part);
    assert f in hits;
    assert forall i :: 0 <= i < |hits| ==> hits[i] in hits;
  }

  lemma {:induction false} MatchTransfers(a: seq<Entry>, b: seq<Entry>, part: string)
    requires ContentsOf(a) == ContentsOf(b)
    requires MatchBySubstring(a, part).Ok?
    ensures MatchBySubstring(b, part).Ok?
    ensures MatchBySubstring(b, part).value.content == MatchBySubstring(a, part).value.content
  {
    var c := MatchBySubstring(a, part).value.content;
    assert Includes(c, part) && part != "";
    assert forall e :: e in a && Includes(e.content, part) ==> e.content == c;
    ContentsMember(a, c);
    ContentsMember(b, c);
    var f :| f in b && f.content == c;
    forall e | e in b && Includes(e.content, part) ensures e.content == c {
      ContentsMember(b, e.content);
      ContentsMember(a, e.content);
    }
    MatchesSole(b, part, f);
  }

  /** The part of a decision that does not name ids or places. */
  datatype Effect = Keeps | Puts(content: string) | Swaps(was: string, content: string) | Drops(was: string)

  function EffectOf(entries: seq<Entry>, c: Change): Effect
    requires c.In(entries)
  {
    match c
    case Nothing => Keeps
    case Added(_, content) => Puts(content)
    case Replaced(k, content) => Swaps(entries[k].content, content)
    case Removed(k) => Drops(entries[k].content)
  }

  lemma {:induction false} IndexOfHit(entries: seq<Entry>, part: string)
    requires DistinctIds(entries) && MatchBySubstring(entries, part).Ok?
    ensures var e := MatchBySubstring(entries, part).value;
            IndexOf(entries, e.id) < |entries| && entries[IndexOf(entries, e.id)] == e
  {
    IndexOfMember(entries, MatchBySubstring(entries, part).value);
  }

  /** Listings with the same contents are decided alike: same verdict, same effect on the contents. */
  lemma {:induction false} DecidesAlike(a: seq<Entry>, b: seq<Entry>, op: Order, digest: string -> string)
    requires DistinctIds(a) && DistinctIds(b) && ContentsOf(a) == ContentsOf(b)
    requires Decide(a, op, digest).Ok?
    ensures Decide(b, op, digest).Ok?
    ensures EffectOf(b, Decide(b, op, digest).value) == EffectOf(a, Decide(a, op, digest).value)
  {
    var content, part := op.content, op.part;
    match op.action
    case Add => AddsAlike(a, b, content, digest);
    case Replace => ReplacesAlike(a, b, part, content);
    case Remove => RemovesAlike(a, b, part);
    case Other(_) =>
  }

  lemma {:induction false} AddsAlike(a: seq<Entry>, b: seq<Entry>, content: string, digest: string -> string)
    requires ContentsOf(a) == ContentsOf(b) && DecideAdd(a, content, digest).Ok?
    ensures DecideAdd(b, content, digest) == DecideAdd(a, content, digest)
  {
    ContentsMember(a, content);
    ContentsMember(b, content);
  }

  lemma {:induction false} ReplaceEffect(a: seq<Entry>, part: string, content: string)
    requires DistinctIds(a) && part != "" && Acceptable(content) && MatchBySubstring(a, part).Ok?
    ensures DecideReplace(a, part, content).Ok?
    ensures EffectOf(a, DecideReplace(a, part, content).value)
         == Swaps(MatchBySubstring(a, part).value.content, content)
  {
    IndexOfHit(a, part);
  }

  lemma {:induction false} ReplacesAlike(a: seq<Entry>, b: seq<Entry>, part: string, content: string)
    requires DistinctIds(a) && DistinctIds(b) && ContentsOf(a) == ContentsOf(b)
    requires DecideReplace(a, part, content).Ok?
    ensures DecideReplace(b, part, content).Ok?
    ensures EffectOf(b, DecideReplace(b, part, content).value)
         == EffectOf(a, DecideReplace(a, part, content).value)
  {
    MatchTransfers(a, b, part);
    ReplaceEffect(a, part, content);
    ReplaceEffect(b, part, content);
  }

  lemma {:induction false} RemoveEffect(a: seq<Entry>, part: string)
    requires DistinctIds(a) && part != "" && MatchBySubstring(a, part).Ok?
    ensures DecideRemove(a, part).Ok?
    ensures EffectOf(a, DecideRemove(a, part).value) == Drops(MatchBySubstring(a, part).value.content)
  {
    IndexOfHit(a, part);
  }

  lemma {:induction false} RemovesAlike(a: seq<Entry>, b: seq<Entry>, part: string)
    requires DistinctIds(a) && DistinctIds(b) && ContentsOf(a) == ContentsOf(b)
    requires DecideRemove(a, part).Ok?
    ensures DecideRemove(b, part).Ok?
    ensures EffectOf(b, DecideRemove(b, part).value) == EffectOf(a, DecideRemove(a, part).value)
  {
    MatchTransfers(a, b, part);
    RemoveEffect(a, part);
    RemoveEffect(b, part);
  }

  lemma {:induction false} AlikeChanges(a: seq<Entry>, b: seq<Entry>, c: Change, d: Change)
    requires ContentsOf(a) == ContentsOf(b) && c.In(a) && d.In(b) && EffectOf(a, c) == EffectOf(b, d)
    ensures ContentsOf(Changed(a, c)) == ContentsOf(Changed(b, d))
  {
    ContentsOfChanged(a, c);
    ContentsOfChanged(b, d);
  }

  // --------------------------------------------------------------- the batch

  /** No single call of the run has its create turned away by a live id. */
  predicate NoneBlocked(listings: seq<seq<Entry>>, ops: seq<Order>, digest: string -> string)
    requires |listings| == |ops|
  {
    || ops == []
    || (NoneBlocked(listings[..|ops| - 1], ops[..|ops| - 1], digest)
        && !Collides(listings[|ops| - 1], ops[|ops| - 1], digest))
  }

  /**
   * Without collisions on either side, a batch and its single calls are accepted
   * alike and leave the same contents, however the listings are ordered.
   */
  lemma {:induction false} SameContentsAsSingles(entries: seq<Entry>, stores: seq<Store>, listings: seq<seq<Entry>>,
                                                 final: seq<Entry>, ops: seq<Order>, digest: string -> string)
    requires RunsSingles(stores, listings, ops, digest)
    requires Lists(entries, stores[0]) && Lists(final, stores[|ops|])
    requires NoCollision(entries, ops, digest) && NoneBlocked(listings, ops, digest)
    requires Preflight(entries, ops, digest).Ok?
    ensures EverySingleAccepted(listings, ops, digest)
    ensures DistinctIds(Preflight(entries, ops, digest).value.working)
    ensures ContentsOf(Preflight(entries, ops, digest).value.working) == ContentsOf(final)
    decreases |ops|
  {
    BatchReplays(entries, stores[0], ops, digest);
    if ops == [] {
      SameStoreSameContents(entries, final, stores[0]);
    } else {
      var n := |ops| - 1;
      RunsFewer(stores, listings, ops, digest);
      SameContentsAsSingles(entries, stores[..n + 1], listings[..n], listings[n], ops[..n], digest);
      var before := Preflight(entries, ops[..n], digest).value;
      SingleKeepsContents(before.working, listings[n], final, stores[n], ops[n], digest);
    }
  }

  lemma {:induction false} SingleKeepsContents(working: seq<Entry>, listing: seq<Entry>, final: seq<Entry>, s: Store,
                                               op: Order, digest: string -> string)
    requires DistinctIds(working) && Lists(listing, s) && ContentsOf(working) == ContentsOf(listing)
    requires Decide(working, op, digest).Ok? && !Collides(listing, op, digest)
    requires Lists(final, SingleAfter(listing, s, op, digest))
    ensures DecideSingle(listing, op, digest).Ok?
    ensures ContentsOf(Changed(working, Decide(working, op, digest).value)) == ContentsOf(final)
  {
    DecidesAlike(working, listing, op, digest);
    SingleAcceptsLikeBatch(listing, op, digest);
    var c := Decide(listing, op, digest).value;
    ContentsAfterChange(listing, final, s, c);
    AlikeChanges(working, listing, Decide(working, op, digest).value, c);
  }

  lemma {:induction false} ContentsAfterChange(listing: seq<Entry>, final: seq<Entry>, s: Store, c: Change)
    requires Lists(listing, s) && c.In(listing) && !Blocked(listing, c)
    requires Lists(final, Replay(s, Queued(listing, c, 0)).GetOr(s))
    ensures ContentsOf(Changed(listing, c)) == ContentsOf(final)
  {
    ChangeInStep(listing, s, c, 0);
    SameStoreSameContents(Changed(listing, c), final, Replay(s, Queued(listing, c, 0)).value);
  }

  lemma SomeMember(entries: seq<Entry>)
    ensures entries != [] ==> exists e :: e in entries
  {
    if entries != [] {
      assert entries[0] in entries;
    }
  }

  lemma {:induction false} SameStoreSameContents(a: seq<Entry>, b: seq<Entry>, s: Store)
    requires Lists(a, s) && Lists(b, s)
    ensures ContentsOf(a) == ContentsOf(b)
    decreases |a|
  {
    if a == [] {
      SomeMember(b);
      SameMembers(b, a, s);
    } else {
      var n := |a| - 1;
      SameMembers(a, b, s);
      assert a[n] in b;
      var k :| 0 <= k < |b| && b[k] == a[n];
      CutLists(a, s, n);
      CutLists(b, s, k);
      SameStoreSameContents(Cut(a, n), Cut(b, k), s - {a[n].id});
    }
  }

  /** The entries but the k-th. */
  function Cut(entries: seq<Entry>, k: nat): (rest: seq<Entry>)
    requires k < |entries|
    ensures |rest| == |entries| - 1
  {
    entries[..k] + entries[k + 1..]
  }

  lemma {:induction false} CutLists(entries: seq<Entry>, s: Store, k: nat)
    requires Lists(entries, s) && k < |entries|
    ensures Lists(Cut(entries, k), s - {entries[k].id})
    ensures ContentsOf(entries) == ContentsOf(Cut(entries, k)) + multiset{entries[k].content}
  {
    RemoveStep(entries, s, k, 0);
    ContentsSplit(entries, k);
    ContentsAppend(entries[..k], entries[k + 1..]);
  }
}
