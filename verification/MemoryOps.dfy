/**
 * What a batch does to the entries, told from the operations as the tool receives
 * them: which are accepted, and what each leaves of the entries before it.
 */
module MemoryOps {
  import opened Wrappers
  import opened Texts
  import opened MemoryPlan

  /** The content of an operation as it is kept. */
  function Text(op: MemoryOp): string {
    Trim(if op.content.Some? then op.content.value else "", JsTrim)
  }

  /** The text an operation looks for. */
  function Locator(op: MemoryOp): string {
    Trim(if op.oldText.Some? then op.oldText.value else "", JsTrim)
  }

  predicate OccursAt(text: string, part: string, i: nat) {
    i + |part| <= |text| && text[i..i + |part|] == part
  }

  predicate Contains(text: string, part: string) {
    exists i: nat | i <= |text| :: OccursAt(text, part, i)
  }

  predicate Fits(text: string) {
    1 <= |text| <= 1024
  }

  /** The locator is in some entry, and all the entries it is in hold one content. */
  predicate Locates(entries: seq<Entry>, part: string) {
    && part != ""
    && (exists i :: 0 <= i < |entries| && Contains(entries[i].content, part))
    && (forall i, j ::
          (0 <= i < |entries| && 0 <= j < |entries|
           && Contains(entries[i].content, part) && Contains(entries[j].content, part)) ==>
            entries[i].content == entries[j].content)
  }

  /** An operation with this text and this locator is accepted. */
  predicate Passes(entries: seq<Entry>, action: Action, text: string, part: string) {
    match action
    case Add => Fits(text)
    case Replace => Fits(text) && Locates(entries, part)
    case Remove => Locates(entries, part)
    case Other(_) => false
  }

  predicate Accepted(entries: seq<Entry>, op: MemoryOp) {
    Passes(entries, op.action, Text(op), Locator(op))
  }

  /** Entry `k` is the one an accepted locator addresses: the first with the id of the first hit. */
  predicate Addressed(entries: seq<Entry>, part: string, k: nat) {
    k < |entries| && exists h | 0 <= h < |entries| :: FirstHit(entries, part, h) && FirstWithId(entries, entries[h].id, k)
  }

  predicate FirstHit(entries: seq<Entry>, part: string, h: int) {
    && 0 <= h < |entries| && Contains(entries[h].content, part)
    && forall i :: 0 <= i < h ==> !Contains(entries[i].content, part)
  }

  predicate FirstWithId(entries: seq<Entry>, id: string, k: int) {
    0 <= k < |entries| && entries[k].id == id && forall i :: 0 <= i < k ==> entries[i].id != id
  }

  /** With distinct ids the addressed entry is the first hit itself. */
  lemma AddressedIsFirstHit(entries: seq<Entry>, part: string, k: nat)
    requires DistinctIds(entries)
    ensures Addressed(entries, part, k) <==> FirstHit(entries, part, k)
  {
    if FirstHit(entries, part, k) {
      assert FirstWithId(entries, entries[k].id, k);
    }
  }

  predicate HasText(entries: seq<Entry>, text: string) {
    exists i :: 0 <= i < |entries| && entries[i].content == text
  }

  /** What an accepted operation with this text and this locator leaves. */
  ghost predicate Leaves(before: seq<Entry>, action: Action, text: string, part: string, after: seq<Entry>,
                         digest: string -> string)
  {
    match action
    case Add => after == if HasText(before, text) then before else before + [Entry(digest(text), text)]
    case Replace =>
      exists k: nat :: Addressed(before, part, k) && after == before[k := Entry(before[k].id, text)]
    case Remove =>
      exists k: nat :: Addressed(before, part, k) && after == before[..k] + before[k + 1..]
    case Other(_) => false
  }

  /** The operation is accepted, and `after` is what it leaves. */
  ghost predicate OpTakes(before: seq<Entry>, op: MemoryOp, after: seq<Entry>, digest: string -> string) {
    Accepted(before, op) && Leaves(before, op.action, Text(op), Locator(op), after, digest)
  }

  /** The entries before, between and after the first `n` operations, which are all accepted. */
  ghost predicate Chain(entries: seq<Entry>, ops: seq<MemoryOp>, n: nat, states: seq<seq<Entry>>,
                        digest: string -> string)
    requires n <= |ops|
  {
    && |states| == n + 1 && states[0] == entries
    && forall i :: 0 <= i < n ==> OpTakes(states[i], ops[i], states[i + 1], digest)
  }

  /** The first `n` operations are all accepted, one after the other, and end in `last`. */
  ghost predicate AllAccepted(entries: seq<Entry>, ops: seq<MemoryOp>, n: nat, last: seq<Entry>,
                              digest: string -> string)
    requires n <= |ops|
  {
    exists states :: Chain(entries, ops, n, states, digest) && states[n] == last
  }

  /** Operation number `position` is the first that is not accepted where it stands. */
  ghost predicate FirstRefused(entries: seq<Entry>, ops: seq<MemoryOp>, position: nat, digest: string -> string) {
    1 <= position <= |ops| && RefusedAfter(entries, ops, position - 1, digest)
  }

  ghost predicate RefusedAfter(entries: seq<Entry>, ops: seq<MemoryOp>, n: nat, digest: string -> string)
    requires n < |ops|
  {
    exists last :: AllAccepted(entries, ops, n, last, digest) && !Accepted(last, ops[n])
  }

  /** All the operations are accepted, and `last` is what they leave. */
  ghost predicate BatchAccepted(entries: seq<Entry>, ops: seq<MemoryOp>, last: seq<Entry>, digest: string -> string) {
    AllAccepted(entries, ops, |ops|, last, digest)
  }

  // -------------------------------------------------------------------- the proof

  lemma {:induction false} ContainsIsIncludes(text: string, part: string)
    ensures Contains(text, part) <==> Includes(text, part)
  {
    if Includes(text, part) {
      var i :| 0 <= i <= |text| && IncludesAt(text, part, i);
      assert OccursAt(text, part, i);
    }
    if Contains(text, part) {
      var i: nat :| i <= |text| && OccursAt(text, part, i);
      assert IncludesAt(text, part, i);
    }
  }

  lemma {:induction false} LocatesIsMatch(entries: seq<Entry>, part: string)
    ensures Locates(entries, part) <==> MatchBySubstring(entries, part).Ok?
  {
    MatchIff(entries, part);
    forall text ensures Contains(text, part) <==> Includes(text, part) {
      ContainsIsIncludes(text, part);
    }
    if MatchBySubstring(entries, part).Ok? {
      var e :| e in entries && Includes(e.content, part);
      var i :| 0 <= i < |entries| && entries[i] == e;
    }
  }

  lemma {:induction false} FirstHitStays(entries: seq<Entry>, init: seq<Entry>, part: string, h: int)
    requires |init| <= |entries| && init == entries[..|init|] && FirstHit(init, part, h)
    ensures FirstHit(entries, part, h) && entries[h] == init[h]
  {
    forall i | 0 <= i < h ensures !Contains(entries[i].content, part) {
      assert init[i] == entries[i];
    }
  }

  lemma {:induction false} NoHits(entries: seq<Entry>, part: string)
    requires Hits(entries, part) == []
    ensures forall i :: 0 <= i < |entries| ==> !Contains(entries[i].content, part)
  {
    forall i | 0 <= i < |entries| ensures !Contains(entries[i].content, part) {
      ContainsIsIncludes(entries[i].content, part);
      assert entries[i] in entries && entries[i] !in Hits(entries, part);
    }
  }

  /** The first hit heads the list of hits. */
  lemma {:induction false} FirstHitHeads(entries: seq<Entry>, part: string)
    requires Hits(entries, part) != []
    ensures exists h :: FirstHit(entries, part, h) && entries[h] == Hits(entries, part)[0]
  {
    var n := |entries| - 1;
    var init := entries[..n];
    if Hits(init, part) != [] {
      FirstHitHeads(init, part);
      var h :| FirstHit(init, part, h) && init[h] == Hits(init, part)[0];
      FirstHitStays(entries, init, part, h);
    } else {
      NoHits(init, part);
      ContainsIsIncludes(entries[n].content, part);
      forall i | 0 <= i < n ensures !Contains(entries[i].content, part) {
        assert init[i] == entries[i];
      }
      assert FirstHit(entries, part, n);
    }
  }

  lemma {:induction false} MatchAddresses(entries: seq<Entry>, part: string)
    requires MatchBySubstring(entries, part).Ok?
    ensures Addressed(entries, part, IndexOf(entries, MatchBySubstring(entries, part).value.id))
  {
    var e := MatchBySubstring(entries, part).value;
    FirstHitHeads(entries, part);
    var h :| FirstHit(entries, part, h) && entries[h] == e;
    assert IndexOf(entries, e.id) < |entries|;
    assert FirstWithId(entries, entries[h].id, IndexOf(entries, e.id));
  }

  lemma {:induction false} DecisionPasses(entries: seq<Entry>, o: Order, digest: string -> string)
    ensures Decide(entries, o, digest).Ok? <==> Passes(entries, o.action, o.content, o.part)
  {
    AcceptedIff(entries, o, digest);
    LocatesIsMatch(entries, o.part);
  }

  lemma {:induction false} AddLeaves(entries: seq<Entry>, text: string, part: string, digest: string -> string)
    requires DecideAdd(entries, text, digest).Ok?
    ensures Leaves(entries, Add, text, part, Changed(entries, DecideAdd(entries, text, digest).value), digest)
  {
    assert HasText(entries, text) <==> HasContent(entries, text);
  }

  lemma {:induction false} ReplaceLeaves(entries: seq<Entry>, text: string, part: string, digest: string -> string)
    requires DecideReplace(entries, part, text).Ok?
    ensures Leaves(entries, Replace, text, part, Changed(entries, DecideReplace(entries, part, text).value), digest)
  {
    MatchAddresses(entries, part);
    var k := IndexOf(entries, MatchBySubstring(entries, part).value.id);
    assert DecideReplace(entries, part, text).value == Replaced(k, text);
    assert Addressed(entries, part, k);
  }

  lemma {:induction false} RemoveLeaves(entries: seq<Entry>, text: string, part: string, digest: string -> string)
    requires DecideRemove(entries, part).Ok?
    ensures Leaves(entries, Remove, text, part, Changed(entries, DecideRemove(entries, part).value), digest)
  {
    MatchAddresses(entries, part);
    var k := IndexOf(entries, MatchBySubstring(entries, part).value.id);
    assert DecideRemove(entries, part).value == Removed(k);
    assert Addressed(entries, part, k);
  }

  lemma {:induction false} DecisionLeaves(entries: seq<Entry>, o: Order, digest: string -> string)
    requires Decide(entries, o, digest).Ok?
    ensures Leaves(entries, o.action, o.content, o.part, Changed(entries, Decide(entries, o, digest).value), digest)
  {
    match o.action
    case Add => AddLeaves(entries, o.content, o.part, digest);
    case Replace => ReplaceLeaves(entries, o.content, o.part, digest);
    case Remove => RemoveLeaves(entries, o.content, o.part, digest);
    case Other(_) =>
  }

  /** As `Chain`, on the orders the batch works with. */
  ghost predicate OrderChain(entries: seq<Entry>, orders: seq<Order>, n: nat, states: seq<seq<Entry>>,
                             digest: string -> string)
    requires n <= |orders|
  {
    && |states| == n + 1 && states[0] == entries
    && forall i :: 0 <= i < n ==> OrderTakes(states[i], orders[i], states[i + 1], digest)
  }

  ghost predicate OrderTakes(before: seq<Entry>, o: Order, after: seq<Entry>, digest: string -> string) {
    Passes(before, o.action, o.content, o.part) && Leaves(before, o.action, o.content, o.part, after, digest)
  }

  lemma {:induction false} ChainGrows(entries: seq<Entry>, orders: seq<Order>, n: nat, states: seq<seq<Entry>>,
                                      after: seq<Entry>, digest: string -> string)
    requires n < |orders| && OrderChain(entries, orders, n, states, digest)
    requires OrderTakes(states[n], orders[n], after, digest)
    ensures OrderChain(entries, orders, n + 1, states + [after], digest)
  {
    var longer := states + [after];
    forall i | 0 <= i < n + 1 ensures OrderTakes(longer[i], orders[i], longer[i + 1], digest) {
      if i < n {
        assert longer[i] == states[i] && longer[i + 1] == states[i + 1];
      }
    }
  }

  /** The preflight of the first `n` orders: the states it goes through, and the first refusal, if there is one. */
  lemma {:induction false} PreflightUpTo(entries: seq<Entry>, orders: seq<Order>, n: nat, digest: string -> string)
    returns (states: seq<seq<Entry>>)
    requires n <= |orders|
    ensures var r := Preflight(entries, orders[..n], digest);
            if r.Ok? then OrderChain(entries, orders, n, states, digest) && states[n] == r.value.working
            else StopsAt(entries, orders, r.error.position, states, digest)
    decreases n
  {
    if n == 0 {
      states := [entries];
    } else {
      assert orders[..n][..n - 1] == orders[..n - 1];
      states := PreflightUpTo(entries, orders, n - 1, digest);
      var before := Preflight(entries, orders[..n - 1], digest);
      if before.Ok? {
        DecisionPasses(states[n - 1], orders[n - 1], digest);
        var c := Decide(states[n - 1], orders[n - 1], digest);
        if c.Ok? {
          DecisionLeaves(states[n - 1], orders[n - 1], digest);
          ChainGrows(entries, orders, n - 1, states, Changed(states[n - 1], c.value), digest);
          states := states + [Changed(states[n - 1], c.value)];
        }
      }
    }
  }

  ghost predicate StopsAt(entries: seq<Entry>, orders: seq<Order>, position: nat, states: seq<seq<Entry>>,
                          digest: string -> string)
  {
    && 1 <= position <= |orders| && OrderChain(entries, orders, position - 1, states, digest)
    && var o := orders[position - 1]; !Passes(states[position - 1], o.action, o.content, o.part)
  }

  /** An operation's text and locator are its order's. */
  lemma OrderIs(op: MemoryOp)
    ensures OrderOf(op) == Order(op.action, Text(op), Locator(op))
  {
  }

  lemma {:induction false} OpOfOrder(before: seq<Entry>, op: MemoryOp, after: seq<Entry>, digest: string -> string)
    requires OrderTakes(before, OrderOf(op), after, digest)
    ensures OpTakes(before, op, after, digest)
  {
    OrderIs(op);
  }

  lemma {:induction false} ChainOfOrders(entries: seq<Entry>, ops: seq<MemoryOp>, n: nat, states: seq<seq<Entry>>,
                                         digest: string -> string)
    requires n <= |ops| && OrderChain(entries, OrdersOf(ops), n, states, digest)
    ensures Chain(entries, ops, n, states, digest)
  {
    forall i | 0 <= i < n ensures OpTakes(states[i], ops[i], states[i + 1], digest) {
      assert OrderTakes(states[i], OrdersOf(ops)[i], states[i + 1], digest);
      OpOfOrder(states[i], ops[i], states[i + 1], digest);
    }
  }

  /** The preflight of a batch, told from the operations as they are received. */
  lemma {:induction false} PreflightAccepts(entries: seq<Entry>, ops: seq<MemoryOp>, digest: string -> string)
    ensures var r := Preflight(entries, OrdersOf(ops), digest);
            if r.Ok? then BatchAccepted(entries, ops, r.value.working, digest)
            else FirstRefused(entries, ops, r.error.position, digest)
  {
    var orders := OrdersOf(ops);
    assert orders[..|ops|] == orders;
    var states := PreflightUpTo(entries, orders, |ops|, digest);
    if Preflight(entries, orders, digest).Ok? {
      ChainOfOrders(entries, ops, |ops|, states, digest);
    } else {
      StopsAtOp(entries, ops, Preflight(entries, orders, digest).error.position, states, digest);
    }
  }

  lemma {:induction false} StopsAtOp(entries: seq<Entry>, ops: seq<MemoryOp>, position: nat, states: seq<seq<Entry>>,
                                     digest: string -> string)
    requires StopsAt(entries, OrdersOf(ops), position, states, digest)
    ensures FirstRefused(entries, ops, position, digest)
  {
    var n := position - 1;
    ChainOfOrders(entries, ops, n, states, digest);
    OrderIs(ops[n]);
    assert AllAccepted(entries, ops, n, states[n], digest) && !Accepted(states[n], ops[n]);
  }
}
