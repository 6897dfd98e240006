/**
 * What becomes of a streamed chunk once its turn has ended: whether the history
 * shows its block and its text, decided by the item that cleared it from the
 * prefix and by what the call made there shows.
 */
module CollectorFates {
  import opened Wrappers
  import opened HistoryModel
  import opened CollectorModel
  import opened CollectorTurns
  import opened CollectorPrefix
  import opened PrefixEntries
  import Collectors

  // ------------------------------------------------------------ what a call does

  /** The projections after the output call of an item, from `p`. */
  function Called(p: Projection, role: string, recordView: bool, item: Item): Projection
    requires p.InStore() && item.Recorded?
  {
    Do(p, AppendOutput(role, item.content, item.interrupted, recordView))
  }

  /** The merge grew by one entry of `role`, a new message of these blocks. */
  ghost predicate AddsEntry(p: Projection, q: Projection, role: string, blocks: seq<ContentBlock>, interrupted: bool) {
    && q.merge == p.merge + [MergeRef(role, |p.messages| + 1, p.nextSeq)]
    && q.messages == p.messages + [MessageM(|p.messages| + 1, Agent, blocks, interrupted)]
  }

  /** An output call adds one entry, of the blocks that show, exactly when one shows; otherwise it does nothing. */
  lemma CallAddsIff(p: Projection, role: string, recordView: bool, item: Item)
    requires p.InStore() && item.Recorded?
    ensures Called(p, role, recordView, item) == p <==> Displayed(item.content) == []
    ensures Displayed(item.content) != [] ==>
              AddsEntry(p, Called(p, role, recordView, item), role, Displayed(item.content), item.interrupted)
  {
    var q := Called(p, role, recordView, item);
    if Displayed(item.content) != [] {
      assert |q.merge| == |p.merge| + 1;
    }
  }

  // ------------------------------------------------------------------- the fates

  /** The first item from `q` on that clears the prefix, or the length. */
  function FirstClear(items: seq<Item>, q: nat): (c: nat)
    requires q <= |items|
    ensures q <= c <= |items|
    ensures c < |items| ==> Clears(items[c])
    ensures forall i :: q <= i < c ==> !Clears(items[i])
    decreases |items| - q
  {
    if q == |items| || Clears(items[q]) then q else FirstClear(items, q + 1)
  }

  lemma FirstClearAt(items: seq<Item>, q: nat, c: nat)
    requires q <= c < |items| && Clears(items[c]) && forall i :: q <= i < c ==> !Clears(items[i])
    ensures FirstClear(items, q) == c
  {
    assert FirstClear(items, q) < |items| ==> Clears(items[FirstClear(items, q)]);
  }

  /**
   * What becomes of a streamed chunk: its block is in the interrupted entry of a
   * settlement, or has no display there; an assistant message supersedes it, with
   * an entry of its own or with none; a step reset drops it; or the turn ends with
   * it unrecorded.
   */
  datatype Fate = InEntry | Unshown | Superseded | Erased | Dropped | Left

  function FateOf(items: seq<Item>, q: nat): Fate
    requires q < |items| && items[q].PrefixTouched? && FirstClear(items, q) < |items|
  {
    var c := FirstClear(items, q);
    var clear := items[c];
    if clear.Recorded? && clear.fromPrefix then
      if HasDisplay(OpsSince(items[..c]), items[q].op.index) then InEntry else Unshown
    else if clear.Recorded? then
      if Displayed(clear.content) != [] then Superseded else Erased
    else if clear.StepEntered? then Dropped
    else Left
  }

  /** The prefix under `index` shows a block in the interrupted entry. */
  predicate ShowsBlock(ops: seq<PrefixOp>, index: int) {
    index in ShownIndexes(Fold(ops))
  }

  /** The call at `c`, made with the history at `p`, for each fate. */
  ghost predicate FateHolds(fate: Fate, items: seq<Item>, q: nat, c: nat, p: Projection, role: string, recordView: bool)
    requires q < c < |items| && items[q].PrefixTouched? && p.InStore()
  {
    var call, ops := items[c], OpsSince(items[..c]);
    match fate
    case InEntry =>
      && TakenAt(items, q, c) && call.fromPrefix && ShowsBlock(ops, items[q].op.index)
      && AddsEntry(p, Called(p, role, recordView, call), role, Entry(ops), true)
    case Unshown =>
      && TakenAt(items, q, c) && call.fromPrefix && !ShowsBlock(ops, items[q].op.index)
      && if Entry(ops) == [] then Called(p, role, recordView, call) == p
         else AddsEntry(p, Called(p, role, recordView, call), role, Entry(ops), true)
    case Superseded =>
      && TakenAt(items, q, c) && !call.fromPrefix
      && AddsEntry(p, Called(p, role, recordView, call), role, Displayed(call.content), call.interrupted)
    case Erased => TakenAt(items, q, c) && !call.fromPrefix && Called(p, role, recordView, call) == p
    case Dropped => call.StepEntered? && call.reset && forall l: nat :: !TakenAt(items, q, l)
    case Left =>
      && call.Closed? && !(call.outcome.Error? && exists f: nat :: FirstFailure(items, f, c))
      && forall l: nat :: !TakenAt(items, q, l)
  }

  /**
   * The fate of every streamed chunk of a closed turn, whatever the history holds
   * when its prefix is cleared. At a settlement the interrupted entry shows the
   * chunk's block exactly when that block has a display projection, and there is
   * no entry when no block has one; an assistant message replaces the prefix by
   * what it shows itself, if anything; a step reset loses it; and a turn end that
   * still finds it is not an ERROR after a failure.
   */
  lemma {:induction false} FateOfAChunk(items: seq<Item>, q: nat, k: nat, p: Projection, role: string,
                                        recordView: bool)
    requires Legal(items) && q < k < |items| && items[q].PrefixTouched? && items[k].Closed?
    requires forall i :: q < i < k ==> !IsBoundary(items[i])
    requires p.InStore()
    ensures q < FirstClear(items, q) <= k
    ensures FateHolds(FateOf(items, q), items, q, FirstClear(items, q), p, role, recordView)
  {
    var c := FirstClear(items, q);
    assert Clears(items[k]) && !Clears(items[q]);
    TakenOnlyAtTheClear(items, q, c);
    if items[c].Recorded? {
      PrefixTakenOnce(items, c);
      CallAddsIff(p, role, recordView, items[c]);
      EntryIsDeclared(OpsSince(items[..c]));
    } else if c == k {
      LeftOnlyOtherwise(items, q, k);
    }
  }

  lemma TakenOnlyAtTheClear(items: seq<Item>, q: nat, c: nat)
    requires q < c < |items| && items[q].PrefixTouched? && Clears(items[c])
    requires forall i :: q <= i < c ==> !Clears(items[i])
    ensures items[c].Recorded? ==> TakenAt(items, q, c)
    ensures forall l: nat :: TakenAt(items, q, l) ==> l == c
  {
    SourcesAreTheTouches(items[..c]);
    forall l: nat | TakenAt(items, q, l) ensures l == c {
      SourcesAreTheTouches(items[..l]);
      assert items[l].Recorded? && Clears(items[l]);
      assert items[..l][q] == items[q];
    }
  }

  /** A turn end that still finds a streamed chunk is no ERROR settlement after a failure. */
  lemma LeftOnlyOtherwise(items: seq<Item>, q: nat, k: nat)
    requires Legal(items) && q < k < |items| && items[q].PrefixTouched? && items[k].Closed?
    requires forall i :: q <= i < k ==> !Clears(items[i])
    ensures !(items[k].outcome.Error? && exists f: nat :: FirstFailure(items, f, k))
  {
    LegalPrefix(items, k);
    var before := items[..k];
    SourcesAreTheTouches(before);
    assert before[q] == items[q];
    assert q in Sources(before);
    PendingIsOpsSince(before);
    FoldOfSome(OpsSince(before));
    if exists f: nat :: FirstFailure(items, f, k) {
      FailureIsSeen(items, k);
    }
  }

  /** The state at a turn end knows of the failure of its turn. */
  lemma FailureIsSeen(items: seq<Item>, k: nat)
    requires Legal(items) && k < |items| && items[k].Closed? && Legal(items[..k])
    requires exists f: nat :: FirstFailure(items, f, k)
    ensures var s := Replay(INITIAL, items[..k]); s.active.Some? ==> s.active.value.failure.Some?
  {
    var before := items[..k];
    OpenAgrees(before);
    FailureAgrees(before);
    var f: nat :| FirstFailure(items, f, k);
    var b: nat :| InTurn(items, b, k) && b < f && forall i :: b < i < f ==> !items[i].FailureSeen?;
    assert InTurn(before, b, k);
    assert before[f].FailureSeen?;
  }

  lemma {:induction false} FoldOfSome(ops: seq<PrefixOp>)
    requires ops != []
    ensures Fold(ops) != []
  {
  }

  // ------------------------------------------------------- the text of a delta

  function Place(places: seq<nat>, q: nat): (t: nat)
    requires q in places
    ensures t < |places| && places[t] == q
  {
    if places[0] == q then 0 else 1 + Place(places[1..], q)
  }

  predicate FinalBetween(items: seq<Item>, q: nat, c: nat, index: int)
    requires c <= |items|
  {
    exists u :: q < u < c && items[u].PrefixTouched? && IsFinal(items[u].op, index)
  }

  /**
   * The interrupted entry of a settlement depends on the text of a streamed delta
   * exactly when no block-end of its provider index came between the delta and the
   * settlement, and the block there is one that shows text.
   */
  lemma {:induction false} TextReachesEntryIff(items: seq<Item>, q: nat, c: nat)
    requires TakenAt(items, q, c) && q < c && items[q].PrefixTouched? && items[q].op.Delta?
    ensures var ops, t := OpsSince(items[..c]), Place(Sources(items[..c]), q);
            && t < |ops| && ops[t] == items[q].op
            && (TextMatters(ops, t) <==>
                  !FinalBetween(items, q, c, items[q].op.index) && HasTextBlock(ops, items[q].op.index))
  {
    var before := items[..c];
    var ops, index := OpsSince(before), items[q].op.index;
    SourcesAreTheTouches(before);
    var t := Place(Sources(before), q);
    TextMattersIff(ops, t);
    FinalsBetween(items, q, c, t);
  }

  lemma {:induction false} FinalsBetween(items: seq<Item>, q: nat, c: nat, t: nat)
    requires TakenAt(items, q, c) && q < c && items[q].PrefixTouched? && items[q].op.Delta?
    requires t < |Sources(items[..c])| && Sources(items[..c])[t] == q
    requires t < |OpsSince(items[..c])| && OpsSince(items[..c])[t] == items[q].op
    ensures FinalBetween(items, q, c, items[q].op.index) <==> LastFinal(OpsSince(items[..c]), items[q].op.index) > t
  {
    var before, index := items[..c], items[q].op.index;
    var places, ops := Sources(before), OpsSince(before);
    SourcesAreTheTouches(before);
    var f := LastFinal(ops, index);
    if f > t {
      assert items[places[f]].op == ops[f];
    }
    if FinalBetween(items, q, c, index) {
      var u :| q < u < c && items[u].PrefixTouched? && IsFinal(items[u].op, index);
      assert before[u] == items[u];
      assert u in places;
      var j :| 0 <= j < |places| && places[j] == u;
      assert ops[j] == items[u].op;
    }
  }

  // ------------------------------------------------------------- the ERROR turn

  /**
   * The settlement of a failed turn as the history sees it: it adds the
   * interrupted entry of the pending prefix exactly when one of its blocks has a
   * display projection, and otherwise changes nothing.
   */
  lemma {:induction false} ErrorTurnEntry(events: seq<Event>, o: Collectors.Output, role: string, recordView: bool)
    requires o.projection.InStore()
    requires var s := Replay(INITIAL, Trace(events));
             s.active.Some? && s.active.value.failure.Some? && Settlement(s).Error?
    ensures var s, ops := Replay(INITIAL, Trace(events)), OpsSince(Trace(events));
            var q := Collectors.Perform(o, role, recordView, Step(s, Status("idle"))).projection;
            if exists i :: HasDisplay(ops, i) then AddsEntry(o.projection, q, role, Entry(ops), true)
            else q == o.projection
  {
    var s, ops := Replay(INITIAL, Trace(events)), OpsSince(Trace(events));
    PendingIsOpsSince(Trace(events));
    EntryIsDeclared(ops);
    var call := Recorded(Views(Fold(ops)), true, true);
    SettlementCalls(s, o, role, recordView, call);
    CallAddsIff(o.projection, role, recordView, call);
  }

  /** A failed turn's settlement leaves the history as one call for its prefix would, an empty one included. */
  lemma {:induction false} SettlementCalls(s: Collector, o: Collectors.Output, role: string, recordView: bool,
                                           call: Item)
    requires o.projection.InStore()
    requires s.active.Some? && s.active.value.failure.Some? && Settlement(s).Error?
    requires call == Recorded(Views(s.active.value.pending), true, true)
    ensures Collectors.Perform(o, role, recordView, Step(s, Status("idle"))).projection
         == Called(o.projection, role, recordView, call)
  {
    var closed := Closed(s.active.value.id, Settlement(s), None);
    if s.active.value.pending == [] {
      Collectors.PerformOne(o, role, recordView, closed);
    } else {
      Collectors.PerformOne(o, role, recordView, call);
      Collectors.PerformSnoc(o, role, recordView, [call], closed);
    }
  }

  // ------------------------------------------- ERROR turns that record nothing

  /** One more item of a trace whose state so far is known. */
  lemma {:induction false} Grow(items: seq<Item>, n: nat, s: Collector, t: Collector)
    requires n < |items| && (n == 0 ==> s == INITIAL) && (n > 0 ==> Run(INITIAL, items[..n]) == Some(s))
    requires May(s, items[n]) && After(s, items[n]) == t
    ensures Run(INITIAL, items[..n + 1]) == Some(t)
  {
    assert items[..n] + [items[n]] == items[..n + 1];
    if n == 0 {
      assert items[..0] == [];
    }
    RunSnoc(INITIAL, items[..n], items[n]);
  }

  /** A turn whose first step streams one chunk, then does the items of `rest`. */
  function Streaming(op: PrefixOp, rest: seq<Item>): seq<Item> {
    [Opened(0), StepEntered("a", 1, true), PrefixTouched(op)] + rest
  }

  /** The state once the chunk is in. */
  function Streamed(op: PrefixOp): Collector {
    Collector(Some(FreshTurn(0).(step := Some(1), pending := Touch([], op))), None, map["a" := 1], 1)
  }

  lemma {:induction false} StreamingRuns(op: PrefixOp, rest: seq<Item>)
    ensures Run(INITIAL, Streaming(op, rest)[..3]) == Some(Streamed(op))
  {
    var items := Streaming(op, rest);
    var begun := Collector(Some(FreshTurn(0)), None, map[], 1);
    var inOne := Collector(Some(FreshTurn(0).(step := Some(1))), None, map["a" := 1], 1);
    Grow(items, 0, INITIAL, begun);
    Grow(items, 1, begun, inOne);
    Grow(items, 2, inOne, Streamed(op));
  }

  /** A trace whose ERROR turn recorded nothing of a streamed text: a step reset dropped it. */
  function ResetTrace(text: string, failure: Failure): seq<Item> {
    Streaming(Delta(0, "text", text),
              [StepEntered("b", 2, true), FailureSeen(failure), Closed(0, Error(Some(failure)), None)])
  }

  /** The reset is needed among the fates: this is a legal trace, and its chunk is dropped. */
  lemma {:induction false} ResetDropsBeforeError(text: string, failure: Failure)
    ensures var items := ResetTrace(text, failure);
            && Legal(items) && FirstFailure(items, 4, 5) && FateOf(items, 2) == Dropped
            && forall l: nat :: !TakenAt(items, 2, l)
  {
    var items := ResetTrace(text, failure);
    ResetTraceIsLegal(text, failure);
    assert InTurn(items, 0, 5);
    FirstClearAt(items, 2, 3);
    TakenOnlyAtTheClear(items, 2, 3);
  }

  lemma {:induction false} ResetTraceIsLegal(text: string, failure: Failure)
    ensures Legal(ResetTrace(text, failure))
  {
    var items, op := ResetTrace(text, failure), Delta(0, "text", text);
    var two := FreshTurn(0).(step := Some(2));
    var bound := map["a" := 1]["b" := 2];
    StreamingRuns(op, items[3..]);
    Grow(items, 3, Streamed(op), Collector(Some(two), None, bound, 1));
    Grow(items, 4, Collector(Some(two), None, bound, 1), Collector(Some(two.(failure := Some(failure))), None, bound, 1));
    Grow(items, 5, Collector(Some(two.(failure := Some(failure))), None, bound, 1), Collector(None, None, bound, 1));
    assert items[..6] == items;
  }

  /** A failed turn whose settlement finds one block, `view`. */
  function SettledTrace(view: BlockView, failure: Failure): seq<Item> {
    Streaming(Final(0, view),
              [FailureSeen(failure), Recorded([view], true, true), Closed(0, Error(Some(failure)), None)])
  }

  /** A block of a kind that has no display projection leaves the ERROR turn without an entry. */
  lemma {:induction false} UnshownBlockLeavesNoEntry(view: BlockView, failure: Failure, p: Projection, role: string,
                                                     recordView: bool)
    requires ToContentBlock(view).None? && p.InStore()
    ensures var items := SettledTrace(view, failure);
            && Legal(items) && FirstFailure(items, 3, 5) && FateOf(items, 2) == Unshown
            && items[4].Recorded? && Called(p, role, recordView, items[4]) == p
  {
    var items := SettledTrace(view, failure);
    SettledTraceIsLegal(view, failure);
    assert InTurn(items, 0, 5);
    FirstClearAt(items, 2, 4);
    assert [view][..0] == [];
    assert Displayed([view]) == [];
    CallAddsIff(p, role, recordView, items[4]);
    OneChunk(items, 1);
    FinalAlone(Final(0, view));
  }

  lemma {:induction false} OpsGrow(items: seq<Item>, n: nat)
    requires n < |items|
    ensures OpsSince(items[..n + 1]) ==
            if Clears(items[n]) then []
            else if items[n].PrefixTouched? then OpsSince(items[..n]) + [items[n].op]
            else OpsSince(items[..n])
  {
    assert items[..n + 1][..n] == items[..n];
  }

  /** After a clearing item and one chunk, the prefix has that chunk only. */
  lemma {:induction false} OneChunk(items: seq<Item>, n: nat)
    requires n + 2 < |items| && Clears(items[n]) && items[n + 1].PrefixTouched?
    requires !Clears(items[n + 2]) && !items[n + 2].PrefixTouched?
    ensures OpsSince(items[..n + 3]) == [items[n + 1].op]
  {
    OpsGrow(items, n);
    OpsGrow(items, n + 1);
    OpsGrow(items, n + 2);
  }

  lemma {:induction false} FinalAlone(op: PrefixOp)
    requires op.Final?
    ensures Birth([op], op.index) == 0 && BlockFor([op], op.index) == op.view
  {
    FinalIndex([], op);
    assert [] + [op] == [op];
  }

  lemma {:induction false} SettledTraceIsLegal(view: BlockView, failure: Failure)
    ensures Legal(SettledTrace(view, failure))
  {
    var items, op := SettledTrace(view, failure), Final(0, view);
    var turn, bound := Streamed(op).active.value.(failure := Some(failure)), map["a" := 1];
    StreamingRuns(op, items[3..]);
    assert Without([], 0) == [];
    assert Touch([], op) == [PendingBlock(0, view)];
    assert Views(turn.pending) == [view];
    Grow(items, 3, Streamed(op), Collector(Some(turn), None, bound, 1));
    Grow(items, 4, Collector(Some(turn), None, bound, 1), Collector(Some(turn.(pending := [])), None, bound, 1));
    Grow(items, 5, Collector(Some(turn.(pending := [])), None, bound, 1), Collector(None, None, bound, 1));
    assert items[..6] == items;
  }

  /** A failed turn whose streamed text an empty assistant message supersedes. */
  function EmptyMessageTrace(text: string, failure: Failure): seq<Item> {
    Streaming(Delta(0, "text", text),
              [Recorded([], false, false), FailureSeen(failure), Closed(0, Error(Some(failure)), None)])
  }

  /** An assistant message that shows nothing loses the streamed text of an ERROR turn without any step reset. */
  lemma {:induction false} EmptyMessageErases(text: string, failure: Failure, p: Projection, role: string,
                                              recordView: bool)
    requires p.InStore()
    ensures var items := EmptyMessageTrace(text, failure);
            && Legal(items) && FirstFailure(items, 4, 5) && FateOf(items, 2) == Erased
            && items[3].Recorded? && Called(p, role, recordView, items[3]) == p
  {
    var items := EmptyMessageTrace(text, failure);
    EmptyMessageTraceIsLegal(text, failure);
    assert InTurn(items, 0, 5);
    FirstClearAt(items, 2, 3);
    CallAddsIff(p, role, recordView, items[3]);
  }

  lemma {:induction false} EmptyMessageTraceIsLegal(text: string, failure: Failure)
    ensures Legal(EmptyMessageTrace(text, failure))
  {
    var items, op := EmptyMessageTrace(text, failure), Delta(0, "text", text);
    var turn, bound := Streamed(op).active.value.(pending := []), map["a" := 1];
    var failed := turn.(failure := Some(failure));
    StreamingRuns(op, items[3..]);
    Grow(items, 3, Streamed(op), Collector(Some(turn), None, bound, 1));
    Grow(items, 4, Collector(Some(turn), None, bound, 1), Collector(Some(failed), None, bound, 1));
    Grow(items, 5, Collector(Some(failed), None, bound, 1), Collector(None, None, bound, 1));
    assert items[..6] == items;
  }
}
