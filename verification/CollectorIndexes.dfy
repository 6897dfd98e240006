/**
 * Within one turn the block frames carry a dense sequence of indexes, and an
 * index stands for one provider index between two resets of the step table.
 */
module CollectorIndexes {
  import opened Wrappers
  import opened HistoryModel
  import opened CollectorModel
  import opened CollectorTurns

  predicate IsReset(item: Item) {
    item.StepEntered? && item.reset
  }

  /** A block frame of the turn opened at `o`, among the first `n` items. */
  ghost predicate ShownIn(items: seq<Item>, o: int, i: int) {
    o < i < |items| && 0 <= i && items[i].BlockShown?
  }

  /** The last reset or opening of the turn in progress, or -1 outside a turn. */
  function TableAt(items: seq<Item>): (r: int)
    ensures OpenAt(items) <= r < |items|
    ensures OpenAt(items) >= 0 ==> r >= 0 && (items[r].Opened? || IsReset(items[r]))
    ensures forall i :: r < i < |items| && OpenAt(items) >= 0 ==> !IsReset(items[i])
  {
    if items == [] then -1
    else
      var n := |items| - 1;
      if items[n].Opened? then n
      else if items[n].Closed? then -1
      else if IsReset(items[n]) then n
      else TableAt(items[..n])
  }

  /** The table holds exactly the frames since the last reset, above every earlier index of the turn. */
  ghost predicate TableAgrees(items: seq<Item>, turn: Turn) {
    && TableHolds(items, TableAt(items), turn)
    && (forall l :: l in turn.localIndexes ==> ShowsEntry(items, TableAt(items), l, turn.localIndexes[l]))
    && TableAbove(items, OpenAt(items), TableAt(items), turn)
    && TableInjective(turn)
  }

  ghost predicate TableHolds(items: seq<Item>, r: int, turn: Turn) {
    forall i :: ShownIn(items, r, i) ==>
      items[i].local in turn.localIndexes && turn.localIndexes[items[i].local] == items[i].index
  }

  ghost predicate ShowsEntry(items: seq<Item>, r: int, local: int, index: nat) {
    exists i :: ShownIn(items, r, i) && items[i].local == local && items[i].index == index
  }

  ghost predicate TableAbove(items: seq<Item>, o: int, r: int, turn: Turn) {
    forall i, l :: ShownIn(items, o, i) && i < r && l in turn.localIndexes ==> items[i].index < turn.localIndexes[l]
  }

  ghost predicate TableInjective(turn: Turn) {
    forall k, l :: k in turn.localIndexes && l in turn.localIndexes && k != l ==>
      turn.localIndexes[k] != turn.localIndexes[l]
  }

  /** Every index below the counter has been shown in this turn, and no other. */
  ghost predicate CounterAgrees(items: seq<Item>, turn: Turn) {
    var o := OpenAt(items);
    && (forall i :: ShownIn(items, o, i) ==> items[i].index < turn.nextIndex)
    && (forall l :: l in turn.localIndexes ==> turn.localIndexes[l] < turn.nextIndex)
    && (forall v: nat :: v < turn.nextIndex ==> ShowsIndex(items, o, v))
  }

  ghost predicate ShowsIndex(items: seq<Item>, o: int, v: nat) {
    exists i :: ShownIn(items, o, i) && items[i].index == v
  }

  lemma {:induction false} ShownPrefix(items: seq<Item>, o: int)
    requires items != []
    ensures forall i :: ShownIn(items[..|items| - 1], o, i) ==> ShownIn(items, o, i)
    ensures forall i :: ShownIn(items, o, i) && i < |items| - 1 ==> ShownIn(items[..|items| - 1], o, i)
  {
  }

  lemma {:induction false} IndexesAgree(items: seq<Item>)
    requires Legal(items)
    ensures var s := Replay(INITIAL, items);
            s.active.Some? ==> TableAgrees(items, s.active.value) && CounterAgrees(items, s.active.value)
  {
    if items != [] {
      var n := |items| - 1;
      var init, item := items[..n], items[n];
      IndexesAgree(init);
      OpenAgrees(init);
      var s := Replay(INITIAL, init);
      if item.BlockShown? {
        ShowAgrees(init, item, s.active.value, After(s, item).active.value);
        assert items == init + [item];
      } else if s.active.Some? && !IsBoundary(item) {
        ShownPrefix(items, OpenAt(items));
        ShownPrefix(items, TableAt(items));
        QuietAgrees(init, item, s.active.value, After(s, item).active.value);
        assert items == init + [item];
      }
    }
  }

  /** An item that shows no block keeps the table, or clears it. */
  lemma {:induction false} QuietAgrees(init: seq<Item>, item: Item, turn: Turn, turn': Turn)
    requires TableAgrees(init, turn) && CounterAgrees(init, turn) && OpenAt(init) >= 0
    requires !item.BlockShown? && !IsBoundary(item) && turn'.nextIndex == turn.nextIndex
    requires turn'.localIndexes == if IsReset(item) then map[] else turn.localIndexes
    ensures TableAgrees(init + [item], turn') && CounterAgrees(init + [item], turn')
  {
    var items := init + [item];
    assert items[..|items| - 1] == init;
    ShownPrefix(items, OpenAt(init));
    ShownPrefix(items, TableAt(init));
    forall v: nat | v < turn'.nextIndex
      ensures ShowsIndex(items, OpenAt(items), v)
    {
      assert ShowsIndex(init, OpenAt(init), v);
      var i :| ShownIn(init, OpenAt(init), i) && init[i].index == v;
      assert ShownIn(items, OpenAt(items), i);
    }
    if !IsReset(item) {
      forall l | l in turn'.localIndexes
        ensures ShowsEntry(items, TableAt(items), l, turn'.localIndexes[l])
      {
        assert ShowsEntry(init, TableAt(init), l, turn.localIndexes[l]);
        var i :| ShownIn(init, TableAt(init), i) && init[i].local == l && init[i].index == turn.localIndexes[l];
        assert ShownIn(items, TableAt(items), i);
      }
    }
  }

  /** A block frame adds its provider index to the table, unless it is there already. */
  ghost predicate Shows(turn: Turn, item: Item, turn': Turn) {
    && item.BlockShown? && item.index == IndexOf(turn, item.local)
    && turn'.localIndexes == turn.localIndexes[item.local := item.index]
    && turn'.nextIndex == if item.local in turn.localIndexes then turn.nextIndex else turn.nextIndex + 1
  }

  lemma {:induction false} ShowAgrees(init: seq<Item>, item: Item, turn: Turn, turn': Turn)
    requires TableAgrees(init, turn) && CounterAgrees(init, turn) && OpenAt(init) >= 0
    requires Shows(turn, item, turn')
    ensures TableAgrees(init + [item], turn') && CounterAgrees(init + [item], turn')
  {
    assert (init + [item])[..|init|] == init;
    ShowCounts(init, item, turn, turn');
    ShowTables(init, item, turn, turn');
  }

  lemma {:induction false} ShowCounts(init: seq<Item>, item: Item, turn: Turn, turn': Turn)
    requires CounterAgrees(init, turn) && OpenAt(init) >= 0 && Shows(turn, item, turn')
    ensures CounterAgrees(init + [item], turn')
  {
    var items, n, o := init + [item], |init|, OpenAt(init);
    assert items[..n] == init;
    ShownPrefix(items, o);
    assert ShownIn(items, o, n);
    forall v: nat | v < turn'.nextIndex
      ensures ShowsIndex(items, o, v)
    {
      if v < turn.nextIndex {
        assert ShowsIndex(init, o, v);
        var i :| ShownIn(init, o, i) && init[i].index == v;
        assert ShownIn(items, o, i);
      } else {
        assert items[n].index == v;
      }
    }
  }

  lemma {:induction false} ShowTables(init: seq<Item>, item: Item, turn: Turn, turn': Turn)
    requires TableAgrees(init, turn) && CounterAgrees(init, turn) && OpenAt(init) >= 0 && Shows(turn, item, turn')
    ensures TableAgrees(init + [item], turn')
  {
    var items, n, r := init + [item], |init|, TableAt(init);
    assert items[..n] == init;
    assert OpenAt(items) == OpenAt(init) && TableAt(items) == r;
    ShownPrefix(items, r);
    ShowAbove(init, item, turn, turn');
    forall l | l in turn'.localIndexes
      ensures ShowsEntry(items, r, l, turn'.localIndexes[l])
    {
      if l == item.local {
        assert ShownIn(items, r, n);
      } else {
        assert ShowsEntry(init, r, l, turn.localIndexes[l]);
        var i :| ShownIn(init, r, i) && init[i].local == l && init[i].index == turn.localIndexes[l];
        assert ShownIn(items, r, i);
      }
    }
  }

  lemma {:induction false} ShowAbove(init: seq<Item>, item: Item, turn: Turn, turn': Turn)
    requires TableAgrees(init, turn) && CounterAgrees(init, turn) && OpenAt(init) >= 0 && Shows(turn, item, turn')
    ensures TableAbove(init + [item], OpenAt(init), TableAt(init), turn') && TableInjective(turn')
  {
    var items := init + [item];
    assert items[..|init|] == init;
    ShownPrefix(items, OpenAt(init));
  }

  /** No reset of the step table strictly between `i` and `k`. */
  ghost predicate NoResetBetween(items: seq<Item>, i: nat, k: nat)
    requires i < k <= |items|
  {
    forall j :: i < j < k ==> !IsReset(items[j])
  }

  /**
   * Two block frames of one turn share an index exactly when they have the same
   * provider index and the step table was not reset between them.
   */
  lemma {:induction false} SharedIndex(items: seq<Item>, i: nat, k: nat)
    requires Legal(items) && i < k < |items|
    requires items[i].BlockShown? && items[k].BlockShown? && items[i].turn == items[k].turn
    ensures items[i].index == items[k].index <==>
              items[i].local == items[k].local && NoResetBetween(items, i, k)
  {
    var before := items[..k];
    LegalPrefix(items, k);
    IndexesAgree(before);
    OpenAgrees(before);
    SameTurn(items, i, k);
    var s := Replay(INITIAL, before);
    var o, r := OpenAt(before), TableAt(before);
    assert ShownIn(before, o, i);
    if r < i {
      assert ShownIn(before, r, i);
      assert NoResetBetween(items, i, k);
    } else {
      assert IsReset(items[r]);
      assert !NoResetBetween(items, i, k);
    }
  }

  /** Frames that name one turn stand in it together. */
  lemma {:induction false} SameTurn(items: seq<Item>, i: nat, k: nat)
    requires Legal(items) && i < k < |items|
    requires items[i].BlockShown? && items[k].BlockShown? && items[i].turn == items[k].turn
    ensures OpenAt(items[..k]) >= 0 && OpenAt(items[..k]) < i
    ensures forall j :: i <= j < k ==> !IsBoundary(items[j])
  {
    TurnsAreBracketed(items, i);
    TurnsAreBracketed(items, k);
    var b: nat :| InTurn(items, b, i) && items[b].turn == items[i].turn;
    var c: nat :| InTurn(items, c, k) && items[c].turn == items[k].turn;
    if b < c {
      TurnsAreBracketed(items, c);
    } else if c < b {
      TurnsAreBracketed(items, b);
    }
    assert InTurn(items[..k], c, k);
  }

  /** Indexes are dense from 0: a new index appears only after the one below it. */
  lemma {:induction false} DenseIndexes(items: seq<Item>, k: nat)
    requires Legal(items) && k < |items| && items[k].BlockShown?
    ensures items[k].index == 0 ||
            exists i :: 0 <= i < k && items[i].BlockShown? && items[i].turn == items[k].turn &&
                        items[i].index == items[k].index - 1
  {
    var before := items[..k];
    LegalPrefix(items, k);
    IndexesAgree(before);
    OpenAgrees(before);
    var o := OpenAt(before);
    if items[k].index > 0 {
      var v: nat := items[k].index - 1;
      assert ShowsIndex(before, o, v);
      var i :| ShownIn(before, o, i) && before[i].index == v;
      ShownInTheTurn(items, k, i);
    }
  }

  /** A block frame since the opening of the turn at `k` is one of that turn. */
  lemma {:induction false} ShownInTheTurn(items: seq<Item>, k: nat, i: int)
    requires Legal(items) && k < |items| && items[k].BlockShown?
    requires OpenAt(items[..k]) >= 0 && ShownIn(items[..k], OpenAt(items[..k]), i)
    ensures items[i].turn == items[k].turn
  {
    var o := OpenAt(items[..k]);
    TurnsAreBracketed(items, i);
    TurnsAreBracketed(items, k);
    var b: nat :| InTurn(items, b, i) && items[b].turn == items[i].turn;
    var c: nat :| InTurn(items, c, k) && items[c].turn == items[k].turn;
    assert InTurn(items[..k], o, k) && InTurn(items[..k], c, k);
    assert b == o;
  }

  // ------------------------------------------------------------- step label

  /** The last attempt start, or -1. */
  function StartAt(items: seq<Item>): (l: int)
    ensures -1 <= l < |items|
    ensures l >= 0 ==> items[l].StepEntered?
    ensures forall i :: l < i < |items| ==> !items[i].StepEntered?
  {
    if items == [] then -1
    else if items[|items| - 1].StepEntered? then |items| - 1
    else StartAt(items[..|items| - 1])
  }

  /** Every block frame comes from the attempt started last. */
  ghost predicate FromLatestAttempt(items: seq<Item>) {
    forall k :: 0 <= k < |items| && items[k].BlockShown? ==>
      var l := StartAt(items[..k]);
      l >= 0 && items[l].attempt == items[k].attempt
  }

  lemma {:induction false} LabelsAgree(items: seq<Item>)
    requires Legal(items)
    ensures var s, l := Replay(INITIAL, items), StartAt(items);
            && (l >= 0 && items[l].attempt in s.attempts ==> s.attempts[items[l].attempt] == items[l].step)
            && (s.active.Some? && s.active.value.step.Some? ==>
                  l >= 0 && s.active.value.step.value == items[l].step)
  {
    if items != [] {
      LabelsAgree(items[..|items| - 1]);
    }
  }

  /** Without a reset or a boundary in between, the last declared step does not change. */
  lemma {:induction false} StableLabel(items: seq<Item>, i: nat, k: nat)
    requires Legal(items) && i < k < |items| && NoResetBetween(items, i, k)
    requires !items[i].StepEntered?
    requires forall j :: i <= j < k ==> !IsBoundary(items[j])
    requires StartAt(items[..i]) >= 0
    ensures StartAt(items[..k]) >= 0
    ensures items[StartAt(items[..k])].step == items[StartAt(items[..i])].step
    decreases k
  {
    var j := k - 1;
    assert items[..k][..j] == items[..j];
    if i < j {
      StableLabel(items, i, j);
    }
    if items[j].StepEntered? {
      LegalPrefix(items, j);
      LabelsAgree(items[..j]);
    }
  }

  /** The last start of this attempt, or -1. */
  function DeclaredAt(items: seq<Item>, attempt: string): (l: int)
    ensures -1 <= l < |items|
    ensures l >= 0 ==> items[l].StepEntered? && items[l].attempt == attempt
    ensures forall i :: l < i < |items| && items[i].StepEntered? ==> items[i].attempt != attempt
  {
    if items == [] then -1
    else if items[|items| - 1].StepEntered? && items[|items| - 1].attempt == attempt then |items| - 1
    else DeclaredAt(items[..|items| - 1], attempt)
  }

  lemma {:induction false} BindingsAreDeclared(items: seq<Item>, attempt: string)
    requires Legal(items)
    ensures var s, l := Replay(INITIAL, items), DeclaredAt(items, attempt);
            attempt in s.attempts ==> l >= 0 && s.attempts[attempt] == items[l].step
    decreases |items|
  {
    if items != [] {
      BindingsAreDeclared(items[..|items| - 1], attempt);
    }
  }

  /** The last start of the attempt behind the block frame at `k`. */
  function Source(items: seq<Item>, k: nat): int
    requires k < |items| && items[k].BlockShown?
  {
    DeclaredAt(items[..k], items[k].attempt)
  }

  /** A block frame carries the step its attempt declared last. */
  lemma LabelIsDeclared(items: seq<Item>, k: nat)
    requires Legal(items) && k < |items| && items[k].BlockShown?
    ensures 0 <= Source(items, k) < k && items[k].step == items[Source(items, k)].step
  {
    LegalPrefix(items, k);
    BindingsAreDeclared(items[..k], items[k].attempt);
  }

  /**
   * Two block frames of one turn that share an index carry one step label exactly
   * when the last starts of their attempts declared one step; and the two labels
   * can only differ when at least one attempt is not the one started last.
   */
  lemma SharedIndexSharesStepIff(items: seq<Item>, i: nat, k: nat)
    requires Legal(items) && i < k < |items|
    requires items[i].BlockShown? && items[k].BlockShown? && items[i].turn == items[k].turn
    requires items[i].index == items[k].index
    ensures 0 <= Source(items, i) < i && 0 <= Source(items, k) < k
    ensures items[i].step == items[k].step <==> items[Source(items, i)].step == items[Source(items, k)].step
    ensures Source(items, i) == StartAt(items[..i]) && Source(items, k) == StartAt(items[..k]) ==>
              items[Source(items, i)].step == items[Source(items, k)].step
  {
    LabelIsDeclared(items, i);
    LabelIsDeclared(items, k);
    if Source(items, i) == StartAt(items[..i]) {
      SharedIndex(items, i, k);
      SameTurn(items, i, k);
      StableLabel(items, i, k);
    }
  }

  /** When chunks come only from the attempt started last, an index fixes the step label too. */
  lemma IndexFixesStep(items: seq<Item>, i: nat, k: nat)
    requires Legal(items) && FromLatestAttempt(items) && i < k < |items|
    requires items[i].BlockShown? && items[k].BlockShown? && items[i].turn == items[k].turn
    requires items[i].index == items[k].index
    ensures items[i].step == items[k].step
  {
    LatestIsSource(items, i);
    LatestIsSource(items, k);
    SharedIndexSharesStepIff(items, i, k);
  }

  lemma LatestIsSource(items: seq<Item>, k: nat)
    requires FromLatestAttempt(items) && k < |items| && items[k].BlockShown?
    ensures Source(items, k) == StartAt(items[..k])
  {
    var l := StartAt(items[..k]);
    assert items[..k][l] == items[l];
  }

  /**
   * Both cases happen: two interleaved attempts can show one index under two
   * step labels.
   */
  lemma {:induction false} InterleavedAttemptsShareAnIndex()
    ensures exists events :: SharesAcrossSteps(Trace(events))
  {
    var starts := [AttemptStart("a", Some(1)), AttemptStart("b", Some(2))];
    TwoStarts();
    TwoDeltas(starts);
    assert SharesAcrossSteps(Trace(starts + [DeltaOf("a")] + [DeltaOf("b")]));
  }

  /** A chunk of each attempt after the two starts. */
  lemma {:induction false} TwoDeltas(starts: seq<Event>)
    requires |Trace(starts)| == 3 && Run(INITIAL, Trace(starts)) == Some(STARTED_TWICE)
    ensures SharesAt(Trace(starts + [DeltaOf("a")] + [DeltaOf("b")]), 4, 6)
  {
    var one := starts + [DeltaOf("a")];
    DeltaShows(starts, "a");
    DeltaShows(one, "b");
    assert Trace(one + [DeltaOf("b")])[..5][4] == Trace(one)[4];
  }

  /** Two block frames of one turn show one index under two step labels. */
  ghost predicate SharesAcrossSteps(items: seq<Item>) {
    exists i, k :: SharesAt(items, i, k)
  }

  ghost predicate SharesAt(items: seq<Item>, i: int, k: int) {
    && 0 <= i < k < |items| && items[i].BlockShown? && items[k].BlockShown?
    && items[i].turn == items[k].turn && items[i].index == items[k].index && items[i].step != items[k].step
  }

  /** A text chunk of an attempt, for provider index 0. */
  function DeltaOf(attempt: string): Event {
    AttemptChunk(attempt, Some(TextDelta(Some(0), Some("x"))))
  }

  lemma {:induction false} DeltaShows(events: seq<Event>, attempt: string)
    requires var s := Replay(INITIAL, Trace(events)); s.active.Some? && attempt in s.attempts
    ensures var before, after := Trace(events), Trace(events + [DeltaOf(attempt)]);
            var s, s' := Replay(INITIAL, before), Replay(INITIAL, after);
            var index := IndexOf(s.active.value, 0);
            && |after| == |before| + 2 && after[..|before|] == before
            && after[|before| + 1] == BlockShown(s.active.value.id, attempt, 0, index, s.attempts[attempt], DeltaBody("x"))
            && s'.attempts == s.attempts && s'.active.Some? && s'.active.value.id == s.active.value.id
            && IndexOf(s'.active.value, 0) == index
  {
    var s := Replay(INITIAL, Trace(events));
    var items := Step(s, DeltaOf(attempt));
    Extend(events, DeltaOf(attempt), s, items, After(After(s, items[0]), items[1]));
  }

  /** The state after attempts "a" (step 1) and "b" (step 2) have started. */
  const STARTED_TWICE := Collector(Some(FreshTurn(0).(step := Some(2))), None, map["a" := 1, "b" := 2], 1)

  lemma TwoStarts()
    ensures var starts := [AttemptStart("a", Some(1)), AttemptStart("b", Some(2))];
            |Trace(starts)| == 3 && Run(INITIAL, Trace(starts)) == Some(STARTED_TWICE)
  {
    var e0, e1 := AttemptStart("a", Some(1)), AttemptStart("b", Some(2));
    var s1 := Collector(Some(FreshTurn(0).(step := Some(1))), None, map["a" := 1], 1);
    Extend([], e0, INITIAL, [Opened(0), StepEntered("a", 1, true)], s1);
    assert [] + [e0] == [e0];
    Extend([e0], e1, s1, [StepEntered("b", 2, true)], STARTED_TWICE);
    assert [e0] + [e1] == [e0, e1];
  }

  /** One or two items of one event, done from a known state. */
  lemma {:induction false} Extend(events: seq<Event>, event: Event, s: Collector, items: seq<Item>, s': Collector)
    requires Run(INITIAL, Trace(events)) == Some(s) && Step(s, event) == items
    requires 1 <= |items| <= 2 && May(s, items[0])
    requires |items| == 1 ==> s' == After(s, items[0])
    requires |items| == 2 ==> May(After(s, items[0]), items[1]) && s' == After(After(s, items[0]), items[1])
    ensures Trace(events + [event]) == Trace(events) + items
    ensures Run(INITIAL, Trace(events + [event])) == Some(s')
  {
    TraceSnoc(events, event);
    RunTwo(s, items);
  }

  lemma {:induction false} RunTwo(s: Collector, items: seq<Item>)
    requires 1 <= |items| <= 2 && May(s, items[0])
    requires |items| == 2 ==> May(After(s, items[0]), items[1])
    ensures Run(s, items) == Some(if |items| == 1 then After(s, items[0]) else After(After(s, items[0]), items[1]))
  {
    RunOne(s, items[0]);
    if |items| == 2 {
      RunSnoc(s, [items[0]], items[1]);
      assert [items[0]] + [items[1]] == items;
    } else {
      assert [items[0]] == items;
    }
  }

  /** One more event adds its items. */
  lemma TraceSnoc(events: seq<Event>, event: Event)
    ensures var s := Replay(INITIAL, Trace(events));
            && Trace(events + [event]) == Trace(events) + Step(s, event)
            && Run(INITIAL, Trace(events + [event])) == Run(s, Step(s, event))
  {
    assert (events + [event])[..|events|] == events;
    MayStep(Replay(INITIAL, Trace(events)), event);
    RunAppend(INITIAL, Trace(events), Step(Replay(INITIAL, Trace(events)), event));
  }
}
