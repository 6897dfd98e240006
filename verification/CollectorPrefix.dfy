/**
 * The streamed prefix of a turn: what it holds at every moment, said from the
 * chunks alone, and which calls on the history take it.
 */
module CollectorPrefix {
  import opened Wrappers
  import opened HistoryModel
  import opened CollectorModel
  import opened CollectorTurns

  /** The pending blocks after `ops`, from none. */
  function Fold(ops: seq<PrefixOp>): seq<PendingBlock> {
    if ops == [] then [] else Touch(Fold(ops[..|ops| - 1]), ops[|ops| - 1])
  }

  // ------------------------------------------------- the declarative reading

  predicate IsDelta(op: PrefixOp, index: int) {
    op.Delta? && op.index == index
  }

  predicate IsFinal(op: PrefixOp, index: int) {
    op.Final? && op.index == index
  }

  /** The last block-end of a provider index, or -1. */
  function LastFinal(ops: seq<PrefixOp>, index: int): (f: int)
    ensures -1 <= f < |ops|
    ensures f >= 0 ==> IsFinal(ops[f], index)
    ensures forall i :: f < i < |ops| ==> !IsFinal(ops[i], index)
  {
    if ops == [] then -1
    else if IsFinal(ops[|ops| - 1], index) then |ops| - 1
    else LastFinal(ops[..|ops| - 1], index)
  }

  /** The first delta of a provider index at or after `from`, or -1. */
  function FirstDelta(ops: seq<PrefixOp>, index: int, from: nat): (d: int)
    ensures d == -1 || from <= d < |ops|
    ensures d >= 0 ==> IsDelta(ops[d], index)
    ensures forall i :: from <= i < (if d < 0 then |ops| else d) ==> !IsDelta(ops[i], index)
  {
    if |ops| <= from then -1
    else
      var d := FirstDelta(ops[..|ops| - 1], index, from);
      if d < 0 && IsDelta(ops[|ops| - 1], index) then |ops| - 1 else d
  }

  /** The delta texts of a provider index at or after `from`, in order. */
  function TextFrom(ops: seq<PrefixOp>, index: int, from: nat): string {
    if |ops| <= from then ""
    else
      var text := TextFrom(ops[..|ops| - 1], index, from);
      if IsDelta(ops[|ops| - 1], index) then text + ops[|ops| - 1].text else text
  }

  /** When the block of a provider index took its place: at its last block-end, else at its first delta. */
  function Birth(ops: seq<PrefixOp>, index: int): int {
    if LastFinal(ops, index) >= 0 then LastFinal(ops, index) else FirstDelta(ops, index, 0)
  }

  /** The block of a provider index: the last block-end or the first delta's kind, with every later text. */
  function BlockFor(ops: seq<PrefixOp>, index: int): BlockView
    requires Birth(ops, index) >= 0
  {
    var f := LastFinal(ops, index);
    if f < 0 then
      BlockView(ops[FirstDelta(ops, index, 0)].kind, Some(TextFrom(ops, index, 0)), None, None, None)
    else
      Composed(ops[f].view, FirstDelta(ops, index, f + 1) >= 0, TextFrom(ops, index, f + 1))
  }

  /** A finished block and the text that came after it, if any came. */
  function Composed(view: BlockView, more: bool, text: string): BlockView {
    if more then view.(text := Some(view.text.GetOr("undefined") + text)) else view
  }

  /** Pending holds one block per provider index seen, in order of birth. */
  ghost predicate Declared(pending: seq<PendingBlock>, ops: seq<PrefixOp>) {
    && (forall k :: 0 <= k < |pending| ==> Reads(pending[k], ops))
    && Ordered(pending, ops)
    && (forall i :: Birth(ops, i) >= 0 ==> HasIndex(pending, i))
  }

  ghost predicate Reads(block: PendingBlock, ops: seq<PrefixOp>) {
    Birth(ops, block.index) >= 0 && block.view == BlockFor(ops, block.index)
  }

  ghost predicate Ordered(pending: seq<PendingBlock>, ops: seq<PrefixOp>) {
    forall k, l :: 0 <= k < l < |pending| ==> Birth(ops, pending[k].index) < Birth(ops, pending[l].index)
  }

  ghost predicate HasIndex(pending: seq<PendingBlock>, index: int) {
    exists k :: 0 <= k < |pending| && pending[k].index == index
  }

  /** For every chunk sequence the fold is what the declarative reading says. */
  lemma {:induction false} PendingIsDeclared(ops: seq<PrefixOp>)
    ensures Declared(Fold(ops), ops)
  {
    if ops != [] {
      var init, op := ops[..|ops| - 1], ops[|ops| - 1];
      PendingIsDeclared(init);
      assert init + [op] == ops;
      if op.Delta? {
        DeltaDeclared(Fold(init), init, op);
      } else {
        FinalDeclared(Fold(init), init, op);
      }
    }
  }

  /** What one more op does to the parts of the reading. */
  lemma {:induction false} PartsStep(ops: seq<PrefixOp>, op: PrefixOp, index: int, from: nat)
    requires from <= |ops|
    ensures FirstDelta(ops + [op], index, from) ==
            (if FirstDelta(ops, index, from) < 0 && IsDelta(op, index) then |ops| else FirstDelta(ops, index, from))
    ensures TextFrom(ops + [op], index, from) ==
            (if IsDelta(op, index) then TextFrom(ops, index, from) + op.text else TextFrom(ops, index, from))
    ensures LastFinal(ops + [op], index) == if IsFinal(op, index) then |ops| else LastFinal(ops, index)
  {
    assert (ops + [op])[..|ops|] == ops;
  }

  /** An op leaves the reading of every other provider index. */
  lemma {:induction false} OtherIndex(ops: seq<PrefixOp>, op: PrefixOp, index: int)
    requires op.index != index
    ensures Birth(ops + [op], index) == Birth(ops, index)
    ensures Birth(ops, index) >= 0 ==> BlockFor(ops + [op], index) == BlockFor(ops, index)
  {
    PartsStep(ops, op, index, LastFinal(ops, index) + 1);
    PartsStep(ops, op, index, 0);
  }

  /** A delta extends its block, or opens one. */
  lemma {:induction false} DeltaIndex(ops: seq<PrefixOp>, op: PrefixOp)
    requires op.Delta?
    ensures Birth(ops, op.index) >= 0 ==>
              && Birth(ops + [op], op.index) == Birth(ops, op.index)
              && BlockFor(ops + [op], op.index) == Extended(BlockFor(ops, op.index), op.text)
    ensures Birth(ops, op.index) < 0 ==>
              && Birth(ops + [op], op.index) == |ops|
              && BlockFor(ops + [op], op.index) == Extended(BlockView(op.kind, Some(""), None, None, None), op.text)
  {
    if LastFinal(ops, op.index) >= 0 {
      DeltaAfterFinal(ops, op);
    } else {
      PartsStep(ops, op, op.index, 0);
      if FirstDelta(ops, op.index, 0) < 0 {
        NoText(ops, op.index, 0);
      }
    }
  }

  lemma {:induction false} DeltaAfterFinal(ops: seq<PrefixOp>, op: PrefixOp)
    requires op.Delta? && LastFinal(ops, op.index) >= 0
    ensures Birth(ops + [op], op.index) == Birth(ops, op.index)
    ensures BlockFor(ops + [op], op.index) == Extended(BlockFor(ops, op.index), op.text)
  {
    var f := LastFinal(ops, op.index);
    PartsStep(ops, op, op.index, f + 1);
    if FirstDelta(ops, op.index, f + 1) < 0 {
      NoText(ops, op.index, f + 1);
    }
    ComposedExtends(ops[f].view, FirstDelta(ops, op.index, f + 1) >= 0, TextFrom(ops, op.index, f + 1), op.text);
  }

  lemma ComposedExtends(view: BlockView, more: bool, text: string, added: string)
    requires !more ==> text == ""
    ensures Extended(Composed(view, more, text), added) == Composed(view, true, text + added)
  {
    var base := view.text.GetOr("undefined");
    assert (base + text) + added == base + (text + added);
    assert "" + added == added;
  }

  /** A block-end replaces its block and moves it last. */
  lemma {:induction false} FinalIndex(ops: seq<PrefixOp>, op: PrefixOp)
    requires op.Final?
    ensures Birth(ops + [op], op.index) == |ops| && BlockFor(ops + [op], op.index) == op.view
  {
  }

  lemma {:induction false} NoText(ops: seq<PrefixOp>, index: int, from: nat)
    requires FirstDelta(ops, index, from) < 0
    ensures TextFrom(ops, index, from) == ""
  {
    if |ops| > from {
      NoText(ops[..|ops| - 1], index, from);
    }
  }

  lemma {:induction false} DeltaReads(pending: seq<PendingBlock>, ops: seq<PrefixOp>, op: PrefixOp, k: nat)
    requires Declared(pending, ops) && op.Delta? && k < |Touch(pending, op)|
    ensures var after := Touch(pending, op);
            && Reads(after[k], ops + [op])
            && (k < |pending| ==> after[k].index == pending[k].index)
            && Birth(ops + [op], after[k].index) == if k < |pending| then Birth(ops, after[k].index) else |ops|
  {
    var p := FindPending(pending, op.index);
    assert k < |pending| ==> Reads(pending[k], ops);
    if k == p {
      assert p == |pending| ==> !HasIndex(pending, op.index);
      DeltaIndex(ops, op);
    } else {
      UniqueIndex(pending, ops, k, p);
      OtherIndex(ops, op, pending[k].index);
    }
  }

  lemma {:induction false} DeltaDeclared(pending: seq<PendingBlock>, ops: seq<PrefixOp>, op: PrefixOp)
    requires Declared(pending, ops) && op.Delta?
    ensures Declared(Touch(pending, op), ops + [op])
  {
    forall k | 0 <= k < |Touch(pending, op)|
      ensures var after := Touch(pending, op);
              && Reads(after[k], ops + [op])
              && (k < |pending| ==> after[k].index == pending[k].index)
              && Birth(ops + [op], after[k].index) == if k < |pending| then Birth(ops, after[k].index) else |ops|
    {
      DeltaReads(pending, ops, op, k);
    }
    DeltaComplete(pending, ops, op);
  }

  lemma {:induction false} DeltaComplete(pending: seq<PendingBlock>, ops: seq<PrefixOp>, op: PrefixOp)
    requires Declared(pending, ops) && op.Delta?
    ensures forall i :: Birth(ops + [op], i) >= 0 ==> HasIndex(Touch(pending, op), i)
  {
    var after := Touch(pending, op);
    forall i | Birth(ops + [op], i) >= 0
      ensures HasIndex(after, i)
    {
      if i != op.index {
        OtherIndex(ops, op, i);
      }
      if Birth(ops, i) >= 0 {
        assert HasIndex(pending, i);
        var k :| 0 <= k < |pending| && pending[k].index == i;
        assert after[k].index == i;
      } else {
        assert after[FindPending(pending, i)].index == i;
      }
    }
  }

  lemma UniqueIndex(pending: seq<PendingBlock>, ops: seq<PrefixOp>, k: nat, l: nat)
    requires Ordered(pending, ops) && k < |pending|
    ensures l < |pending| && pending[k].index == pending[l].index ==> k == l
  {
  }

  lemma {:induction false} WithoutMembers(pending: seq<PendingBlock>, index: int)
    ensures forall b :: b in Without(pending, index) <==> b in pending && b.index != index
  {
    if pending != [] {
      var init, last := pending[..|pending| - 1], pending[|pending| - 1];
      WithoutMembers(init, index);
      assert pending == init + [last];
    }
  }

  lemma {:induction false} WithoutKeepsOthers(pending: seq<PendingBlock>, ops: seq<PrefixOp>, index: int)
    requires Ordered(pending, ops)
    ensures forall b :: b in Without(pending, index) <==> b in pending && b.index != index
    ensures Ordered(Without(pending, index), ops)
  {
    WithoutMembers(pending, index);
    if pending != [] {
      var init, last := pending[..|pending| - 1], pending[|pending| - 1];
      WithoutKeepsOthers(init, ops, index);
      LastBorn(pending, Without(init, index), ops);
    }
  }

  /** Blocks taken from before the last one were born before it. */
  lemma {:induction false} LastBorn(pending: seq<PendingBlock>, rest: seq<PendingBlock>, ops: seq<PrefixOp>)
    requires pending != [] && Ordered(pending, ops) && Ordered(rest, ops)
    requires forall b :: b in rest ==> b in pending[..|pending| - 1]
    ensures Ordered(rest + [pending[|pending| - 1]], ops)
  {
    var init, last := pending[..|pending| - 1], pending[|pending| - 1];
    forall k | 0 <= k < |rest| ensures Birth(ops, rest[k].index) < Birth(ops, last.index) {
      assert rest[k] in rest && rest[k] in init;
      var j :| 0 <= j < |init| && init[j] == rest[k];
      assert pending[j] == rest[k] && pending[|pending| - 1] == last;
    }
    var all := rest + [last];
    assert forall k :: 0 <= k < |rest| ==> all[k] == rest[k];
  }

  lemma {:induction false} FinalDeclared(pending: seq<PendingBlock>, ops: seq<PrefixOp>, op: PrefixOp)
    requires Declared(pending, ops) && op.Final?
    ensures Declared(Touch(pending, op), ops + [op])
  {
    var rest, after := Without(pending, op.index), Touch(pending, op);
    WithoutKeepsOthers(pending, ops, op.index);
    forall k | 0 <= k < |after|
      ensures Reads(after[k], ops + [op])
      ensures Birth(ops + [op], after[k].index) == if k < |rest| then Birth(ops, after[k].index) else |ops|
    {
      if k == |rest| {
        FinalIndex(ops, op);
      } else {
        assert rest[k] in rest;
        OtherIndex(ops, op, rest[k].index);
        assert Reads(rest[k], ops);
      }
    }
    FinalComplete(pending, ops, op);
  }

  lemma {:induction false} FinalComplete(pending: seq<PendingBlock>, ops: seq<PrefixOp>, op: PrefixOp)
    requires Declared(pending, ops) && op.Final?
    ensures forall i :: Birth(ops + [op], i) >= 0 ==> HasIndex(Touch(pending, op), i)
  {
    var rest, after := Without(pending, op.index), Touch(pending, op);
    WithoutKeepsOthers(pending, ops, op.index);
    forall i | Birth(ops + [op], i) >= 0
      ensures HasIndex(after, i)
    {
      if i == op.index {
        assert after[|rest|].index == i;
      } else {
        OtherIndex(ops, op, i);
        assert HasIndex(pending, i);
        var k :| 0 <= k < |pending| && pending[k].index == i;
        assert pending[k] in rest;
        var j :| 0 <= j < |rest| && rest[j] == pending[k];
        assert after[j].index == i;
      }
    }
  }

  // ------------------------------------------------------ the prefix of a run

  /** The items that leave no streamed prefix behind. */
  predicate Clears(item: Item) {
    item.Opened? || item.Closed? || item.Recorded? || (item.StepEntered? && item.reset)
  }

  /** The chunks that feed the prefix since the last clearing item. */
  function OpsSince(items: seq<Item>): seq<PrefixOp> {
    if items == [] then []
    else
      var item := items[|items| - 1];
      if Clears(item) then []
      else if item.PrefixTouched? then OpsSince(items[..|items| - 1]) + [item.op]
      else OpsSince(items[..|items| - 1])
  }

  lemma {:induction false} PendingIsOpsSince(items: seq<Item>)
    requires Legal(items)
    ensures var s := Replay(INITIAL, items);
            s.active.Some? ==> s.active.value.pending == Fold(OpsSince(items))
  {
    if items != [] {
      var init := items[..|items| - 1];
      PendingIsOpsSince(init);
      var ops := OpsSince(init);
      if items[|items| - 1].PrefixTouched? {
        assert (ops + [items[|items| - 1].op])[..|ops|] == ops;
      }
    }
  }

  /**
   * In every legal trace the pending prefix is the declarative reading of the
   * chunks since the last step change, assistant message or turn boundary.
   */
  lemma PendingOfARun(items: seq<Item>)
    requires Legal(items) && Replay(INITIAL, items).active.Some?
    ensures Declared(Replay(INITIAL, items).active.value.pending, OpsSince(items))
  {
    PendingIsOpsSince(items);
    PendingIsDeclared(OpsSince(items));
  }

  /** Where the chunks of the prefix stand: those since the last clearing item. */
  function Sources(items: seq<Item>): seq<nat> {
    if items == [] then []
    else
      var n := |items| - 1;
      if Clears(items[n]) then []
      else if items[n].PrefixTouched? then Sources(items[..n]) + [n]
      else Sources(items[..n])
  }

  /** The prefix's chunks are the touches after the last clearing item, each once and in order. */
  lemma {:induction false} SourcesAreTheTouches(items: seq<Item>)
    ensures var from := Sources(items);
            && |OpsSince(items)| == |from|
            && (forall i :: 0 <= i < |from| ==>
                  from[i] < |items| && items[from[i]].PrefixTouched? && OpsSince(items)[i] == items[from[i]].op)
            && (forall i, j :: 0 <= i < j < |from| ==> from[i] < from[j])
    ensures forall q :: q in Sources(items) <==>
              0 <= q < |items| && items[q].PrefixTouched? && forall i :: q <= i < |items| ==> !Clears(items[i])
    decreases |items|
  {
    if items != [] {
      var n := |items| - 1;
      SourcesAreTheTouches(items[..n]);
    }
  }

  /** The streamed chunk at `q` is in the prefix that the output call at `k` appends or supersedes. */
  ghost predicate TakenAt(items: seq<Item>, q: nat, k: nat) {
    k < |items| && items[k].Recorded? && q in Sources(items[..k])
  }

  /**
   * A streamed prefix is taken at most once. The call of a settlement has exactly
   * the blocks of the chunks since the last clearing item, flagged interrupted;
   * and no chunk is taken by two calls.
   */
  lemma PrefixTakenOnce(items: seq<Item>, k: nat)
    requires Legal(items) && k < |items| && items[k].Recorded?
    ensures items[k].fromPrefix ==>
              && items[k].interrupted
              && items[k].content == Views(Fold(OpsSince(items[..k])))
              && |items[k].content| > 0
    ensures forall q: nat, l: nat :: TakenAt(items, q, k) && TakenAt(items, q, l) ==> l == k
  {
    LegalPrefix(items, k);
    PendingIsOpsSince(items[..k]);
    forall q: nat, l: nat | TakenAt(items, q, k) && TakenAt(items, q, l) ensures l == k {
      TakenIsGone(items, q, k, l);
      TakenIsGone(items, q, l, k);
    }
  }

  /** Once a call took a chunk, no later prefix has it. */
  lemma TakenIsGone(items: seq<Item>, q: nat, k: nat, l: nat)
    requires TakenAt(items, q, k) && TakenAt(items, q, l)
    ensures l <= k
  {
    SourcesAreTheTouches(items[..k]);
    SourcesAreTheTouches(items[..l]);
  }

  predicate IsPrefixWrite(items: seq<Item>, k: nat) {
    k < |items| && items[k].Recorded? && items[k].fromPrefix
  }

  predicate IsErrorEnd(items: seq<Item>, k: nat) {
    k < |items| && items[k].Closed? && items[k].outcome.Error?
  }

  ghost predicate WritesEndInError(items: seq<Item>) {
    forall k: nat :: IsPrefixWrite(items, k) ==> IsErrorEnd(items, k + 1)
  }

  lemma {:induction false} WritesOfAStep(s: Collector, event: Event)
    ensures WritesEndInError(Step(s, event))
  {
    forall k: nat | IsPrefixWrite(Step(s, event), k) ensures IsErrorEnd(Step(s, event), k + 1) {
      assert event.Status? ==> s.active.Some? && Step(s, event) == Settle(s);
    }
  }

  lemma {:induction false} WritesJoin(a: seq<Item>, b: seq<Item>)
    requires WritesEndInError(a) && WritesEndInError(b)
    ensures WritesEndInError(a + b)
  {
    forall k: nat | IsPrefixWrite(a + b, k) ensures IsErrorEnd(a + b, k + 1) {
      if k < |a| {
        assert IsPrefixWrite(a, k);
      } else {
        assert IsPrefixWrite(b, k - |a|);
        assert IsErrorEnd(b, k - |a| + 1);
      }
    }
  }

  /** A settlement's call for its prefix is always followed by the ERROR end of its turn. */
  lemma {:induction false} PrefixWriteEndsTheTurn(events: seq<Event>)
    ensures WritesEndInError(Trace(events))
    decreases |events|
  {
    if events != [] {
      var before := Trace(events[..|events| - 1]);
      PrefixWriteEndsTheTurn(events[..|events| - 1]);
      WritesOfAStep(Replay(INITIAL, before), events[|events| - 1]);
      WritesJoin(before, Step(Replay(INITIAL, before), events[|events| - 1]));
    }
  }
}
