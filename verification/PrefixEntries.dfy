/**
 * The interrupted entry a streamed prefix would make, said from the chunks: which
 * of their blocks it shows, and whose texts it depends on. A block without a
 * display projection is not shown, and a prefix of such blocks makes no entry.
 */
module PrefixEntries {
  import opened Wrappers
  import opened HistoryModel
  import opened CollectorModel
  import opened CollectorPrefix

  /** The blocks that the prefix of these chunks shows. */
  function Entry(ops: seq<PrefixOp>): seq<ContentBlock> {
    Displayed(Views(Fold(ops)))
  }

  /** The provider indexes of the blocks that show, in order. */
  function ShownIndexes(pending: seq<PendingBlock>): seq<int> {
    if pending == [] then []
    else
      var last := pending[|pending| - 1];
      ShownIndexes(pending[..|pending| - 1]) + (if ToContentBlock(last.view).Some? then [last.index] else [])
  }

  /** The chunks declare a block under this provider index, and the block has a display projection. */
  predicate HasDisplay(ops: seq<PrefixOp>, index: int) {
    Birth(ops, index) >= 0 && ToContentBlock(BlockFor(ops, index)).Some?
  }

  /** `entry` shows the blocks of `shown`, in order of birth. */
  ghost predicate Shows(entry: seq<ContentBlock>, shown: seq<int>, ops: seq<PrefixOp>) {
    && |entry| == |shown|
    && (forall j :: 0 <= j < |shown| ==>
          HasDisplay(ops, shown[j]) && entry[j] == ToContentBlock(BlockFor(ops, shown[j])).value)
    && (forall i, j :: 0 <= i < j < |shown| ==> Birth(ops, shown[i]) < Birth(ops, shown[j]))
  }

  function OneShown(block: PendingBlock): seq<ContentBlock> {
    if ToContentBlock(block.view).Some? then [ToContentBlock(block.view).value] else []
  }

  /** What the pending blocks show, block by block. */
  function DisplayedOf(pending: seq<PendingBlock>): seq<ContentBlock> {
    if pending == [] then [] else DisplayedOf(pending[..|pending| - 1]) + OneShown(pending[|pending| - 1])
  }

  lemma {:induction false} DisplayedViews(pending: seq<PendingBlock>)
    ensures Displayed(Views(pending)) == DisplayedOf(pending)
    decreases |pending|
  {
    if pending != [] {
      DisplayedViews(pending[..|pending| - 1]);
      assert Views(pending)[..|pending| - 1] == Views(pending[..|pending| - 1]);
    }
  }

  lemma {:induction false} ShowsMore(entry: seq<ContentBlock>, shown: seq<int>, ops: seq<PrefixOp>, index: int)
    requires Shows(entry, shown, ops) && HasDisplay(ops, index)
    requires forall i :: i in shown ==> Birth(ops, i) < Birth(ops, index)
    ensures Shows(entry + [ToContentBlock(BlockFor(ops, index)).value], shown + [index], ops)
  {
    assert forall j :: 0 <= j < |shown| ==> shown[j] in shown;
  }

  lemma {:induction false} ShownOf(pending: seq<PendingBlock>, ops: seq<PrefixOp>)
    requires forall k :: 0 <= k < |pending| ==> Reads(pending[k], ops)
    requires Ordered(pending, ops)
    ensures Shows(DisplayedOf(pending), ShownIndexes(pending), ops)
    ensures forall i :: i in ShownIndexes(pending) <==> HasIndex(pending, i) && HasDisplay(ops, i)
    decreases |pending|
  {
    if pending != [] {
      var init, last := pending[..|pending| - 1], pending[|pending| - 1];
      ShownOf(init, ops);
      assert Reads(last, ops);
      if HasDisplay(ops, last.index) {
        BornBefore(pending, init, last, ops);
        ShowsMore(DisplayedOf(init), ShownIndexes(init), ops, last.index);
      }
      forall i ensures i in ShownIndexes(pending) <==> HasIndex(pending, i) && HasDisplay(ops, i) {
        IndexOfInit(pending, i);
      }
    }
  }

  /** All but the last block were born before it. */
  lemma {:induction false} BornBefore(pending: seq<PendingBlock>, init: seq<PendingBlock>, last: PendingBlock,
                                      ops: seq<PrefixOp>)
    requires pending == init + [last] && Ordered(pending, ops)
    ensures forall i :: HasIndex(init, i) ==> Birth(ops, i) < Birth(ops, last.index)
  {
    forall i | HasIndex(init, i) ensures Birth(ops, i) < Birth(ops, last.index) {
      var k :| 0 <= k < |init| && init[k].index == i;
      assert pending[k].index == i && pending[|init|] == last;
    }
  }

  lemma IndexOfInit(pending: seq<PendingBlock>, index: int)
    requires pending != []
    ensures HasIndex(pending, index) <==>
            HasIndex(pending[..|pending| - 1], index) || pending[|pending| - 1].index == index
  {
    var n := |pending| - 1;
    if HasIndex(pending, index) && pending[n].index != index {
      var k :| 0 <= k < |pending| && pending[k].index == index;
      assert pending[..n][k].index == index;
    }
    if HasIndex(pending[..n], index) {
      var k :| 0 <= k < n && pending[..n][k].index == index;
      assert pending[k].index == index;
    }
  }

  /**
   * The entry shows exactly the blocks with a display projection, one for each
   * provider index, in order of birth; so there is none without such a block.
   */
  lemma {:induction false} EntryIsDeclared(ops: seq<PrefixOp>)
    ensures Shows(Entry(ops), ShownIndexes(Fold(ops)), ops)
    ensures forall i :: i in ShownIndexes(Fold(ops)) <==> HasDisplay(ops, i)
    ensures Entry(ops) != [] <==> exists i :: HasDisplay(ops, i)
  {
    PendingIsDeclared(ops);
    DisplayedViews(Fold(ops));
    ShownOf(Fold(ops), ops);
    var shown := ShownIndexes(Fold(ops));
    if Entry(ops) != [] {
      assert HasDisplay(ops, shown[0]);
    }
    if i :| HasDisplay(ops, i) {
      assert i in shown;
    }
  }

  // ------------------------------------------------------- the text of a chunk

  /** The same chunks, the delta at `t` bringing another text. */
  function Retexted(ops: seq<PrefixOp>, t: nat, other: string): seq<PrefixOp>
    requires t < |ops| && ops[t].Delta?
  {
    ops[t := ops[t].(text := other)]
  }

  /** The entry depends on the text of the delta at `t`. */
  ghost predicate TextMatters(ops: seq<PrefixOp>, t: nat)
    requires t < |ops| && ops[t].Delta?
  {
    exists other :: Entry(Retexted(ops, t, other)) != Entry(ops)
  }

  /** A block that shows its text. */
  predicate IsTextual(view: BlockView) {
    view.kind == "text" || view.kind == "reasoning"
  }

  predicate HasTextBlock(ops: seq<PrefixOp>, index: int) {
    Birth(ops, index) >= 0 && IsTextual(BlockFor(ops, index))
  }

  /** Equal but for the text of the block under `index`, which is `gap` longer in `b`. */
  ghost predicate Alike(a: seq<PendingBlock>, b: seq<PendingBlock>, index: int, gap: int) {
    && |a| == |b|
    && forall k :: 0 <= k < |a| ==> BlockAlike(a[k], b[k], index, gap)
  }

  predicate BlockAlike(x: PendingBlock, y: PendingBlock, index: int, gap: int) {
    && x.index == y.index
    && if x.index != index then x.view == y.view
       else
         && x.view.text.Some? && y.view.text.Some?
         && y.view == x.view.(text := y.view.text)
         && |y.view.text.value| == |x.view.text.value| + gap
  }

  lemma {:induction false} FoldHasEachOnce(ops: seq<PrefixOp>)
    ensures forall k, l :: 0 <= k < l < |Fold(ops)| ==> Fold(ops)[k].index != Fold(ops)[l].index
  {
    PendingIsDeclared(ops);
  }

  lemma {:induction false} TouchBoth(pending: seq<PendingBlock>, op: PrefixOp, other: string)
    requires op.Delta?
    requires forall k, l :: 0 <= k < l < |pending| ==> pending[k].index != pending[l].index
    ensures var a, b := Touch(pending, op), Touch(pending, op.(text := other));
            Alike(a, b, op.index, |other| - |op.text|) && HasIndex(a, op.index)
  {
    var a := Touch(pending, op);
    assert a[FindPending(pending, op.index)].index == op.index;
  }

  lemma {:induction false} WithoutAlike(a: seq<PendingBlock>, b: seq<PendingBlock>, index: int, gap: int, gone: int)
    requires Alike(a, b, index, gap)
    ensures Alike(Without(a, gone), Without(b, gone), index, gap)
    ensures gone == index ==> Without(a, gone) == Without(b, gone)
    decreases |a|
  {
    if a != [] {
      var n := |a| - 1;
      assert BlockAlike(a[n], b[n], index, gap);
      WithoutAlike(a[..n], b[..n], index, gap, gone);
    }
  }

  lemma {:induction false} DeltaAlike(a: seq<PendingBlock>, b: seq<PendingBlock>, index: int, gap: int, op: PrefixOp)
    requires Alike(a, b, index, gap) && HasIndex(a, index) && op.Delta?
    ensures Alike(Touch(a, op), Touch(b, op), index, gap) && HasIndex(Touch(a, op), index)
  {
    var k := FindPending(a, op.index);
    assert forall i :: 0 <= i < |a| ==> BlockAlike(a[i], b[i], index, gap);
    assert k == FindPending(b, op.index);
    var j :| 0 <= j < |a| && a[j].index == index;
    assert Touch(a, op)[j].index == index;
  }

  lemma {:induction false} FinalAlike(a: seq<PendingBlock>, b: seq<PendingBlock>, index: int, gap: int, op: PrefixOp)
    requires Alike(a, b, index, gap) && HasIndex(a, index) && op.Final?
    ensures op.index != index ==> Alike(Touch(a, op), Touch(b, op), index, gap) && HasIndex(Touch(a, op), index)
    ensures op.index == index ==> Touch(a, op) == Touch(b, op)
  {
    WithoutAlike(a, b, index, gap, op.index);
    if op.index != index {
      WithoutMembers(a, op.index);
      var j :| 0 <= j < |a| && a[j].index == index;
      assert a[j] in Without(a, op.index);
      var k :| 0 <= k < |Without(a, op.index)| && Without(a, op.index)[k] == a[j];
      assert Touch(a, op)[k].index == index;
    }
  }

  /** One more chunk keeps two prefixes alike, and a block-end of `index` makes them equal. */
  lemma {:induction false} TouchAlike(a: seq<PendingBlock>, b: seq<PendingBlock>, index: int, gap: int, op: PrefixOp)
    requires Alike(a, b, index, gap) && HasIndex(a, index)
    ensures !IsFinal(op, index) ==> Alike(Touch(a, op), Touch(b, op), index, gap) && HasIndex(Touch(a, op), index)
    ensures IsFinal(op, index) ==> Touch(a, op) == Touch(b, op)
  {
    if op.Delta? {
      DeltaAlike(a, b, index, gap, op);
    } else {
      FinalAlike(a, b, index, gap, op);
    }
  }

  lemma {:induction false} RetextedInit(ops: seq<PrefixOp>, t: nat, other: string)
    requires t < |ops| && ops[t].Delta?
    ensures var n, changed := |ops| - 1, Retexted(ops, t, other);
            if t == n then changed[..n] == ops[..n] && changed[n] == ops[n].(text := other)
            else changed[..n] == Retexted(ops[..n], t, other) && changed[n] == ops[n]
  {
  }

  /** The prefixes of two chunk sequences are alike until a block-end of `index` at `t` or later, and then equal. */
  ghost predicate Follows(ops: seq<PrefixOp>, changed: seq<PrefixOp>, index: int, t: nat, gap: int) {
    if LastFinal(ops, index) < t then Alike(Fold(ops), Fold(changed), index, gap) && HasIndex(Fold(ops), index)
    else Fold(ops) == Fold(changed)
  }

  lemma {:induction false} FollowsStep(ops: seq<PrefixOp>, changed: seq<PrefixOp>, index: int, t: nat, gap: int)
    requires ops != [] && changed != [] && ops[|ops| - 1] == changed[|changed| - 1] && t < |ops|
    requires Follows(ops[..|ops| - 1], changed[..|changed| - 1], index, t, gap)
    ensures Follows(ops, changed, index, t, gap)
  {
    var init, op := ops[..|ops| - 1], ops[|ops| - 1];
    if LastFinal(init, index) < t {
      TouchAlike(Fold(init), Fold(changed[..|changed| - 1]), index, gap, op);
    }
  }

  /** Another text of a delta changes that text only, up to the next block-end of its provider index. */
  lemma {:induction false} FoldsAlike(ops: seq<PrefixOp>, t: nat, other: string)
    requires t < |ops| && ops[t].Delta?
    ensures Follows(ops, Retexted(ops, t, other), ops[t].index, t, |other| - |ops[t].text|)
    decreases |ops|
  {
    var n := |ops| - 1;
    RetextedInit(ops, t, other);
    if t == n {
      FoldHasEachOnce(ops[..n]);
      TouchBoth(Fold(ops[..n]), ops[n], other);
    } else {
      FoldsAlike(ops[..n], t, other);
      FollowsStep(ops, Retexted(ops, t, other), ops[t].index, t, |other| - |ops[t].text|);
    }
  }

  // ----------------------------------------------------- when two entries differ

  lemma {:induction false} SameDisplay(a: seq<PendingBlock>, b: seq<PendingBlock>)
    requires |a| == |b|
    requires forall k :: 0 <= k < |a| ==> ToContentBlock(a[k].view) == ToContentBlock(b[k].view)
    ensures DisplayedOf(a) == DisplayedOf(b)
    decreases |a|
  {
    if a != [] {
      SameDisplay(a[..|a| - 1], b[..|b| - 1]);
    }
  }

  /** Block by block, one shows when the other does. */
  predicate ShowAlike(a: seq<PendingBlock>, b: seq<PendingBlock>) {
    && |a| == |b|
    && forall k :: 0 <= k < |a| ==> |OneShown(a[k])| == |OneShown(b[k])|
  }

  lemma {:induction false} SameCount(a: seq<PendingBlock>, b: seq<PendingBlock>)
    requires ShowAlike(a, b)
    ensures |DisplayedOf(a)| == |DisplayedOf(b)|
    decreases |a|
  {
    if a != [] {
      SameCount(a[..|a| - 1], b[..|b| - 1]);
    }
  }

  lemma {:induction false} OtherDisplay(a: seq<PendingBlock>, b: seq<PendingBlock>, k: nat)
    requires ShowAlike(a, b) && k < |a| && OneShown(a[k]) != OneShown(b[k])
    ensures DisplayedOf(a) != DisplayedOf(b)
    decreases |a|
  {
    var n := |a| - 1;
    var initA, initB, lastA, lastB := a[..n], b[..n], a[n], b[n];
    SameCount(initA, initB);
    if k < n {
      OtherDisplay(initA, initB, k);
    }
    Unequal(DisplayedOf(initA), DisplayedOf(initB), OneShown(lastA), OneShown(lastB));
  }

  lemma Unequal<T>(a: seq<T>, b: seq<T>, c: seq<T>, d: seq<T>)
    requires |a| == |b| && (a != b || c != d)
    ensures a + c != b + d
  {
    assert (a + c)[..|a|] == a && (b + d)[..|a|] == b;
    assert (a + c)[|a|..] == c && (b + d)[|a|..] == d;
  }

  /** Alike prefixes show the same unless the block under `index` shows its text and the texts differ in length. */
  lemma {:induction false} AlikeDisplay(a: seq<PendingBlock>, b: seq<PendingBlock>, index: int, gap: int, k: nat)
    requires Alike(a, b, index, gap) && k < |a| && a[k].index == index
    requires forall i, j :: 0 <= i < j < |a| ==> a[i].index != a[j].index
    ensures !IsTextual(a[k].view) ==> DisplayedOf(a) == DisplayedOf(b)
    ensures IsTextual(a[k].view) && gap != 0 ==> DisplayedOf(a) != DisplayedOf(b)
  {
    forall i | 0 <= i < |a|
      ensures i != k ==> a[i].view == b[i].view
      ensures |OneShown(a[i])| == |OneShown(b[i])|
      ensures !IsTextual(a[k].view) ==> ToContentBlock(a[i].view) == ToContentBlock(b[i].view)
    {
      assert BlockAlike(a[i], b[i], index, gap);
    }
    if !IsTextual(a[k].view) {
      SameDisplay(a, b);
    } else if gap != 0 {
      assert BlockAlike(a[k], b[k], index, gap);
      OtherDisplay(a, b, k);
    }
  }

  /**
   * The entry depends on the text of a streamed delta exactly when no block-end
   * of its provider index follows and the block there is one that shows text.
   */
  lemma {:induction false} TextMattersIff(ops: seq<PrefixOp>, t: nat)
    requires t < |ops| && ops[t].Delta?
    ensures TextMatters(ops, t) <==> LastFinal(ops, ops[t].index) < t && HasTextBlock(ops, ops[t].index)
  {
    forall other ensures Entry(Retexted(ops, t, other)) != Entry(ops) ==>
                           LastFinal(ops, ops[t].index) < t && HasTextBlock(ops, ops[t].index) {
      TextChanges(ops, t, other);
    }
    var longer := ops[t].text + "+";
    TextChanges(ops, t, longer);
    assert Entry(Retexted(ops, t, longer)) != Entry(ops) ==> TextMatters(ops, t);
  }

  lemma {:induction false} TextChanges(ops: seq<PrefixOp>, t: nat, other: string)
    requires t < |ops| && ops[t].Delta?
    ensures Entry(Retexted(ops, t, other)) != Entry(ops) ==>
              LastFinal(ops, ops[t].index) < t && HasTextBlock(ops, ops[t].index)
    ensures LastFinal(ops, ops[t].index) < t && HasTextBlock(ops, ops[t].index) && |other| != |ops[t].text| ==>
              Entry(Retexted(ops, t, other)) != Entry(ops)
  {
    FoldsAlike(ops, t, other);
    DisplayedViews(Fold(ops));
    DisplayedViews(Fold(Retexted(ops, t, other)));
    var a, index := Fold(ops), ops[t].index;
    if LastFinal(ops, index) < t {
      PendingIsDeclared(ops);
      FoldHasEachOnce(ops);
      var k :| 0 <= k < |a| && a[k].index == index;
      assert Reads(a[k], ops);
      AlikeDisplay(a, Fold(Retexted(ops, t, other)), index, |other| - |ops[t].text|, k);
    }
  }
}
