/**
 * What the history says: the author, the blocks and the flags of every merged
 * entry and every view entry, told from the operations of the run alone. A
 * settlement only writes the status and the result of a tool call, so both are
 * left out of the comparison; `HistoryModel` says what it writes.
 */
module HistoryContents {
  import opened Wrappers
  import opened HistoryModel

  /** What one entry says, under the name it is shown with. */
  datatype Fact = Fact(name: string, author: MessageRole, blocks: seq<ContentBlock>, interrupted: bool)

  // --------------------------------------------------- what the operations call for

  /** What a block of a member's output shows: texts, thoughts and tool calls, absent fields as empty ones. */
  function ShownAs(view: BlockView): seq<ContentBlock> {
    match view.kind
    case "text" => [Text(if view.text.Some? then view.text.value else "")]
    case "reasoning" => [Think(if view.text.Some? then view.text.value else "")]
    case "tool-call" =>
      [ToolCall(if view.id.Some? then view.id.value else "", if view.name.Some? then view.name.value else "",
                if view.arguments.Some? then view.arguments.value else "", Running, None)]
    case _ => []
  }

  function AllShown(content: seq<BlockView>): seq<ContentBlock> {
    if content == [] then [] else AllShown(content[..|content| - 1]) + ShownAs(content[|content| - 1])
  }

  /** What a block of a user message shows: texts only. */
  function TextAs(view: BlockView): seq<ContentBlock> {
    if view.kind == "text" then ShownAs(view) else []
  }

  function AllText(content: seq<BlockView>): seq<ContentBlock> {
    if content == [] then [] else AllText(content[..|content| - 1]) + TextAs(content[|content| - 1])
  }

  /** Who a user message of a member's own log is shown from; other sources are not shown. */
  function SenderOf(sourceKind: string, sourceRole: Option<string>): Option<string> {
    match sourceKind
    case "user" => Some("user")
    case "team-broadcast" =>
      (match sourceRole
       case Some(role) => Some(if role == "" then "user" else role)
       case None => Some("user"))
    case _ => None
  }

  /** The merge entries an operation calls for. */
  function ToMerge(op: Op): seq<Fact> {
    match op
    case AppendUser(text) => [Fact("user", User, [Text(text)], false)]
    case AppendAnnouncement(role, text) => [Fact(role, Agent, [Text(text)], false)]
    case AppendOutput(role, content, interrupted, _) =>
      if AllShown(content) == [] then [] else [Fact(role, Agent, AllShown(content), interrupted)]
    case AppendViewUser(_, _, _, _, _) => []
    case SettleResult(_, _, _, _) => []
  }

  /** The entries an operation calls for in the view of `role`. */
  function ToView(op: Op, role: string): seq<Fact> {
    match op
    case AppendOutput(author, content, interrupted, recordView) =>
      if author == role && recordView && AllShown(content) != [] then [Fact(role, Agent, AllShown(content), interrupted)]
      else []
    case AppendViewUser(member, sourceKind, sourceRole, content, recordView) =>
      if member == role && recordView && SenderOf(sourceKind, sourceRole).Some? && AllText(content) != []
      then [Fact(SenderOf(sourceKind, sourceRole).value, User, AllText(content), false)]
      else []
    case _ => []
  }

  function AllToMerge(ops: seq<Op>): seq<Fact> {
    if ops == [] then [] else AllToMerge(ops[..|ops| - 1]) + ToMerge(ops[|ops| - 1])
  }

  function AllToView(ops: seq<Op>, role: string): seq<Fact> {
    if ops == [] then [] else AllToView(ops[..|ops| - 1], role) + ToView(ops[|ops| - 1], role)
  }

  // ------------------------------------------------------------ what the history says

  /** A block as it was before any settlement. */
  function Unsettled(block: ContentBlock): ContentBlock {
    if block.ToolCall? then block.(status := Running, result := None) else block
  }

  function AllUnsettled(blocks: seq<ContentBlock>): (r: seq<ContentBlock>)
    ensures |r| == |blocks| && forall j :: 0 <= j < |r| ==> r[j] == Unsettled(blocks[j])
  {
    seq(|blocks|, j requires 0 <= j < |blocks| => Unsettled(blocks[j]))
  }

  function FactOf(p: Projection, name: string, id: nat): Fact
    requires 1 <= id <= |p.messages|
  {
    var m := p.messages[id - 1];
    Fact(name, m.role, AllUnsettled(m.blocks), m.interrupted)
  }

  /** The merge says these things, in order. */
  ghost predicate MergeSays(p: Projection, facts: seq<Fact>)
    requires p.InStore()
  {
    |p.merge| == |facts| && forall i :: 0 <= i < |facts| ==> FactOf(p, p.merge[i].member, p.merge[i].id) == facts[i]
  }

  /** A view says these things, in order. */
  ghost predicate ViewSays(p: Projection, role: string, facts: seq<Fact>)
    requires p.InStore()
  {
    var view := p.View(role);
    |view| == |facts| && forall v :: 0 <= v < |facts| ==>
      1 <= view[v].id <= |p.messages| && FactOf(p, view[v].sender, view[v].id) == facts[v]
  }

  // -------------------------------------------------------------------- the proof

  lemma {:induction false} ShownIsDisplayed(content: seq<BlockView>)
    ensures AllShown(content) == Displayed(content) && AllText(content) == DisplayedText(content)
    ensures AllUnsettled(AllShown(content)) == AllShown(content)
    ensures AllUnsettled(AllText(content)) == AllText(content)
  {
    OutputShown(content);
    TextShown(content);
    ShownUnsettled(content);
    TextUnsettled(content);
  }

  lemma {:induction false} OutputShown(content: seq<BlockView>)
    ensures AllShown(content) == Displayed(content)
  {
    if content != [] {
      OutputShown(content[..|content| - 1]);
    }
  }

  lemma {:induction false} TextShown(content: seq<BlockView>)
    ensures AllText(content) == DisplayedText(content)
  {
    if content != [] {
      TextShown(content[..|content| - 1]);
    }
  }

  lemma {:induction false} ShownUnsettled(content: seq<BlockView>)
    ensures forall j :: 0 <= j < |AllShown(content)| ==> Unsettled(AllShown(content)[j]) == AllShown(content)[j]
  {
    if content != [] {
      ShownUnsettled(content[..|content| - 1]);
    }
  }

  lemma {:induction false} TextUnsettled(content: seq<BlockView>)
    ensures forall j :: 0 <= j < |AllText(content)| ==> Unsettled(AllText(content)[j]) == AllText(content)[j]
  {
    if content != [] {
      TextUnsettled(content[..|content| - 1]);
    }
  }

  /** Every message keeps what it says, settlements aside. */
  ghost predicate KeepsFacts(p: Projection, q: Projection) {
    && |p.messages| <= |q.messages|
    && forall name, id :: 1 <= id <= |p.messages| ==> FactOf(q, name, id) == FactOf(p, name, id)
  }

  lemma {:induction false} MoreMessages(p: Projection, q: Projection, message: MessageM)
    requires q.messages == p.messages + [message]
    ensures KeepsFacts(p, q)
  {
  }

  lemma {:induction false} SettledKeepsFacts(p: Projection, role: string, toolId: string, status: ToolStatus,
                                             result: string)
    requires p.InStore()
    ensures var q := Do(p, SettleResult(role, toolId, status, result));
            KeepsFacts(p, q) && q.merge == p.merge && q.views == p.views
  {
    var i := LastEntry(p, |p.merge|, role, toolId);
    if i >= 0 {
      var k := p.merge[i].id - 1;
      var blocks := p.messages[k].blocks;
      assert AllUnsettled(SettledBlocks(blocks, toolId, status, result)) == AllUnsettled(blocks);
    }
  }

  lemma {:induction false} MergeGrows(p: Projection, q: Projection, facts: seq<Fact>, ref: MergeRef)
    requires p.InStore() && q.InStore() && MergeSays(p, facts) && KeepsFacts(p, q) && q.merge == p.merge + [ref]
    requires 1 <= ref.id <= |q.messages|
    ensures MergeSays(q, facts + [FactOf(q, ref.member, ref.id)])
  {
    forall i | 0 <= i < |facts| ensures FactOf(q, q.merge[i].member, q.merge[i].id) == facts[i] {
      assert q.merge[i] == p.merge[i];
    }
    assert q.merge[|facts|] == ref;
  }

  lemma {:induction false} MergeKept(p: Projection, q: Projection, facts: seq<Fact>)
    requires p.InStore() && q.InStore() && MergeSays(p, facts) && KeepsFacts(p, q) && q.merge == p.merge
    ensures MergeSays(q, facts + [])
  {
  }

  lemma {:induction false} ViewGrows(p: Projection, q: Projection, role: string, facts: seq<Fact>, ref: ViewRef)
    requires p.InStore() && q.InStore() && ViewSays(p, role, facts) && KeepsFacts(p, q)
    requires q.View(role) == p.View(role) + [ref] && 1 <= ref.id <= |q.messages|
    ensures ViewSays(q, role, facts + [FactOf(q, ref.sender, ref.id)])
  {
    forall v | 0 <= v < |facts|
      ensures 1 <= q.View(role)[v].id <= |q.messages|
      ensures FactOf(q, q.View(role)[v].sender, q.View(role)[v].id) == facts[v]
    {
      assert q.View(role)[v] == p.View(role)[v];
    }
    assert q.View(role)[|facts|] == ref;
  }

  lemma {:induction false} ViewKept(p: Projection, q: Projection, role: string, facts: seq<Fact>)
    requires p.InStore() && q.InStore() && ViewSays(p, role, facts) && KeepsFacts(p, q) && q.View(role) == p.View(role)
    ensures ViewSays(q, role, facts + [])
  {
  }

  /** What a merged message says. */
  lemma {:induction false} MergedSays(p: Projection, name: string, author: MessageRole, blocks: seq<ContentBlock>,
                                      interrupted: bool, facts: seq<Fact>)
    requires p.InStore() && Merged(p, name, author, blocks, interrupted).InStore()
    requires MergeSays(p, facts) && AllUnsettled(blocks) == blocks
    ensures MergeSays(Merged(p, name, author, blocks, interrupted), facts + [Fact(name, author, blocks, interrupted)])
    ensures KeepsFacts(p, Merged(p, name, author, blocks, interrupted))
  {
    var q, id := Merged(p, name, author, blocks, interrupted), |p.messages| + 1;
    MoreMessages(p, q, MessageM(id, author, blocks, interrupted));
    assert q.messages[id - 1] == MessageM(id, author, blocks, interrupted);
    MergeGrows(p, q, facts, MergeRef(name, id, p.nextSeq));
  }

  lemma {:induction false} MergeStep(p: Projection, op: Op, facts: seq<Fact>)
    requires Consistent(p) && Consistent(Do(p, op)) && MergeSays(p, facts)
    ensures KeepsFacts(p, Do(p, op)) && MergeSays(Do(p, op), facts + ToMerge(op))
  {
    match op
    case AppendUser(text) => MergedSays(p, "user", User, [Text(text)], false, facts);
    case AppendAnnouncement(role, text) => MergedSays(p, role, Agent, [Text(text)], false, facts);
    case AppendOutput(role, content, interrupted, recordView) => OutputSays(p, op, facts);
    case AppendViewUser(_, _, _, _, _) => ViewUserKeeps(p, op, facts);
    case SettleResult(role, toolId, status, result) =>
      SettledKeepsFacts(p, role, toolId, status, result);
      MergeKept(p, Do(p, op), facts);
  }

  lemma {:induction false} OutputSays(p: Projection, op: Op, facts: seq<Fact>)
    requires op.AppendOutput? && Consistent(p) && Consistent(Do(p, op)) && MergeSays(p, facts)
    ensures KeepsFacts(p, Do(p, op)) && MergeSays(Do(p, op), facts + ToMerge(op))
  {
    var blocks := Displayed(op.content);
    ShownIsDisplayed(op.content);
    if blocks == [] {
      MergeKept(p, Do(p, op), facts);
    } else {
      var q := Merged(p, op.role, Agent, blocks, op.interrupted);
      MergedInStore(p, op.role, Agent, blocks, op.interrupted);
      MergedSays(p, op.role, Agent, blocks, op.interrupted, facts);
      MergeKept(q, Do(p, op), facts + ToMerge(op));
      assert facts + ToMerge(op) + [] == facts + ToMerge(op);
    }
  }

  lemma {:induction false} MergedInStore(p: Projection, name: string, author: MessageRole, blocks: seq<ContentBlock>,
                                         interrupted: bool)
    requires p.InStore()
    ensures Merged(p, name, author, blocks, interrupted).InStore()
  {
  }

  lemma {:induction false} ViewUserKeeps(p: Projection, op: Op, facts: seq<Fact>)
    requires op.AppendViewUser? && Consistent(p) && Consistent(Do(p, op)) && MergeSays(p, facts)
    ensures KeepsFacts(p, Do(p, op)) && MergeSays(Do(p, op), facts + ToMerge(op))
  {
    var q := Do(p, op);
    if q != p {
      MoreMessages(p, q, MessageM(|p.messages| + 1, User, DisplayedText(op.content), false));
    }
    MergeKept(p, q, facts);
  }

  lemma {:induction false} ViewStep(p: Projection, op: Op, role: string, facts: seq<Fact>)
    requires Consistent(p) && Consistent(Do(p, op)) && KeepsFacts(p, Do(p, op)) && ViewSays(p, role, facts)
    ensures ViewSays(Do(p, op), role, facts + ToView(op, role))
  {
    if ToView(op, role) == [] {
      ViewUnchanged(p, op, role);
      ViewKept(p, Do(p, op), role, facts);
    } else {
      var ref := ViewRef(|p.messages| + 1, ToView(op, role)[0].name);
      ViewAdds(p, op, role);
      ViewGrows(p, Do(p, op), role, facts, ref);
    }
  }

  /** What a view entry that an operation adds is, and what it says. */
  lemma {:induction false} ViewAdds(p: Projection, op: Op, role: string)
    requires p.InStore() && ToView(op, role) != []
    ensures var q, id := Do(p, op), |p.messages| + 1;
            && q.View(role) == p.View(role) + [ViewRef(id, ToView(op, role)[0].name)]
            && |q.messages| == id && ToView(op, role) == [FactOf(q, ToView(op, role)[0].name, id)]
  {
    ShownIsDisplayed(op.content);
  }

  lemma {:induction false} ViewUnchanged(p: Projection, op: Op, role: string)
    requires p.InStore() && ToView(op, role) == []
    ensures Do(p, op).View(role) == p.View(role)
  {
    match op
    case AppendOutput(_, content, _, _) => ShownIsDisplayed(content);
    case AppendViewUser(_, _, _, content, _) => ShownIsDisplayed(content);
    case SettleResult(r, toolId, status, result) => SettledKeepsFacts(p, r, toolId, status, result);
    case _ =>
  }

  lemma RunStep(ops: seq<Op>)
    requires ops != []
    ensures RunOps(ops) == Do(RunOps(ops[..|ops| - 1]), ops[|ops| - 1])
  {
  }

  lemma {:induction false} SaysStep(p: Projection, op: Op, role: string, merged: seq<Fact>, viewed: seq<Fact>)
    requires Consistent(p) && MergeSays(p, merged) && ViewSays(p, role, viewed)
    ensures MergeSays(Do(p, op), merged + ToMerge(op)) && ViewSays(Do(p, op), role, viewed + ToView(op, role))
  {
    DoConsistent(p, op);
    MergeStep(p, op, merged);
    ViewStep(p, op, role, viewed);
  }

  /**
   * In every run of history operations the merge says, entry by entry, what the
   * operations called for, and so does every member's view: a user message is one
   * text entry of the given text, an announcement one of its role, an output what
   * its content shows, and a user message of a member's own log its texts, from
   * its sender, in that member's view only.
   */
  lemma {:induction false} HistorySays(ops: seq<Op>, role: string)
    ensures MergeSays(RunOps(ops), AllToMerge(ops))
    ensures ViewSays(RunOps(ops), role, AllToView(ops, role))
    decreases |ops|
  {
    if ops != [] {
      var init, op := ops[..|ops| - 1], ops[|ops| - 1];
      HistorySays(init, role);
      RunStep(ops);
      SaysStep(RunOps(init), op, role, AllToMerge(init), AllToView(init, role));
    }
  }

  /** A user message of a member's own log is fanned out as its view entry, to that member's view only. */
  lemma {:induction false} ViewUserFansOut(p: Projection, op: Op)
    requires op.AppendViewUser? && p.InStore()
    ensures var q, id := Do(p, op), |p.messages| + 1;
            q.frames == p.frames +
                        if ToView(op, op.role) == [] then [] else [ViewFrame(op.role, ToView(op, op.role)[0].name, id)]
    ensures ToView(op, op.role) != [] ==>
              var q := Do(p, op);
              |q.View(op.role)| > 0 && q.View(op.role)[|q.View(op.role)| - 1].id == |p.messages| + 1
  {
    ShownIsDisplayed(op.content);
  }
}
