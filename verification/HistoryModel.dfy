/**
 * The team history projections as values: the merged team sequence, the member
 * views and the frames fanned out, over one store of messages.
 *
 * A message is named by its id, and `messages[id - 1]` is its content, so two
 * references to one id are two references to one object. `TeamHistory` keeps
 * real shared objects and is proved to be an implementation of this model.
 */
module HistoryModel {
  import opened Wrappers

  // ---------------------------------------------------------------- contents

  datatype ToolStatus = Running | Succeeded | Failed

  datatype ContentBlock =
    | Text(content: string)
    | Think(content: string)
    | ToolCall(toolId: string, name: string, argsJson: string, status: ToolStatus, result: Option<string>)

  /** A content block as the engine publishes it; every field but `kind` may be absent. */
  datatype BlockView = BlockView(kind: string, text: Option<string>, id: Option<string>,
                                 name: Option<string>, arguments: Option<string>)

  function ToContentBlock(block: BlockView): Option<ContentBlock> {
    if block.kind == "text" then Some(Text(block.text.GetOr("")))
    else if block.kind == "reasoning" then Some(Think(block.text.GetOr("")))
    else if block.kind == "tool-call" then
      Some(ToolCall(block.id.GetOr(""), block.name.GetOr(""), block.arguments.GetOr(""), Running, None))
    else None
  }

  /** The blocks that have a display projection, in order. */
  function Displayed(content: seq<BlockView>): seq<ContentBlock> {
    if content == [] then []
    else
      var rest := Displayed(content[..|content| - 1]);
      var block := ToContentBlock(content[|content| - 1]);
      if block.Some? then rest + [block.value] else rest
  }

  /** The text blocks only: what a user message shows. */
  function DisplayedText(content: seq<BlockView>): seq<ContentBlock> {
    if content == [] then []
    else
      var rest := DisplayedText(content[..|content| - 1]);
      var block := content[|content| - 1];
      if block.kind == "text" then rest + [Text(block.text.GetOr(""))] else rest
  }

  // -------------------------------------------------------------- projection

  datatype MessageRole = User | Agent

  datatype MessageM = MessageM(id: nat, role: MessageRole, blocks: seq<ContentBlock>, interrupted: bool)

  datatype MergeRef = MergeRef(member: string, id: nat, seqNo: nat)

  datatype ViewRef = ViewRef(id: nat, sender: string)

  /** A history frame, in emission order. */
  datatype HistoryFrame =
    | TeamFrame(member: string, id: nat, seqNo: nat)
    | ViewFrame(member: string, sender: string, id: nat)

  datatype Projection = Projection(
    messages: seq<MessageM>,
    merge: seq<MergeRef>,
    views: map<string, seq<ViewRef>>,
    nextSeq: nat,
    frames: seq<HistoryFrame>)
  {
    function View(role: string): seq<ViewRef> {
      if role in views then views[role] else []
    }

    /** Every reference points at a message of the store. */
    ghost predicate InStore() {
      && (forall i :: 0 <= i < |merge| ==> 1 <= merge[i].id <= |messages|)
      && (forall r, v :: r in views && 0 <= v < |views[r]| ==> 1 <= views[r][v].id <= |messages|)
    }
  }

  const EMPTY_PROJECTION := Projection([], [], map[], 1, [])

  /** The source kinds of a user message that have a view projection. */
  predicate HasViewProjection(sourceKind: string) {
    sourceKind == "user" || sourceKind == "team-broadcast"
  }

  function BroadcastSender(role: Option<string>): string {
    if role.None? || role.value == "" then "user" else role.value
  }

  datatype Op =
    | AppendUser(text: string)
    | AppendOutput(role: string, content: seq<BlockView>, interrupted: bool, recordView: bool)
    | AppendAnnouncement(role: string, text: string)
    | AppendViewUser(role: string, sourceKind: string, sourceRole: Option<string>, content: seq<BlockView>,
                     recordView: bool)
    | SettleResult(role: string, toolId: string, status: ToolStatus, result: string)

  /** Append one message to the store and one entry to the merge, with its frame. */
  function Merged(p: Projection, member: string, role: MessageRole, blocks: seq<ContentBlock>,
                  interrupted: bool): Projection {
    var id := |p.messages| + 1;
    p.(messages := p.messages + [MessageM(id, role, blocks, interrupted)],
       merge := p.merge + [MergeRef(member, id, p.nextSeq)],
       nextSeq := p.nextSeq + 1,
       frames := p.frames + [TeamFrame(member, id, p.nextSeq)])
  }

  function Viewed(p: Projection, role: string, id: nat, sender: string): Projection {
    p.(views := p.views[role := p.View(role) + [ViewRef(id, sender)]])
  }

  function Do(p: Projection, op: Op): (q: Projection)
    requires p.InStore()
    ensures q.InStore() && p.frames <= q.frames
  {
    match op
    case AppendUser(text) => Merged(p, "user", User, [Text(text)], false)
    case AppendOutput(role, content, interrupted, recordView) =>
      var blocks := Displayed(content);
      if blocks == [] then p
      else
        var q := Merged(p, role, Agent, blocks, interrupted);
        if recordView then Viewed(q, role, |q.messages|, role) else q
    case AppendAnnouncement(role, text) => Merged(p, role, Agent, [Text(text)], false)
    case AppendViewUser(role, sourceKind, sourceRole, content, recordView) =>
      var blocks := DisplayedText(content);
      if !recordView || !HasViewProjection(sourceKind) || blocks == [] then p
      else
        var id := |p.messages| + 1;
        var sender := if sourceKind == "team-broadcast" then BroadcastSender(sourceRole) else "user";
        var q := p.(messages := p.messages + [MessageM(id, User, blocks, false)],
                    frames := p.frames + [ViewFrame(role, sender, id)]);
        Viewed(q, role, id, sender)
    case SettleResult(role, toolId, status, result) =>
      Settled(p, LastEntry(p, |p.merge|, role, toolId), toolId, status, result)
  }

  // -------------------------------------------------------------- settlement

  predicate IsRunningCall(block: ContentBlock, toolId: string) {
    block.ToolCall? && block.toolId == toolId && block.status == Running
  }

  /** The last of the first `n` blocks that is a running call of `toolId`, or -1. */
  function LastRunning(blocks: seq<ContentBlock>, n: nat, toolId: string): (j: int)
    requires n <= |blocks|
    ensures -1 <= j < n
    ensures j >= 0 ==> IsRunningCall(blocks[j], toolId)
    ensures forall k :: j < k < n ==> !IsRunningCall(blocks[k], toolId)
  {
    if n == 0 then -1
    else if IsRunningCall(blocks[n - 1], toolId) then n - 1
    else LastRunning(blocks, n - 1, toolId)
  }

  /** Whether entry `i` of the merge belongs to `role` and holds a running call of `toolId`. */
  predicate Holds(p: Projection, i: nat, role: string, toolId: string)
    requires p.InStore() && i < |p.merge|
  {
    && p.merge[i].member == role
    && var blocks := p.messages[p.merge[i].id - 1].blocks;
       LastRunning(blocks, |blocks|, toolId) >= 0
  }

  /** The last of the first `n` merge entries that holds a running call, or -1. */
  function LastEntry(p: Projection, n: nat, role: string, toolId: string): (i: int)
    requires p.InStore() && n <= |p.merge|
    ensures -1 <= i < n
    ensures i >= 0 ==> Holds(p, i, role, toolId)
    ensures forall k :: i < k < n ==> !Holds(p, k, role, toolId)
  {
    if n == 0 then -1
    else if Holds(p, n - 1, role, toolId) then n - 1
    else LastEntry(p, n - 1, role, toolId)
  }

  function SettledBlocks(blocks: seq<ContentBlock>, toolId: string, status: ToolStatus, result: string)
    : (r: seq<ContentBlock>)
    requires LastRunning(blocks, |blocks|, toolId) >= 0
    ensures |r| == |blocks|
  {
    var j := LastRunning(blocks, |blocks|, toolId);
    blocks[j := blocks[j].(status := status, result := Some(result))]
  }

  function Settled(p: Projection, i: int, toolId: string, status: ToolStatus, result: string): Projection
    requires p.InStore() && -1 <= i < |p.merge|
    requires i >= 0 ==> Holds(p, i, p.merge[i].member, toolId)
  {
    if i < 0 then p
    else
      var k := p.merge[i].id - 1;
      var message := p.messages[k];
      p.(messages := p.messages[k := message.(blocks := SettledBlocks(message.blocks, toolId, status, result))])
  }

  // ---------------------------------------------------------------- theorems

  /** The team_message frames among `frames`, read back as merge entries. */
  function TeamFrames(frames: seq<HistoryFrame>): seq<MergeRef> {
    if frames == [] then []
    else
      var rest := TeamFrames(frames[..|frames| - 1]);
      match frames[|frames| - 1]
      case TeamFrame(member, id, seqNo) => rest + [MergeRef(member, id, seqNo)]
      case ViewFrame(_, _, _) => rest
  }

  /** Both projections are ordered by id and share agent messages, never user messages. */
  ghost predicate Consistent(p: Projection) {
    && p.InStore()
    && p.nextSeq == |p.merge| + 1
    && (forall k :: 0 <= k < |p.messages| ==> p.messages[k].id == k + 1)
    && MergeOrdered(p)
    && TeamFrames(p.frames) == p.merge
    && ViewsShared(p)
    && (forall r :: r in p.views ==> ViewOrdered(p.views[r]))
    && (forall r, s :: r in p.views && s in p.views && r != s ==> NoCommonMessage(p.views[r], p.views[s]))
  }

  /** Sequence numbers are 1, 2, 3, ... and message ids increase along the merge. */
  ghost predicate MergeOrdered(p: Projection) {
    && (forall i :: 0 <= i < |p.merge| ==> p.merge[i].seqNo == i + 1)
    && (forall i, j :: 0 <= i < j < |p.merge| ==> p.merge[i].id < p.merge[j].id)
  }

  ghost predicate ViewOrdered(view: seq<ViewRef>) {
    forall v, w :: 0 <= v < w < |view| ==> view[v].id < view[w].id
  }

  ghost predicate NoCommonMessage(a: seq<ViewRef>, b: seq<ViewRef>) {
    forall v, w :: 0 <= v < |a| && 0 <= w < |b| ==> a[v].id != b[w].id
  }

  ghost predicate ViewsShared(p: Projection)
    requires p.InStore()
  {
    forall r, v :: r in p.views && 0 <= v < |p.views[r]| ==> ViewShared(p, r, p.views[r][v])
  }

  /** An agent message of a view is an entry of the merge under that role; a user message is in no merge entry. */
  ghost predicate ViewShared(p: Projection, role: string, ref: ViewRef)
    requires p.InStore() && 1 <= ref.id <= |p.messages|
  {
    match p.messages[ref.id - 1].role
    case Agent => ref.sender == role && exists i :: 0 <= i < |p.merge| && p.merge[i].id == ref.id && p.merge[i].member == role
    case User => forall i :: 0 <= i < |p.merge| ==> p.merge[i].id != ref.id
  }

  function RunOps(ops: seq<Op>): (p: Projection)
    ensures Consistent(p)
  {
    if ops == [] then EMPTY_PROJECTION
    else
      var q := RunOps(ops[..|ops| - 1]);
      DoConsistent(q, ops[|ops| - 1]);
      Do(q, ops[|ops| - 1])
  }

  lemma {:induction false} DoConsistent(p: Projection, op: Op)
    requires Consistent(p)
    ensures Consistent(Do(p, op))
  {
    match op
    case AppendUser(text) => MergedConsistent(p, "user", User, [Text(text)], false);
    case AppendOutput(role, content, interrupted, recordView) =>
      OutputConsistent(p, role, content, interrupted, recordView);
    case AppendAnnouncement(role, text) => MergedConsistent(p, role, Agent, [Text(text)], false);
    case AppendViewUser(role, sourceKind, sourceRole, content, recordView) =>
      ViewUserConsistent(p, role, sourceKind, sourceRole, content, recordView);
    case SettleResult(role, toolId, status, result) =>
      SettledConsistent(p, LastEntry(p, |p.merge|, role, toolId), toolId, status, result);
  }

  lemma {:induction false} OutputConsistent(p: Projection, role: string, content: seq<BlockView>, interrupted: bool, recordView: bool)
    requires Consistent(p)
    ensures Consistent(Do(p, AppendOutput(role, content, interrupted, recordView)))
  {
    var blocks := Displayed(content);
    if blocks != [] {
      MergedConsistent(p, role, Agent, blocks, interrupted);
      var q := Merged(p, role, Agent, blocks, interrupted);
      assert q.merge[|p.merge|] == MergeRef(role, |q.messages|, p.nextSeq);
      if recordView {
        ViewedConsistent(q, role, role);
      }
    }
  }

  lemma {:induction false} ViewUserConsistent(p: Projection, role: string, sourceKind: string, sourceRole: Option<string>,
                           content: seq<BlockView>, recordView: bool)
    requires Consistent(p)
    ensures Consistent(Do(p, AppendViewUser(role, sourceKind, sourceRole, content, recordView)))
  {
    var blocks := DisplayedText(content);
    if recordView && HasViewProjection(sourceKind) && blocks != [] {
      var id := |p.messages| + 1;
      var sender := if sourceKind == "team-broadcast" then BroadcastSender(sourceRole) else "user";
      var q := p.(messages := p.messages + [MessageM(id, User, blocks, false)],
                  frames := p.frames + [ViewFrame(role, sender, id)]);
      assert q.frames[..|q.frames| - 1] == p.frames;
      StoreGrew(p, q);
      ViewedConsistent(q, role, sender);
    }
  }

  /** Appending a message changes no reference and no earlier message. */
  lemma {:induction false} StoreGrew(p: Projection, q: Projection)
    requires Consistent(p)
    requires |q.messages| == |p.messages| + 1 && q.messages[..|p.messages|] == p.messages
    requires q.messages[|p.messages|].id == |p.messages| + 1
    requires q.merge == p.merge && q.views == p.views && q.nextSeq == p.nextSeq
    requires TeamFrames(q.frames) == q.merge
    ensures Consistent(q)
  {
    forall k | 0 <= k < |p.messages|
      ensures q.messages[k] == p.messages[k]
    {
      assert q.messages[..|p.messages|][k] == q.messages[k];
    }
    forall r, v | r in q.views && 0 <= v < |q.views[r]|
      ensures ViewShared(q, r, q.views[r][v])
    {
      assert ViewShared(p, r, p.views[r][v]);
    }
  }

  lemma {:induction false} MergedConsistent(p: Projection, member: string, role: MessageRole, blocks: seq<ContentBlock>, interrupted: bool)
    requires Consistent(p)
    ensures Consistent(Merged(p, member, role, blocks, interrupted))
  {
    var q := Merged(p, member, role, blocks, interrupted);
    assert q.frames[..|q.frames| - 1] == p.frames;
    forall r, v | r in q.views && 0 <= v < |q.views[r]|
      ensures ViewShared(q, r, q.views[r][v])
    {
      var ref := p.views[r][v];
      assert ViewShared(p, r, ref);
      if p.messages[ref.id - 1].role == Agent {
        var i :| 0 <= i < |p.merge| && p.merge[i].id == ref.id && p.merge[i].member == r;
        assert q.merge[i].id == ref.id;
      }
    }
  }

  /** No view holds the newest message. */
  ghost predicate NewestUnviewed(p: Projection) {
    forall r, v :: r in p.views && 0 <= v < |p.views[r]| ==> p.views[r][v].id < |p.messages|
  }

  /** Adding the newest message to a view, when no view holds it yet. */
  lemma {:induction false} ViewedConsistent(p: Projection, role: string, sender: string)
    requires Consistent(p) && |p.messages| > 0
    requires ViewShared(p, role, ViewRef(|p.messages|, sender)) && NewestUnviewed(p)
    ensures Consistent(Viewed(p, role, |p.messages|, sender))
  {
    ViewedShared(p, role, sender);
    ViewedOrdered(p, role, sender);
    ViewedApart(p, role, sender);
  }

  lemma {:induction false} ViewedOrdered(p: Projection, role: string, sender: string)
    requires NewestUnviewed(p) && forall r :: r in p.views ==> ViewOrdered(p.views[r])
    ensures var q := Viewed(p, role, |p.messages|, sender);
            forall r :: r in q.views ==> ViewOrdered(q.views[r])
  {
    var q := Viewed(p, role, |p.messages|, sender);
    NewestLast(p.View(role), |p.messages|, sender);
    assert q.views[role] == p.View(role) + [ViewRef(|p.messages|, sender)];
  }

  lemma {:induction false} NewestLast(view: seq<ViewRef>, id: nat, sender: string)
    requires ViewOrdered(view) && forall v :: 0 <= v < |view| ==> view[v].id < id
    ensures ViewOrdered(view + [ViewRef(id, sender)])
  {
  }

  lemma {:induction false} NewestApart(view: seq<ViewRef>, other: seq<ViewRef>, id: nat, sender: string)
    requires NoCommonMessage(view, other) && forall w :: 0 <= w < |other| ==> other[w].id < id
    ensures NoCommonMessage(view + [ViewRef(id, sender)], other)
    ensures NoCommonMessage(other, view + [ViewRef(id, sender)])
  {
  }

  lemma {:induction false} ViewedApart(p: Projection, role: string, sender: string)
    requires NewestUnviewed(p)
    requires forall r, s :: r in p.views && s in p.views && r != s ==> NoCommonMessage(p.views[r], p.views[s])
    ensures var q := Viewed(p, role, |p.messages|, sender);
            forall r, s :: r in q.views && s in q.views && r != s ==> NoCommonMessage(q.views[r], q.views[s])
  {
    var q := Viewed(p, role, |p.messages|, sender);
    forall r | r in q.views && r != role
      ensures NoCommonMessage(q.views[r], q.views[role]) && NoCommonMessage(q.views[role], q.views[r])
    {
      assert q.views[r] == p.views[r];
      assert role in p.views ==> NoCommonMessage(p.views[role], p.views[r]);
      NewestApart(p.View(role), p.views[r], |p.messages|, sender);
    }
  }

  lemma {:induction false} ViewedShared(p: Projection, role: string, sender: string)
    requires p.InStore() && |p.messages| > 0 && ViewsShared(p)
    requires ViewShared(p, role, ViewRef(|p.messages|, sender))
    ensures Viewed(p, role, |p.messages|, sender).InStore()
    ensures ViewsShared(Viewed(p, role, |p.messages|, sender))
  {
    var q := Viewed(p, role, |p.messages|, sender);
    forall r, v | r in q.views && 0 <= v < |q.views[r]|
      ensures 1 <= q.views[r][v].id <= |q.messages|
      ensures ViewShared(p, r, q.views[r][v])
    {
      if r != role || v < |p.View(role)| {
        assert q.views[r][v] == p.views[r][v];
      }
    }
    forall r, v | r in q.views && 0 <= v < |q.views[r]|
      ensures ViewShared(q, r, q.views[r][v])
    {
      assert ViewShared(p, r, q.views[r][v]);
    }
  }

  lemma {:induction false} SettledConsistent(p: Projection, i: int, toolId: string, status: ToolStatus, result: string)
    requires Consistent(p) && -1 <= i < |p.merge|
    requires i >= 0 ==> Holds(p, i, p.merge[i].member, toolId)
    ensures Consistent(Settled(p, i, toolId, status, result))
  {
    var q := Settled(p, i, toolId, status, result);
    forall r, v | r in q.views && 0 <= v < |q.views[r]|
      ensures ViewShared(q, r, q.views[r][v])
    {
      assert ViewShared(p, r, p.views[r][v]);
    }
  }

  /** A running call of `toolId` at block `j` of merge entry `i`, under `role`. */
  ghost predicate RunningAt(p: Projection, i: nat, j: nat, role: string, toolId: string)
    requires p.InStore()
  {
    && i < |p.merge| && p.merge[i].member == role
    && var blocks := p.messages[p.merge[i].id - 1].blocks;
       j < |blocks| && IsRunningCall(blocks[j], toolId)
  }

  /** `q` is `p` with exactly one block replaced: block `j` of message `id`. */
  ghost predicate OneBlockChanged(p: Projection, q: Projection, id: nat, j: nat, block: ContentBlock)
  {
    && 1 <= id <= |p.messages| && j < |p.messages[id - 1].blocks|
    && q == p.(messages := p.messages[id - 1 := p.messages[id - 1].(blocks := p.messages[id - 1].blocks[j := block])])
  }

  /**
   * Settlement changes exactly the last running call of that tool under that
   * role, in merge order and then block order, or nothing when there is none.
   */
  lemma SettleChangesTheLastRunningCall(p: Projection, role: string, toolId: string, status: ToolStatus, result: string)
    requires p.InStore()
    ensures var q := Do(p, SettleResult(role, toolId, status, result));
            || (q == p && forall i: nat, j: nat :: !RunningAt(p, i, j, role, toolId))
            || exists i: nat, j: nat ::
                 && RunningAt(p, i, j, role, toolId)
                 && (forall k: nat, l: nat :: RunningAt(p, k, l, role, toolId) ==> k < i || (k == i && l <= j))
                 && OneBlockChanged(p, q, p.merge[i].id, j,
                                    p.messages[p.merge[i].id - 1].blocks[j].(status := status, result := Some(result)))
  {
    var i := LastEntry(p, |p.merge|, role, toolId);
    if i < 0 {
      forall k: nat, l: nat | RunningAt(p, k, l, role, toolId)
        ensures false
      {
        RunningEntryHolds(p, k, l, role, toolId);
      }
    } else {
      var blocks := p.messages[p.merge[i].id - 1].blocks;
      var j := LastRunning(blocks, |blocks|, toolId);
      assert RunningAt(p, i, j, role, toolId);
      forall k: nat, l: nat | RunningAt(p, k, l, role, toolId)
        ensures k < i || (k == i && l <= j)
      {
        RunningEntryHolds(p, k, l, role, toolId);
      }
      assert OneBlockChanged(p, Do(p, SettleResult(role, toolId, status, result)), p.merge[i].id, j,
                             blocks[j].(status := status, result := Some(result)));
    }
  }

  lemma RunningEntryHolds(p: Projection, i: nat, j: nat, role: string, toolId: string)
    requires p.InStore() && RunningAt(p, i, j, role, toolId)
    ensures Holds(p, i, role, toolId)
    ensures var blocks := p.messages[p.merge[i].id - 1].blocks; j <= LastRunning(blocks, |blocks|, toolId)
  {
  }

  /** Message `id` keeps its identity from `p` to `q`, and a block that is not a running call keeps its content. */
  ghost predicate KeepsMessage(p: Projection, q: Projection, id: nat) {
    && 1 <= id <= |p.messages| <= |q.messages|
    && var before, after := p.messages[id - 1], q.messages[id - 1];
       && before.id == after.id && before.role == after.role && before.interrupted == after.interrupted
       && |before.blocks| == |after.blocks|
       && forall j :: 0 <= j < |before.blocks| && !(before.blocks[j].ToolCall? && before.blocks[j].status == Running) ==>
            after.blocks[j] == before.blocks[j]
  }

  /**
   * Over any continuation of a run a block that is not a running call never
   * changes, and a message keeps its id, its author role and its flags: an id is
   * never handed out twice.
   */
  lemma {:induction false} SettledBlocksAreFinal(ops: seq<Op>, n: nat, id: nat)
    requires n <= |ops|
    requires 1 <= id <= |RunOps(ops[..n]).messages|
    ensures KeepsMessage(RunOps(ops[..n]), RunOps(ops), id)
    decreases |ops|
  {
    if n == |ops| {
      assert ops[..n] == ops;
    } else {
      var init := ops[..|ops| - 1];
      assert init[..n] == ops[..n];
      SettledBlocksAreFinal(init, n, id);
      StepKeepsSettled(RunOps(init), ops[|ops| - 1], id);
      KeepsTransitive(RunOps(ops[..n]), RunOps(init), RunOps(ops), id);
    }
  }

  lemma StepKeepsSettled(p: Projection, op: Op, id: nat)
    requires p.InStore() && 1 <= id <= |p.messages|
    ensures KeepsMessage(p, Do(p, op), id)
  {
  }

  lemma KeepsTransitive(p: Projection, q: Projection, r: Projection, id: nat)
    requires KeepsMessage(p, q, id) && KeepsMessage(q, r, id)
    ensures KeepsMessage(p, r, id)
  {
  }

  /**
   * For every run: the team_message frames, in emission order, are the merge
   * entries, numbered 1, 2, 3, ...; and a view entry holding an agent message
   * names the very message of a merge entry under that role.
   */
  lemma FramesAreTheMerge(ops: seq<Op>)
    ensures var p := RunOps(ops);
            && TeamFrames(p.frames) == p.merge
            && (forall i :: 0 <= i < |p.merge| ==> p.merge[i].seqNo == i + 1)
            && (forall i, k :: 0 <= i < k < |p.merge| ==> p.merge[i].id != p.merge[k].id)
            && (forall r, v :: r in p.views && 0 <= v < |p.views[r]| &&
                               p.messages[p.views[r][v].id - 1].role == Agent ==>
                  exists i :: 0 <= i < |p.merge| && p.merge[i].id == p.views[r][v].id && p.merge[i].member == r)
  {
    var p := RunOps(ops);
    assert ViewsShared(p);
    forall r, v | r in p.views && 0 <= v < |p.views[r]| && p.messages[p.views[r][v].id - 1].role == Agent
      ensures exists i :: 0 <= i < |p.merge| && p.merge[i].id == p.views[r][v].id && p.merge[i].member == r
    {
      assert ViewShared(p, r, p.views[r][v]);
    }
  }
}
