/**
 * The team history as the source keeps it: message objects shared by the merge,
 * the views and the frames, with tool results settled inside them. Every method
 * is proved to do what `HistoryModel.Do` does to the projections.
 */
module Team {
  import opened Wrappers
  import opened HistoryModel
  import opened CollectorModel

  /** One projected message; only its blocks change after it is built. */
  class Message {
    const id: nat
    const role: MessageRole
    const interrupted: bool
    var blocks: seq<ContentBlock>

    constructor (id: nat, role: MessageRole, blocks: seq<ContentBlock>, interrupted: bool)
      ensures Content() == MessageM(id, role, blocks, interrupted)
    {
      this.id := id;
      this.role := role;
      this.blocks := blocks;
      this.interrupted := interrupted;
    }

    ghost function Content(): MessageM
      reads this
    {
      MessageM(id, role, blocks, interrupted)
    }
  }

  datatype MergeEntry = MergeEntry(member: string, message: Message, seqNo: nat)

  datatype ViewEntry = ViewEntry(message: Message, sender: string)

  /** What the active streams receive; history frames hold the message object itself. */
  datatype Frame =
    | TeamMessage(member: string, message: Message, seqNo: nat)
    | MemberView(member: string, sender: string, message: Message)
    | Live(member: string, item: Item)

  /** The receiving end of every frame of one team. */
  class Sink {
    var log: seq<Frame>

    constructor ()
      ensures log == []
    {
      log := [];
    }

    method Emit(frame: Frame)
      modifies this
      ensures log == old(log) + [frame]
    {
      log := log + [frame];
    }
  }

  ghost function ToRef(entry: MergeEntry): MergeRef {
    MergeRef(entry.member, entry.message.id, entry.seqNo)
  }

  /** The references stand for these entries, one for one. */
  ghost predicate SameMerge(refs: seq<MergeRef>, merge: seq<MergeEntry>) {
    |refs| == |merge| && forall i :: 0 <= i < |merge| ==> refs[i] == ToRef(merge[i])
  }

  ghost predicate SameView(refs: seq<ViewRef>, view: seq<ViewEntry>) {
    |refs| == |view| && forall v :: 0 <= v < |view| ==> refs[v] == ViewRef(view[v].message.id, view[v].sender)
  }

  ghost predicate SameViews(refs: map<string, seq<ViewRef>>, views: map<string, seq<ViewEntry>>) {
    refs.Keys == views.Keys && forall r :: r in views ==> SameView(refs[r], views[r])
  }

  lemma ViewPushed(refs: map<string, seq<ViewRef>>, views: map<string, seq<ViewEntry>>, role: string, entry: ViewEntry)
    requires SameViews(refs, views)
    ensures var before := if role in refs then refs[role] else [];
            var view := if role in views then views[role] else [];
            SameViews(refs[role := before + [ViewRef(entry.message.id, entry.sender)]], views[role := view + [entry]])
    ensures role !in views ==> [] + [entry] == [entry]
  {
  }

  /** The history frame of a frame, if it is one. */
  ghost function HistoryFrameOf(frame: Frame): seq<HistoryFrame> {
    match frame
    case TeamMessage(member, message, seqNo) => [TeamFrame(member, message.id, seqNo)]
    case MemberView(member, sender, message) => [ViewFrame(member, sender, message.id)]
    case Live(_, _) => []
  }

  /** The history frames among the first `n` of a log, live frames left out. */
  ghost function FramesUpTo(log: seq<Frame>, n: nat): seq<HistoryFrame>
    requires n <= |log|
  {
    if n == 0 then [] else FramesUpTo(log, n - 1) + HistoryFrameOf(log[n - 1])
  }

  ghost function HistoryFrames(log: seq<Frame>): seq<HistoryFrame> {
    FramesUpTo(log, |log|)
  }

  lemma {:induction false} SameFramesUpTo(a: seq<Frame>, b: seq<Frame>, n: nat)
    requires n <= |a| && n <= |b| && forall i :: 0 <= i < n ==> a[i] == b[i]
    ensures FramesUpTo(a, n) == FramesUpTo(b, n)
  {
    if n > 0 {
      SameFramesUpTo(a, b, n - 1);
    }
  }

  lemma {:induction false} FramesGrow(log: seq<Frame>, frame: Frame)
    ensures HistoryFrames(log + [frame]) == HistoryFrames(log) + HistoryFrameOf(frame)
  {
    SameFramesUpTo(log + [frame], log, |log|);
  }

  // ------------------------------------------------- the steps of one operation

  /** One more message in the store. */
  function Stored(p: Projection, role: MessageRole, blocks: seq<ContentBlock>, interrupted: bool): Projection {
    p.(messages := p.messages + [MessageM(|p.messages| + 1, role, blocks, interrupted)])
  }

  /** A message's entry at the end of the merge, and its frame. */
  function Entered(p: Projection, member: string, id: nat): Projection {
    p.(merge := p.merge + [MergeRef(member, id, p.nextSeq)], nextSeq := p.nextSeq + 1,
       frames := p.frames + [TeamFrame(member, id, p.nextSeq)])
  }

  /** A message's member_view frame. */
  function Fanned(p: Projection, role: string, sender: string, id: nat): Projection {
    p.(frames := p.frames + [ViewFrame(role, sender, id)])
  }

  lemma StoredEntered(p: Projection, member: string, role: MessageRole, blocks: seq<ContentBlock>, interrupted: bool)
    ensures Entered(Stored(p, role, blocks, interrupted), member, |p.messages| + 1)
         == Merged(p, member, role, blocks, interrupted)
  {
  }

  lemma OutputIs(p: Projection, role: string, content: seq<BlockView>, interrupted: bool, recordView: bool)
    requires p.InStore()
    ensures var q := Merged(p, role, Agent, Displayed(content), interrupted);
            Do(p, AppendOutput(role, content, interrupted, recordView)) ==
            if Displayed(content) == [] then p
            else if recordView then Viewed(q, role, |p.messages| + 1, role) else q
  {
  }

  lemma ViewUserIs(p: Projection, role: string, sourceKind: string, sourceRole: Option<string>,
                   content: seq<BlockView>, recordView: bool)
    requires p.InStore()
    ensures var blocks, id := DisplayedText(content), |p.messages| + 1;
            var sender := if sourceKind == "team-broadcast" then BroadcastSender(sourceRole) else "user";
            Do(p, AppendViewUser(role, sourceKind, sourceRole, content, recordView)) ==
            if !recordView || !HasViewProjection(sourceKind) || blocks == [] then p
            else Viewed(Fanned(Stored(p, User, blocks, false), role, sender, id), role, id, sender)
  {
  }

  class TeamHistory {
    const sink: Sink
    var merge: seq<MergeEntry>
    var views: map<string, seq<ViewEntry>>
    var nextSeq: nat
    var nextMessageId: nat
    ghost var created: seq<Message>      // every message built so far, by id
    ghost var model: Projection          // what the objects stand for, frames aside

    /** The message is the one and only message of its id. */
    ghost predicate IsCreated(message: Message)
      reads this`created
    {
      1 <= message.id <= |created| && created[message.id - 1] == message
    }

    ghost predicate Valid()
      reads this, created
    {
      && nextMessageId == |created| + 1
      && (forall k :: 0 <= k < |created| ==> created[k].id == k + 1)
      && (forall i :: 0 <= i < |merge| ==> IsCreated(merge[i].message))
      && (forall r, v :: r in views && 0 <= v < |views[r]| ==> IsCreated(views[r][v].message))
      && Mirrored()
    }

    /** The model holds what the messages, the merge and the views hold. */
    ghost predicate Mirrored()
      reads this, created
    {
      && |model.messages| == |created|
      && (forall k :: 0 <= k < |created| ==> model.messages[k] == created[k].Content())
      && SameMerge(model.merge, merge) && SameViews(model.views, views) && model.nextSeq == nextSeq
    }

    ghost function Model(): (p: Projection)
      requires Valid()
      reads this, created, sink
      ensures p.InStore()
    {
      model.(frames := HistoryFrames(sink.log))
    }

    constructor (sink: Sink)
      requires HistoryFrames(sink.log) == []
      ensures Valid() && this.sink == sink && created == [] && Model() == EMPTY_PROJECTION
    {
      this.sink := sink;
      merge := [];
      views := map[];
      nextSeq := 1;
      nextMessageId := 1;
      created := [];
      model := EMPTY_PROJECTION;
    }

    /** Build one message with the next id. */
    method NewMessage(role: MessageRole, blocks: seq<ContentBlock>, interrupted: bool) returns (message: Message)
      requires Valid()
      modifies this`nextMessageId, this`created, this`model
      ensures Valid() && fresh(message) && IsCreated(message)
      ensures created == old(created) + [message]
      ensures message.id == |created|
      ensures Model() == Stored(old(Model()), role, blocks, interrupted)
    {
      message := new Message(nextMessageId, role, blocks, interrupted);
      nextMessageId := nextMessageId + 1;
      created := created + [message];
      model := Stored(model, role, blocks, interrupted);
    }

    /** Append one entry and fan out its frame, which carries the same message. */
    method AppendMerge(member: string, message: Message) returns (entry: MergeEntry)
      requires Valid() && IsCreated(message)
      modifies this`merge, this`nextSeq, this`model, sink
      ensures Valid() && entry == MergeEntry(member, message, old(nextSeq))
      ensures merge == old(merge) + [entry]
      ensures sink.log == old(sink.log) + [TeamMessage(member, message, entry.seqNo)]
      ensures Model() == Entered(old(Model()), member, message.id)
    {
      entry := MergeEntry(member, message, nextSeq);
      nextSeq := nextSeq + 1;
      merge := merge + [entry];
      sink.Emit(TeamMessage(member, message, entry.seqNo));
      model := Entered(model, member, message.id);
      FramesGrow(old(sink.log), TeamMessage(member, message, entry.seqNo));
    }

    /** A new message, fixed into the merge. */
    method MergeNew(member: string, role: MessageRole, blocks: seq<ContentBlock>, interrupted: bool)
      returns (entry: MergeEntry)
      requires Valid()
      modifies this`merge, this`nextSeq, this`nextMessageId, this`created, this`model, sink
      ensures Valid() && |merge| > 0 && entry == merge[|merge| - 1]
      ensures created == old(created) + [entry.message] && fresh(entry.message) && IsCreated(entry.message)
      ensures entry.message.id == |created|
      ensures sink.log == old(sink.log) + [TeamMessage(member, entry.message, entry.seqNo)]
      ensures Model() == Merged(old(Model()), member, role, blocks, interrupted)
    {
      ghost var p := Model();
      var message := NewMessage(role, blocks, interrupted);
      entry := AppendMerge(member, message);
      StoredEntered(p, member, role, blocks, interrupted);
    }

    /** One more entry at the end of a role's view; a role's first entry makes its view. */
    method PushView(role: string, message: Message, sender: string)
      requires Valid() && IsCreated(message)
      modifies this`views, this`model
      ensures Valid()
      ensures role in views && |views[role]| > 0 && views[role][|views[role]| - 1] == ViewEntry(message, sender)
      ensures Model() == Viewed(old(Model()), role, message.id, sender)
    {
      ViewPushed(model.views, views, role, ViewEntry(message, sender));
      model := Viewed(model, role, message.id, sender);
      if role !in views {
        views := views[role := [ViewEntry(message, sender)]];
      } else {
        views := views[role := views[role] + [ViewEntry(message, sender)]];
      }
    }

    /** The user message at acceptance, fixed into the merge. */
    method AppendUser(text: string) returns (entry: MergeEntry)
      requires Valid()
      modifies this, sink
      ensures Valid() && |merge| > 0 && entry == merge[|merge| - 1] && fresh(entry.message)
      ensures created == old(created) + [entry.message]
      ensures Model() == Do(old(Model()), HistoryModel.AppendUser(text))
      ensures sink.log == old(sink.log) + [TeamMessage("user", entry.message, entry.seqNo)]
    {
      entry := MergeNew("user", User, [Text(text)], false);
    }

    /** The blocks of a content that show. */
    method Show(content: seq<BlockView>) returns (blocks: seq<ContentBlock>)
      ensures blocks == Displayed(content)
    {
      blocks := [];
      var i := 0;
      while i < |content|
        invariant 0 <= i <= |content| && blocks == Displayed(content[..i])
      {
        var mapped := ToContentBlock(content[i]);
        assert content[..i + 1][..i] == content[..i];
        if mapped.Some? {
          blocks := blocks + [mapped.value];
        }
        i := i + 1;
      }
      assert content[..i] == content;
    }

    /** One member output: the merge and, unless viewless, the member's view hold the same object. */
    method AppendMemberOutput(role: string, content: seq<BlockView>, interrupted: bool, recordView: bool)
      returns (entry: Option<MergeEntry>)
      requires Valid()
      modifies this, sink
      ensures Valid()
      ensures Model() == Do(old(Model()), AppendOutput(role, content, interrupted, recordView))
      ensures entry.None? ==> sink.log == old(sink.log)
      ensures entry.Some? ==>
                sink.log == old(sink.log) + [TeamMessage(role, entry.value.message, entry.value.seqNo)]
      ensures entry.None? <==> Displayed(content) == []
      ensures entry.None? ==> created == old(created)
      ensures entry.Some? ==>
                && created == old(created) + [entry.value.message] && fresh(entry.value.message)
                && |merge| > 0 && merge[|merge| - 1] == entry.value
                && (recordView ==> role in views && |views[role]| > 0 &&
                                   views[role][|views[role]| - 1].message == entry.value.message)
    {
      var blocks := Show(content);
      OutputIs(Model(), role, content, interrupted, recordView);
      if blocks == [] {
        return None;
      }
      if !recordView {
        var viewless := MergeNew(role, Agent, blocks, interrupted);
        return Some(viewless);
      }
      var appended := MergeInView(role, blocks, interrupted);
      return Some(appended);
    }

    /** A new agent message in the merge, and the same object in the member's view. */
    method MergeInView(role: string, blocks: seq<ContentBlock>, interrupted: bool) returns (entry: MergeEntry)
      requires Valid()
      modifies this`merge, this`nextSeq, this`nextMessageId, this`created, this`views, this`model, sink
      ensures Valid() && created == old(created) + [entry.message] && fresh(entry.message)
      ensures |merge| > 0 && merge[|merge| - 1] == entry && entry.message.id == |created|
      ensures role in views && |views[role]| > 0 && views[role][|views[role]| - 1] == ViewEntry(entry.message, role)
      ensures sink.log == old(sink.log) + [TeamMessage(role, entry.message, entry.seqNo)]
      ensures Model() == Viewed(Merged(old(Model()), role, Agent, blocks, interrupted), role, entry.message.id, role)
    {
      entry := MergeNew(role, Agent, blocks, interrupted);
      PushView(role, entry.message, role);
    }

    method AppendAnnouncement(role: string, text: string) returns (entry: MergeEntry)
      requires Valid()
      modifies this, sink
      ensures Valid() && |merge| > 0 && entry == merge[|merge| - 1]
      ensures created == old(created) + [entry.message] && fresh(entry.message)
      ensures Model() == Do(old(Model()), HistoryModel.AppendAnnouncement(role, text))
      ensures sink.log == old(sink.log) + [TeamMessage(role, entry.message, entry.seqNo)]
    {
      entry := MergeNew(role, Agent, [Text(text)], false);
    }

    /** The text blocks of a content. */
    method ShowText(content: seq<BlockView>) returns (blocks: seq<ContentBlock>)
      ensures blocks == DisplayedText(content)
    {
      blocks := [];
      var i := 0;
      while i < |content|
        invariant 0 <= i <= |content| && blocks == DisplayedText(content[..i])
      {
        assert content[..i + 1][..i] == content[..i];
        if content[i].kind == "text" {
          blocks := blocks + [Text(content[i].text.GetOr(""))];
        }
        i := i + 1;
      }
      assert content[..i] == content;
    }

    /** A user message of a member's own log: its view only, with its frame. */
    method AppendMemberViewUser(role: string, sourceKind: string, sourceRole: Option<string>,
                                content: seq<BlockView>, recordView: bool)
      returns (ghost added: Option<Message>, ghost sender: string)
      requires Valid()
      modifies this, sink
      ensures Valid() && (added.Some? ==> fresh(added.value))
      ensures added.None? ==> created == old(created) && sink.log == old(sink.log)
      ensures added.Some? ==>
                && created == old(created) + [added.value]
                && sink.log == old(sink.log) + [MemberView(role, sender, added.value)]
      ensures Model() == Do(old(Model()), AppendViewUser(role, sourceKind, sourceRole, content, recordView))
    {
      ViewUserIs(Model(), role, sourceKind, sourceRole, content, recordView);
      added, sender := None, "";
      if !recordView || !HasViewProjection(sourceKind) {
        return;
      }
      var blocks := ShowText(content);
      if blocks == [] {
        return;
      }
      var from := if sourceKind == "team-broadcast" then BroadcastSender(sourceRole) else "user";
      var message := ViewUser(role, from, blocks);
      added, sender := Some(message), from;
    }

    /** A new user message in one view, and its member_view frame. */
    method ViewUser(role: string, sender: string, blocks: seq<ContentBlock>) returns (message: Message)
      requires Valid()
      modifies this`nextMessageId, this`created, this`views, this`model, sink
      ensures Valid() && fresh(message) && created == old(created) + [message]
      ensures sink.log == old(sink.log) + [MemberView(role, sender, message)]
      ensures Model() == Viewed(Fanned(Stored(old(Model()), User, blocks, false), role, sender, message.id),
                                role, message.id, sender)
      ensures message.id == |created|
    {
      message := FanOut(role, sender, blocks);
      PushView(role, message, sender);
    }

    /** A new user message and its member_view frame. */
    method FanOut(role: string, sender: string, blocks: seq<ContentBlock>) returns (message: Message)
      requires Valid()
      modifies this`nextMessageId, this`created, this`model, sink
      ensures Valid() && fresh(message) && IsCreated(message) && message.id == |created|
      ensures created == old(created) + [message]
      ensures sink.log == old(sink.log) + [MemberView(role, sender, message)]
      ensures Model() == Fanned(Stored(old(Model()), User, blocks, false), role, sender, message.id)
    {
      message := NewMessage(User, blocks, false);
      EmitView(role, sender, message);
    }

    method EmitView(role: string, sender: string, message: Message)
      requires Valid() && IsCreated(message)
      modifies sink
      ensures Valid() && sink.log == old(sink.log) + [MemberView(role, sender, message)]
      ensures Model() == Fanned(old(Model()), role, sender, message.id)
    {
      sink.Emit(MemberView(role, sender, message));
      FramesGrow(old(sink.log), MemberView(role, sender, message));
    }

    /**
     * Settle a tool result inside the one message that holds its last running
     * call. The message object is shared, so every projection sees it.
     */
    method SettleToolResult(role: string, toolId: string, status: ToolStatus, result: string) returns (settled: bool)
      requires Valid()
      modifies created, this`model
      ensures Valid()
      ensures Model() == Do(old(Model()), SettleResult(role, toolId, status, result))
      ensures settled <==> LastEntry(old(Model()), |merge|, role, toolId) >= 0
    {
      var i, j := FindRunning(role, toolId);
      settled := i >= 0;
      if settled {
        SettleAt(i, j, toolId, status, result);
      }
    }

    method SettleAt(i: nat, j: nat, toolId: string, status: ToolStatus, result: string)
      requires Valid() && i < |merge| && Holds(Model(), i, merge[i].member, toolId)
      requires var blocks := merge[i].message.blocks; j < |blocks| && j == LastRunning(blocks, |blocks|, toolId)
      modifies created, this`model
      ensures Valid() && Model() == Settled(old(Model()), i, toolId, status, result)
    {
      SettleBlock(merge[i].message, j, status, result);
    }

    /** The last running call of a tool under a role: its merge entry and its block, or -1 for none. */
    method FindRunning(role: string, toolId: string) returns (i: int, j: int)
      requires Valid()
      ensures i == LastEntry(Model(), |merge|, role, toolId)
      ensures i >= 0 ==> var blocks := merge[i].message.blocks; j == LastRunning(blocks, |blocks|, toolId) && j >= 0
    {
      ghost var model := Model();
      i, j := |merge| - 1, -1;
      while i >= 0
        invariant -1 <= i < |merge|
        invariant forall k :: i < k < |merge| ==> !Holds(model, k, role, toolId)
      {
        if merge[i].member == role {
          var message := merge[i].message;
          assert model.messages[message.id - 1] == message.Content();
          j := |message.blocks| - 1;
          while j >= 0 && !IsRunningCall(message.blocks[j], toolId)
            invariant -1 <= j < |message.blocks|
            invariant forall k :: j < k < |message.blocks| ==> !IsRunningCall(message.blocks[k], toolId)
          {
            j := j - 1;
          }
          if j >= 0 {
            LastIs(model, i, j, role, toolId);
            return;
          }
        }
        i := i - 1;
      }
    }

    /** Write the terminal status and result into one block of one message. */
    method SettleBlock(message: Message, j: nat, status: ToolStatus, result: string)
      requires Valid() && IsCreated(message) && j < |message.blocks| && message.blocks[j].ToolCall?
      modifies message, this`model
      ensures Valid()
      ensures var p, k := old(Model()), message.id - 1;
              var blocks := p.messages[k].blocks;
              Model() == p.(messages := p.messages[k := p.messages[k].(
                blocks := blocks[j := blocks[j].(status := status, result := Some(result))])])
    {
      ghost var k := message.id - 1;
      message.blocks := message.blocks[j := message.blocks[j].(status := status, result := Some(result))];
      model := model.(messages := model.messages[k := message.Content()]);
    }

    /** The merged entries as they stand. */
    method ListTeamMessages() returns (entries: seq<MergeEntry>)
      ensures entries == merge
    {
      entries := merge;
    }

    /** One role's view as it stands; a role that never wrote has an empty one. */
    method ListMemberMessages(role: string) returns (entries: seq<ViewEntry>)
      ensures entries == if role in views then views[role] else []
    {
      entries := if role in views then views[role] else [];
    }
  }

  /** Nothing later holds a running call: this entry and this block are the ones to settle. */
  lemma LastIs(p: Projection, i: nat, j: nat, role: string, toolId: string)
    requires p.InStore() && RunningAt(p, i, j, role, toolId)
    requires forall k :: i < k < |p.merge| ==> !Holds(p, k, role, toolId)
    requires var blocks := p.messages[p.merge[i].id - 1].blocks;
             forall k :: j < k < |blocks| ==> !IsRunningCall(blocks[k], toolId)
    ensures LastEntry(p, |p.merge|, role, toolId) == i
    ensures var blocks := p.messages[p.merge[i].id - 1].blocks; LastRunning(blocks, |blocks|, toolId) == j
  {
    RunningEntryHolds(p, i, j, role, toolId);
  }
}
