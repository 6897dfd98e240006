/**
 * One member's collector as the source keeps it: the turn in flight, the
 * recorded mark and the live attempts are fields, and handling an event updates
 * them while emitting frames and writing the shared history. Each method is
 * proved to do the items `CollectorModel.Step` lists, in their order.
 */
module Collectors {
  import opened Wrappers
  import opened HistoryModel
  import opened CollectorModel
  import opened Team

  /** A frame as a value: history frames by message id, live frames by their item. */
  datatype LogEntry = History(frame: HistoryFrame) | LiveFrame(member: string, item: Item)

  /** Everything a collector writes to: the projections and the frame log. */
  datatype Output = Output(projection: Projection, log: seq<LogEntry>)

  ghost function ToEntry(frame: Frame): LogEntry {
    match frame
    case TeamMessage(member, message, seqNo) => History(TeamFrame(member, message.id, seqNo))
    case MemberView(member, sender, message) => History(ViewFrame(member, sender, message.id))
    case Live(member, item) => LiveFrame(member, item)
  }

  ghost function LogOf(log: seq<Frame>): seq<LogEntry> {
    seq(|log|, i requires 0 <= i < |log| => ToEntry(log[i]))
  }

  function AsHistory(frames: seq<HistoryFrame>): seq<LogEntry> {
    seq(|frames|, i requires 0 <= i < |frames| => History(frames[i]))
  }

  predicate IsFrame(item: Item) {
    item.Opened? || item.BlockShown? || item.ToolShown? || item.Closed?
  }

  /** The history call of an item, if it is one. */
  function ToOp(role: string, recordView: bool, item: Item): Option<Op> {
    match item
    case Recorded(content, interrupted, _) => Some(AppendOutput(role, content, interrupted, recordView))
    case ResultSettled(toolId, status, result) => Some(SettleResult(role, toolId, status, result))
    case InputViewed(kind, source, content) => Some(AppendViewUser(role, kind, source, content, recordView))
    case _ => None
  }

  function PerformItem(o: Output, role: string, recordView: bool, item: Item): (r: Output)
    requires o.projection.InStore()
    ensures r.projection.InStore()
  {
    if IsFrame(item) then o.(log := o.log + [LiveFrame(role, item)])
    else
      match ToOp(role, recordView, item)
      case None => o
      case Some(op) =>
        var q := Do(o.projection, op);
        Output(q, o.log + AsHistory(q.frames[|o.projection.frames|..]))
  }

  /** What doing `items` in order writes. */
  function Perform(o: Output, role: string, recordView: bool, items: seq<Item>): (r: Output)
    requires o.projection.InStore()
    ensures r.projection.InStore()
  {
    if items == [] then o
    else PerformItem(Perform(o, role, recordView, items[..|items| - 1]), role, recordView, items[|items| - 1])
  }

  lemma {:induction false} PerformAppend(o: Output, role: string, recordView: bool, a: seq<Item>, b: seq<Item>)
    requires o.projection.InStore()
    ensures Perform(o, role, recordView, a + b) == Perform(Perform(o, role, recordView, a), role, recordView, b)
    decreases |b|
  {
    if b == [] {
      assert a + b == a;
    } else {
      PerformAppend(o, role, recordView, a, b[..|b| - 1]);
      assert (a + b)[..|a + b| - 1] == a + b[..|b| - 1];
    }
  }

  lemma {:induction false} LogGrows(log: seq<Frame>, frame: Frame)
    ensures LogOf(log + [frame]) == LogOf(log) + [ToEntry(frame)]
  {
  }

  /** One more history frame is one more history entry of the log. */
  lemma {:induction false} HistoryLogGrows(log: seq<Frame>, frame: Frame)
    requires !frame.Live?
    ensures var n := |HistoryFrames(log)|;
            && n <= |HistoryFrames(log + [frame])|
            && LogOf(log + [frame]) == LogOf(log) + AsHistory(HistoryFrames(log + [frame])[n..])
  {
    LogGrows(log, frame);
    FramesGrow(log, frame);
    assert HistoryFrames(log + [frame])[|HistoryFrames(log)|..] == HistoryFrameOf(frame);
    assert AsHistory(HistoryFrameOf(frame)) == [ToEntry(frame)];
  }

  lemma NothingLogged(log: seq<LogEntry>, frames: seq<HistoryFrame>)
    ensures log + AsHistory(frames[|frames|..]) == log
  {
  }

  /** A settlement shows no frame. */
  lemma {:induction false} SettledWrites(o: Output, role: string, recordView: bool, toolId: string, status: ToolStatus,
                                         result: string)
    requires o.projection.InStore()
    ensures PerformItem(o, role, recordView, ResultSettled(toolId, status, result)) ==
            Output(Do(o.projection, SettleResult(role, toolId, status, result)), o.log)
  {
    NothingLogged(o.log, o.projection.frames);
  }

  // ------------------------------------------- the items of each event, done

  lemma {:induction false} PerformSnoc(o: Output, role: string, recordView: bool, items: seq<Item>, item: Item)
    requires o.projection.InStore()
    ensures Perform(o, role, recordView, items + [item]) ==
            PerformItem(Perform(o, role, recordView, items), role, recordView, item)
  {
    assert (items + [item])[..|items|] == items;
  }

  lemma {:induction false} PerformOne(o: Output, role: string, recordView: bool, item: Item)
    requires o.projection.InStore()
    ensures Perform(o, role, recordView, [item]) == PerformItem(o, role, recordView, item)
  {
    assert [item][..0] == [];
  }

  lemma TurnEndSteps(s: Collector, errorReason: bool, failure: Option<FailureView>)
    ensures Step(s, TurnEnd(errorReason, failure)) == if errorReason then Step(s, AgentError(failure)) else []
  {
  }

  /** What latching the turn writes: its turn_start, unless one is in flight. */
  function Latching(o: Output, role: string, recordView: bool, s: Collector): (r: Output)
    requires o.projection.InStore()
    ensures r.projection.InStore()
  {
    if s.active.Some? then o else PerformItem(o, role, recordView, Opened(s.nextTurn))
  }

  lemma {:induction false} LatchWrites(o: Output, role: string, recordView: bool, s: Collector)
    requires o.projection.InStore()
    ensures Perform(o, role, recordView, Latch(s)) == Latching(o, role, recordView, s)
  {
    PerformOne(o, role, recordView, Opened(s.nextTurn));
  }

  lemma {:induction false} AssistantRuns(s: Collector, content: seq<BlockView>, usage: Option<Usage>, interrupted: bool)
    ensures var turn := Latched(s).active.value;
            Run(s, Step(s, AssistantMessage(content, usage, interrupted))) ==
            Some(Latched(s).(active := Some(turn.(usage := if usage.Some? then usage else turn.usage, pending := []))))
  {
    var last := Recorded(content, interrupted, false);
    RunLatch(s);
    if usage.Some? {
      RunSnoc(s, Latch(s), UsageSeen(usage));
      RunSnoc(s, Latch(s) + [UsageSeen(usage)], last);
    } else {
      RunSnoc(s, Latch(s), last);
    }
  }

  lemma {:induction false} AssistantWrites(s: Collector, o: Output, role: string, recordView: bool,
                        content: seq<BlockView>, usage: Option<Usage>, interrupted: bool)
    requires o.projection.InStore()
    ensures Perform(o, role, recordView, Step(s, AssistantMessage(content, usage, interrupted))) ==
            PerformItem(Latching(o, role, recordView, s), role, recordView, Recorded(content, interrupted, false))
  {
    var last := Recorded(content, interrupted, false);
    LatchWrites(o, role, recordView, s);
    if usage.Some? {
      PerformSnoc(o, role, recordView, Latch(s), UsageSeen(usage));
      PerformSnoc(o, role, recordView, Latch(s) + [UsageSeen(usage)], last);
    } else {
      PerformSnoc(o, role, recordView, Latch(s), last);
    }
  }

  lemma {:induction false} ToolWrites(s: Collector, o: Output, role: string, recordView: bool, settled: Item, shown: Item)
    requires o.projection.InStore()
    ensures Perform(o, role, recordView, [settled] + Latch(s) + [shown]) ==
            PerformItem(Latching(PerformItem(o, role, recordView, settled), role, recordView, s), role, recordView, shown)
  {
    PerformOne(o, role, recordView, settled);
    PerformAppend(o, role, recordView, [settled], Latch(s));
    LatchWrites(PerformItem(o, role, recordView, settled), role, recordView, s);
    PerformSnoc(o, role, recordView, [settled] + Latch(s), shown);
  }

  /** The turn after one chunk has been folded in and shown. */
  function AfterChunk(turn: Turn, chunk: Chunk): Turn {
    if chunk.UsageChunk? then turn.(usage := chunk.usage)
    else Shown(Touched(turn, ToPrefixOp(chunk)), LocalIndex(chunk), Body(chunk))
  }

  function Touched(turn: Turn, op: Option<PrefixOp>): Turn {
    if op.Some? then turn.(pending := Touch(turn.pending, op.value)) else turn
  }

  function Shown(turn: Turn, local: int, body: Option<BlockBody>): Turn {
    if body.None? || local in turn.localIndexes then turn
    else turn.(localIndexes := turn.localIndexes[local := turn.nextIndex], nextIndex := turn.nextIndex + 1)
  }

  lemma {:induction false} ChunkRuns(l: Collector, attempt: string, chunk: Chunk)
    requires l.active.Some? && attempt in l.attempts
    ensures Run(l, ChunkItems(l, attempt, chunk)) == Some(l.(active := Some(AfterChunk(l.active.value, chunk))))
  {
    var op := ToPrefixOp(chunk);
    if chunk.UsageChunk? {
      RunOne(l, UsageSeen(chunk.usage));
    } else if op.None? {
      ShownRuns(l, attempt, chunk);
    } else {
      TouchRuns(l, attempt, chunk, op.value);
    }
  }

  lemma {:induction false} ShownRuns(l: Collector, attempt: string, chunk: Chunk)
    requires l.active.Some? && attempt in l.attempts && !chunk.UsageChunk? && ToPrefixOp(chunk).None?
    ensures Run(l, ShownItems(l, attempt, chunk)) == Some(l.(active := Some(AfterChunk(l.active.value, chunk))))
  {
    if Body(chunk).Some? {
      RunOne(l, ShownItem(l, attempt, chunk));
    }
  }

  lemma {:induction false} TouchRuns(l: Collector, attempt: string, chunk: Chunk, op: PrefixOp)
    requires l.active.Some? && attempt in l.attempts && !chunk.UsageChunk? && ToPrefixOp(chunk) == Some(op)
    ensures Run(l, [PrefixTouched(op)] + ShownItems(l, attempt, chunk))
         == Some(l.(active := Some(AfterChunk(l.active.value, chunk))))
  {
    RunOne(l, PrefixTouched(op));
    if Body(chunk).Some? {
      RunSnoc(l, [PrefixTouched(op)], ShownItem(l, attempt, chunk));
    } else {
      assert [PrefixTouched(op)] + [] == [PrefixTouched(op)];
    }
  }

  /** An item that is neither a frame nor a history call, alone and before another. */
  lemma {:induction false} QuietWrites(o: Output, role: string, recordView: bool, quiet: Item, item: Item)
    requires o.projection.InStore() && !IsFrame(quiet) && ToOp(role, recordView, quiet).None?
    ensures Perform(o, role, recordView, [quiet]) == o
    ensures Perform(o, role, recordView, [quiet] + [item]) == PerformItem(o, role, recordView, item)
  {
    PerformOne(o, role, recordView, quiet);
    PerformSnoc(o, role, recordView, [quiet], item);
  }

  lemma {:induction false} ChunkWrites(l: Collector, o: Output, role: string, recordView: bool, attempt: string, chunk: Chunk)
    requires o.projection.InStore() && l.active.Some? && attempt in l.attempts
    ensures Perform(o, role, recordView, ChunkItems(l, attempt, chunk)) ==
            if Body(chunk).None? then o else PerformItem(o, role, recordView, ShownItem(l, attempt, chunk))
  {
    var op := ToPrefixOp(chunk);
    var shown := if Body(chunk).Some? then ShownItem(l, attempt, chunk) else Opened(0);
    if chunk.UsageChunk? {
      QuietWrites(o, role, recordView, UsageSeen(chunk.usage), shown);
    } else if op.Some? {
      QuietWrites(o, role, recordView, PrefixTouched(op.value), shown);
    } else {
      PerformOne(o, role, recordView, shown);
    }
  }

  /** What one chunk of a known attempt writes. */
  function ChunkOutput(o: Output, role: string, recordView: bool, s: Collector, attempt: string, chunk: Chunk): Output
    requires o.projection.InStore() && attempt in s.attempts
  {
    var latched := Latching(o, role, recordView, s);
    if Body(chunk).None? then latched
    else PerformItem(latched, role, recordView, ShownItem(Latched(s), attempt, chunk))
  }

  lemma {:induction false} ChunkDone(s: Collector, o: Output, role: string, recordView: bool, attempt: string, chunk: Chunk)
    requires o.projection.InStore() && attempt in s.attempts
    ensures var items, l := Step(s, AttemptChunk(attempt, Some(chunk))), Latched(s);
            && Run(s, items) == Some(l.(active := Some(AfterChunk(l.active.value, chunk))))
            && Perform(o, role, recordView, items) == ChunkOutput(o, role, recordView, s, attempt, chunk)
  {
    var l, more := Latched(s), ChunkItems(Latched(s), attempt, chunk);
    RunLatch(s);
    RunAppend(s, Latch(s), more);
    ChunkRuns(l, attempt, chunk);
    LatchWrites(o, role, recordView, s);
    PerformAppend(o, role, recordView, Latch(s), more);
    ChunkWrites(l, Latching(o, role, recordView, s), role, recordView, attempt, chunk);
  }

  /** Latching the turn and then one more item. */
  lemma {:induction false} LatchThen(s: Collector, o: Output, role: string, recordView: bool, item: Item)
    requires o.projection.InStore() && May(Latched(s), item)
    ensures Run(s, Latch(s) + [item]) == Some(After(Latched(s), item))
    ensures Perform(o, role, recordView, Latch(s) + [item]) ==
            PerformItem(Latching(o, role, recordView, s), role, recordView, item)
  {
    if s.active.Some? {
      assert Latch(s) + [item] == [item];
      RunOne(s, item);
      PerformOne(o, role, recordView, item);
    } else {
      RunLatch(s);
      RunSnoc(s, [Opened(s.nextTurn)], item);
      PerformOne(o, role, recordView, Opened(s.nextTurn));
      PerformSnoc(o, role, recordView, [Opened(s.nextTurn)], item);
    }
  }

  /** The turn after its step is entered. */
  function AfterStep(turn: Turn, step: int): Turn {
    if turn.step == Some(step) then turn else turn.(step := Some(step), localIndexes := map[], pending := [])
  }

  lemma {:induction false} StartDone(s: Collector, o: Output, role: string, recordView: bool, attempt: string, step: int)
    requires o.projection.InStore()
    ensures var items, l := Step(s, AttemptStart(attempt, Some(step))), Latched(s);
            && Run(s, items) == Some(Collector(Some(AfterStep(l.active.value, step)), l.mark,
                                               s.attempts[attempt := step], l.nextTurn))
            && Perform(o, role, recordView, items) == Latching(o, role, recordView, s)
  {
    LatchThen(s, o, role, recordView, StepEntered(attempt, step, Latched(s).active.value.step != Some(step)));
  }

  /** What settling the turn in flight writes. */
  function Settling(o: Output, role: string, recordView: bool, s: Collector): (r: Output)
    requires o.projection.InStore() && s.active.Some?
    ensures r.projection.InStore()
  {
    var turn, outcome := s.active.value, Settlement(s);
    var recorded :=
      if RecordsPrefix(turn, outcome) then PerformItem(o, role, recordView, Recorded(Views(turn.pending), true, true))
      else o;
    PerformItem(recorded, role, recordView, Closed(turn.id, outcome, if outcome == Completed then turn.usage else None))
  }

  lemma {:induction false} SettleDone(s: Collector, o: Output, role: string, recordView: bool)
    requires o.projection.InStore() && s.active.Some?
    ensures Run(s, Settle(s)) == Some(s.(active := None, mark := None))
    ensures Perform(o, role, recordView, Settle(s)) == Settling(o, role, recordView, s)
  {
    var turn, outcome := s.active.value, Settlement(s);
    var closed := Closed(turn.id, outcome, if outcome == Completed then turn.usage else None);
    if RecordsPrefix(turn, outcome) {
      var recorded := Recorded(Views(turn.pending), true, true);
      RunOne(s, recorded);
      RunSnoc(s, [recorded], closed);
      PerformOne(o, role, recordView, recorded);
      PerformSnoc(o, role, recordView, [recorded], closed);
    } else {
      RunOne(s, closed);
      PerformOne(o, role, recordView, closed);
    }
  }

  /** The events of a member's log; the others but the mark come on the live channel. */
  predicate OnLogChannel(event: Event) {
    event.UserMessage? || event.AssistantMessage? || event.ToolResult? || event.TurnEnd? || event.OtherLog?
  }

  class MemberCollector {
    const memberId: string
    const role: string
    const history: TeamHistory
    const sink: Sink
    const recordView: bool
    var active: Option<Turn>
    var pendingOutcome: Option<Outcome>
    var attempts: map<string, int>
    var nextTurn: nat                      // the turn id mint: ids are never handed out twice

    constructor (memberId: string, role: string, history: TeamHistory, recordView: bool)
      requires history.Valid()
      ensures Valid() && State() == INITIAL
      ensures this.memberId == memberId && this.role == role && this.history == history && this.recordView == recordView
    {
      this.memberId := memberId;
      this.role := role;
      this.history := history;
      this.sink := history.sink;
      this.recordView := recordView;
      active := None;
      pendingOutcome := None;
      attempts := map[];
      nextTurn := 0;
    }

    ghost predicate Valid()
      reads history, history.created
    {
      history.Valid() && history.sink == sink
    }

    ghost function State(): Collector
      reads this
    {
      Collector(active, pendingOutcome, attempts, nextTurn)
    }

    ghost function Written(): (o: Output)
      requires Valid()
      reads history, history.created, sink
      ensures o.projection.InStore()
    {
      Output(history.Model(), LogOf(sink.log))
    }

    /** What one item writes on top of `o`. */
    ghost function Writing(o: Output, item: Item): Output
      requires o.projection.InStore()
    {
      PerformItem(o, role, recordView, item)
    }

    /** Emit one live frame. */
    method Show(item: Item)
      requires Valid() && IsFrame(item)
      modifies sink
      ensures Valid() && Written() == Writing(old(Written()), item)
    {
      sink.Emit(Live(role, item));
      FramesGrow(old(sink.log), Live(role, item));
      LogGrows(old(sink.log), Live(role, item));
    }

    /** Write one member output to the history. */
    method Record(content: seq<BlockView>, interrupted: bool, fromPrefix: bool)
      requires Valid()
      modifies history, sink
      ensures Valid() && OnlyNewMessages(old(history.created))
      ensures Written() == Writing(old(Written()), Recorded(content, interrupted, fromPrefix))
    {
      var entry := history.AppendMemberOutput(role, content, interrupted, recordView);
      if entry.Some? {
        HistoryLogGrows(old(sink.log), TeamMessage(role, entry.value.message, entry.value.seqNo));
      } else {
        NothingLogged(LogOf(sink.log), HistoryFrames(sink.log));
      }
    }

    /** Settle one tool result in the history. */
    method SettleInHistory(toolId: string, status: ToolStatus, result: string)
      requires Valid()
      modifies history.created, history`model
      ensures Valid() && history.created == old(history.created)
      ensures Written() == Writing(old(Written()), ResultSettled(toolId, status, result))
    {
      SettledWrites(Written(), role, recordView, toolId, status, result);
      var _ := history.SettleToolResult(role, toolId, status, result);
    }

    twostate predicate OnlyNewMessages(before: seq<Message>)
      reads history
    {
      before <= history.created && forall k :: |before| <= k < |history.created| ==> fresh(history.created[k])
    }

    /** Latch the member turn: a fresh turn and its turn_start frame, unless one is in flight. */
    method EnsureActive()
      requires Valid()
      modifies this`active, this`nextTurn, sink
      ensures Valid() && active.Some? && history.created == old(history.created)
      ensures State() == Latched(old(State()))
      ensures Written() == Latching(old(Written()), role, recordView, old(State()))
    {
      if active.None? {
        var turn := nextTurn;
        nextTurn := nextTurn + 1;
        active := Some(FreshTurn(turn));
        Show(Opened(turn));
      }
    }

    /** A recorded mark settles the turn in flight, or the next one. */
    method MarkOutcome(outcome: Outcome)
      requires Valid()
      modifies this`pendingOutcome
      ensures Valid() && Done(old(State()), old(Written()), Mark(outcome))
    {
      pendingOutcome := Some(outcome);
      RunOne(old(State()), Marked(outcome));
      PerformOne(old(Written()), role, recordView, Marked(outcome));
    }

    /** Teardown drops the turn in flight, its mark and the attempt bindings. */
    method Dispose()
      modifies this`active, this`pendingOutcome, this`attempts
      ensures State() == Collector(None, None, map[], old(nextTurn))
    {
      active := None;
      pendingOutcome := None;
      attempts := map[];
    }

    /** The collector and its writes are where the items of `event` lead from `s` and `o`. */
    ghost predicate Done(s: Collector, o: Output, event: Event)
      requires Valid() && o.projection.InStore()
      reads this, history, history.created, sink
    {
      && Run(s, Step(s, event)) == Some(State())
      && Written() == Perform(o, role, recordView, Step(s, event))
    }

    /** One envelope of the member event stream; another member's envelope is ignored. */
    method ApplyEvent(envelopeMember: string, event: Event)
      requires Valid() && !event.Mark?
      modifies this, history, history.created, sink
      ensures Valid() && OnlyNewMessages(old(history.created))
      ensures envelopeMember != memberId ==> State() == old(State()) && Written() == old(Written())
      ensures envelopeMember == memberId ==> Done(old(State()), old(Written()), event)
    {
      if envelopeMember != memberId {
        return;
      }
      if OnLogChannel(event) {
        OnSessionEvent(event);
      } else {
        OnLiveEvent(event);
      }
    }

    /** One event of the member's own log. */
    method OnSessionEvent(event: Event)
      requires Valid() && OnLogChannel(event)
      modifies this, history, history.created, sink
      ensures Valid() && OnlyNewMessages(old(history.created))
      ensures Done(old(State()), old(Written()), event)
    {
      if event.UserMessage? {
        OnUserMessage(event.sourceKind, event.sourceRole, event.content);
        return;
      }
      if event.AssistantMessage? {
        OnAssistantMessage(event.content, event.usage, event.interrupted);
        return;
      }
      if event.ToolResult? {
        OnToolResult(event.toolCallId, event.isError, event.content);
        return;
      }
      if event.TurnEnd? {
        OnTurnEnd(event.errorReason, event.failure);
      }
    }

    /** The end of a loop turn reports a failure when its reason is an error. */
    method OnTurnEnd(errorReason: bool, failure: Option<FailureView>)
      requires Valid()
      modifies this`active
      ensures Valid() && Done(old(State()), old(Written()), TurnEnd(errorReason, failure))
    {
      TurnEndSteps(State(), errorReason, failure);
      if !errorReason {
        return;
      }
      RecordFailure(failure);
    }

    /** One live-channel event: the activity the member reports beside its log. */
    method OnLiveEvent(event: Event)
      requires Valid() && !OnLogChannel(event) && !event.Mark?
      modifies this, history, history.created, sink
      ensures Valid() && OnlyNewMessages(old(history.created))
      ensures Done(old(State()), old(Written()), event)
    {
      if event.Status? {
        OnStatus(event.status);
      } else if event.AgentError? {
        RecordFailure(event.failure);
      } else {
        OnAssistantStream(event);
      }
    }

    /** One frame of the assistant stream: an attempt starts, brings a chunk, or ends. */
    method OnAssistantStream(event: Event)
      requires Valid() && (event.AttemptStart? || event.AttemptChunk? || event.AttemptEnd? || event.Unattributed?)
      modifies this, history, history.created, sink
      ensures Valid() && OnlyNewMessages(old(history.created))
      ensures Done(old(State()), old(Written()), event)
    {
      match event
      case AttemptStart(attempt, startStep) =>
        if startStep.Some? {
          OnAttemptStart(attempt, startStep.value);
        }
      case AttemptChunk(attempt, chunk) =>
        if attempt in attempts && chunk.Some? {
          OnChunk(chunk.value, attempt);
        }
      case AttemptEnd(attempt) => OnAttemptEnd(attempt);
      case Unattributed =>
    }

    method OnUserMessage(sourceKind: string, sourceRole: Option<string>, content: seq<BlockView>)
      requires Valid()
      modifies history, sink
      ensures Valid() && OnlyNewMessages(old(history.created))
      ensures Done(old(State()), old(Written()), UserMessage(sourceKind, sourceRole, content))
    {
      ghost var added, sender := history.AppendMemberViewUser(role, sourceKind, sourceRole, content, recordView);
      if added.Some? {
        HistoryLogGrows(old(sink.log), MemberView(role, sender, added.value));
      } else {
        NothingLogged(LogOf(sink.log), HistoryFrames(sink.log));
      }
      var item := InputViewed(sourceKind, sourceRole, content);
      PerformOne(old(Written()), role, recordView, item);
      RunOne(old(State()), item);
    }

    method OnAssistantMessage(content: seq<BlockView>, usage: Option<Usage>, interrupted: bool)
      requires Valid()
      modifies this, history, sink
      ensures Valid() && OnlyNewMessages(old(history.created))
      ensures Done(old(State()), old(Written()), AssistantMessage(content, usage, interrupted))
    {
      AssistantRuns(State(), content, usage, interrupted);
      AssistantWrites(State(), Written(), role, recordView, content, usage, interrupted);
      RecordFinal(content, usage, interrupted);
    }

    /** The final blocks of a step enter the history and supersede its streamed prefix. */
    method RecordFinal(content: seq<BlockView>, usage: Option<Usage>, interrupted: bool)
      requires Valid()
      modifies this, history, sink
      ensures Valid() && OnlyNewMessages(old(history.created))
      ensures var l := Latched(old(State()));
              var turn := l.active.value;
              State() == l.(active := Some(turn.(usage := if usage.Some? then usage else turn.usage, pending := [])))
      ensures Written() == PerformItem(Latching(old(Written()), role, recordView, old(State())), role, recordView,
                                       Recorded(content, interrupted, false))
    {
      EnsureActive();
      active := Some(active.value.(usage := if usage.Some? then usage else active.value.usage));
      active := Some(active.value.(pending := []));
      Record(content, interrupted, false);
    }

    method OnToolResult(toolCallId: Option<string>, isError: bool, content: seq<BlockView>)
      requires Valid()
      modifies this`active, this`nextTurn, history.created, history`model, sink
      ensures Valid() && history.created == old(history.created)
      ensures Done(old(State()), old(Written()), ToolResult(toolCallId, isError, content))
    {
      var toolId := toolCallId.GetOr("");
      var status := if isError then Failed else Succeeded;
      var result := JoinText(content);
      ghost var settled := ResultSettled(toolId, status, result);
      ghost var shown := ToolShown(Latched(State()).active.value.id, toolId, status, result);
      ToolRuns(State(), settled, shown);
      ToolWrites(State(), Written(), role, recordView, settled, shown);
      SettleAndShow(toolId, status, result);
    }

    /** The history block settles, then the frame goes out under the turn in flight. */
    method SettleAndShow(toolId: string, status: ToolStatus, result: string)
      requires Valid()
      modifies this`active, this`nextTurn, history.created, history`model, sink
      ensures Valid() && history.created == old(history.created)
      ensures State() == Latched(old(State()))
      ensures var settled := PerformItem(old(Written()), role, recordView, ResultSettled(toolId, status, result));
              Written() == PerformItem(Latching(settled, role, recordView, old(State())), role, recordView,
                                       ToolShown(Latched(old(State())).active.value.id, toolId, status, result))
    {
      SettleInHistory(toolId, status, result);
      EnsureActive();
      Show(ToolShown(active.value.id, toolId, status, result));
    }

    method OnAttemptStart(attempt: string, step: int)
      requires Valid()
      modifies this`active, this`nextTurn, this`attempts, sink
      ensures Valid() && history.created == old(history.created)
      ensures Done(old(State()), old(Written()), AttemptStart(attempt, Some(step)))
    {
      StartDone(State(), Written(), role, recordView, attempt, step);
      attempts := attempts[attempt := step];
      EnterStep(step);
    }

    /** Start or continue one model-output step: a changed step number drops the step table and the prefix. */
    method EnterStep(step: int)
      requires Valid()
      modifies this`active, this`nextTurn, sink
      ensures Valid() && history.created == old(history.created)
      ensures nextTurn == Latched(old(State())).nextTurn
      ensures active == Some(AfterStep(Latched(old(State())).active.value, step))
      ensures Written() == Latching(old(Written()), role, recordView, old(State()))
    {
      EnsureActive();
      if active.value.step == Some(step) {
        return;
      }
      active := Some(active.value.(step := Some(step), localIndexes := map[], pending := []));
    }

    method OnAttemptEnd(attempt: string)
      requires Valid()
      modifies this`attempts
      ensures Valid() && Done(old(State()), old(Written()), AttemptEnd(attempt))
    {
      attempts := attempts - {attempt};
      RunOne(old(State()), AttemptClosed(attempt));
      PerformOne(old(Written()), role, recordView, AttemptClosed(attempt));
    }

    method OnChunk(chunk: Chunk, attempt: string)
      requires Valid() && attempt in attempts
      modifies this`active, this`nextTurn, sink
      ensures Valid() && history.created == old(history.created)
      ensures Done(old(State()), old(Written()), AttemptChunk(attempt, Some(chunk)))
    {
      ChunkDone(State(), Written(), role, recordView, attempt, chunk);
      LatchAndFold(chunk, attempt);
    }

    method LatchAndFold(chunk: Chunk, attempt: string)
      requires Valid() && attempt in attempts
      modifies this`active, this`nextTurn, sink
      ensures Valid() && history.created == old(history.created)
      ensures var l := Latched(old(State())); State() == l.(active := Some(AfterChunk(l.active.value, chunk)))
      ensures Written() == ChunkOutput(old(Written()), role, recordView, old(State()), attempt, chunk)
    {
      EnsureActive();
      FoldChunk(chunk, attempt);
    }

    /** The chunk inside the latched turn: usage is folded, the rest feeds the prefix and is shown. */
    method FoldChunk(chunk: Chunk, attempt: string)
      requires Valid() && active.Some? && attempt in attempts
      modifies this`active, sink
      ensures Valid() && active == Some(AfterChunk(old(active).value, chunk))
      ensures Written() == if Body(chunk).None? then old(Written())
                           else Writing(old(Written()), ShownItem(old(State()), attempt, chunk))
    {
      if chunk.UsageChunk? {
        active := Some(active.value.(usage := chunk.usage));
        return;
      }
      var op := ToPrefixOp(chunk);
      if op.Some? {
        TouchPending(op.value);
      }
      var body := Body(chunk);
      if body.Some? {
        ShowBlock(attempt, LocalIndex(chunk), body.value);
      }
    }

    /** One block frame, under its turn-global index and its attempt's step. */
    method ShowBlock(attempt: string, local: int, body: BlockBody)
      requires Valid() && active.Some? && attempt in attempts
      modifies this`active, sink
      ensures Valid() && active == Some(Shown(old(active).value, local, Some(body)))
      ensures var turn := old(active).value;
              Written() == Writing(old(Written()), BlockShown(turn.id, attempt, local, IndexOf(turn, local),
                                                              attempts[attempt], body))
    {
      var step := attempts[attempt];
      var index := RemapIndex(local);
      Show(BlockShown(active.value.id, attempt, local, index, step, body));
    }

    /** Fold one chunk into the streamed prefix: extend or open its block, or replace it. */
    method TouchPending(op: PrefixOp)
      requires active.Some?
      modifies this`active
      ensures active == Some(old(active).value.(pending := Touch(old(active).value.pending, op)))
    {
      var turn := active.value;
      match op
      case Delta(index, kind, text) =>
        var k := FindPending(turn.pending, index);
        if k < |turn.pending| {
          var view := Extended(turn.pending[k].view, text);
          active := Some(turn.(pending := turn.pending[k := PendingBlock(index, view)]));
        } else {
          var view := Extended(BlockView(kind, Some(""), None, None, None), text);
          active := Some(turn.(pending := turn.pending + [PendingBlock(index, view)]));
        }
      case Final(index, view) =>
        var rest := [];
        var i := 0;
        while i < |turn.pending|
          invariant 0 <= i <= |turn.pending| && rest == Without(turn.pending[..i], index)
        {
          assert turn.pending[..i + 1][..i] == turn.pending[..i];
          if turn.pending[i].index != index {
            rest := rest + [turn.pending[i]];
          }
          i := i + 1;
        }
        assert turn.pending[..i] == turn.pending;
        active := Some(turn.(pending := rest + [PendingBlock(index, view)]));
    }

    /** The turn-global index of a provider index, assigned on first sight. */
    method RemapIndex(local: int) returns (index: nat)
      requires active.Some?
      modifies this`active
      ensures index == IndexOf(old(active).value, local)
      ensures var turn := old(active).value;
              active == Some(if local in turn.localIndexes then turn
                             else turn.(localIndexes := turn.localIndexes[local := index], nextIndex := turn.nextIndex + 1))
    {
      var turn := active.value;
      if local in turn.localIndexes {
        return turn.localIndexes[local];
      }
      index := turn.nextIndex;
      active := Some(turn.(nextIndex := turn.nextIndex + 1, localIndexes := turn.localIndexes[local := index]));
    }

    method OnStatus(status: string)
      requires Valid()
      modifies this`active, this`nextTurn, this`pendingOutcome, history, sink
      ensures Valid() && OnlyNewMessages(old(history.created))
      ensures Done(old(State()), old(Written()), Status(status))
    {
      RunLatch(State());
      if status == "running" {
        EnsureActive();
        return;
      }
      if status != "idle" || active.None? {
        return;
      }
      SettleDone(State(), Written(), role, recordView);
      SettleTurn();
    }

    /** The turn is over: clear the slots, record a failed prefix, emit turn_end. */
    method SettleTurn()
      requires Valid() && active.Some?
      modifies this`active, this`pendingOutcome, history, sink
      ensures Valid() && OnlyNewMessages(old(history.created))
      ensures State() == old(State()).(active := None, mark := None)
      ensures Written() == Settling(old(Written()), role, recordView, old(State()))
    {
      var turn := active.value;
      var outcome :=
        if pendingOutcome.Some? then pendingOutcome.value
        else if turn.failure.None? then Completed
        else Error(turn.failure);
      active := None;
      pendingOutcome := None;
      WriteEnd(turn, outcome);
    }

    /** The failed prefix of a settled turn, if it has one, and its turn_end. */
    method WriteEnd(turn: Turn, outcome: Outcome)
      requires Valid()
      modifies history, sink
      ensures Valid() && OnlyNewMessages(old(history.created))
      ensures var recorded :=
                if RecordsPrefix(turn, outcome) then Writing(old(Written()), Recorded(Views(turn.pending), true, true))
                else old(Written());
              Written() == Writing(recorded, Closed(turn.id, outcome, if outcome == Completed then turn.usage else None))
    {
      if turn.failure.Some? && outcome.Error? && turn.pending != [] {
        Record(Views(turn.pending), true, true);
      }
      var usage := if outcome == Completed then turn.usage else None;
      Show(Closed(turn.id, outcome, usage));
    }

    /** The first failure of the turn in flight wins. */
    method RecordFailure(failure: Option<FailureView>)
      requires Valid()
      modifies this`active
      ensures Valid()
      ensures Done(old(State()), old(Written()), AgentError(failure))
    {
      if failure.Some? {
        if active.Some? && active.value.failure.None? {
          active := Some(active.value.(failure := Some(ToFailure(failure.value))));
        }
        RunOne(old(State()), FailureSeen(ToFailure(failure.value)));
        PerformOne(old(Written()), role, recordView, FailureSeen(ToFailure(failure.value)));
      }
    }
  }
}
