/**
 * One member's collector as a trace of items.
 *
 * A member event makes the collector do a few things in order: emit a frame,
 * call the history, or only note an input (a mark, a failure, a streamed
 * chunk). Each is one `Item`; `Step` gives the items of an event, `After` what
 * an item does to the state. `MemberCollector` performs the items of `Step` on
 * real objects; `CollectorTurns`, `CollectorIndexes` and `CollectorPrefix` state
 * what every trace satisfies.
 */
module CollectorModel {
  import opened Wrappers
  import opened HistoryModel

  // ------------------------------------------------------------------ events

  datatype Usage = Usage(inputTokens: int, outputTokens: int, reasoningTokens: Option<int>)

  datatype Failure = Failure(code: string, message: string)

  /** A reported failure as it arrives: both fields may be absent. */
  datatype FailureView = FailureView(code: Option<string>, message: Option<string>)

  datatype Outcome =
    | Completed
    | Error(error: Option<Failure>)
    | Aborted
    | Canceled

  datatype Chunk =
    | BlockStart(index: Option<int>, blockType: string, id: Option<string>, name: Option<string>)
    | TextDelta(index: Option<int>, text: Option<string>)
    | ReasoningDelta(index: Option<int>, text: Option<string>)
    | ToolCallDelta(index: Option<int>, argumentsDelta: Option<string>)
    | BlockEnd(index: Option<int>, block: Option<BlockView>)
    | UsageChunk(usage: Option<Usage>)
    | OtherChunk

  datatype Event =
    | UserMessage(sourceKind: string, sourceRole: Option<string>, content: seq<BlockView>)
    | AssistantMessage(content: seq<BlockView>, usage: Option<Usage>, interrupted: bool)
    | ToolResult(toolCallId: Option<string>, isError: bool, content: seq<BlockView>)
    | TurnEnd(errorReason: bool, failure: Option<FailureView>)
    | OtherLog
    | AttemptStart(attempt: string, startStep: Option<int>)
    | AttemptChunk(attempt: string, chunk: Option<Chunk>)
    | AttemptEnd(attempt: string)
    | Unattributed                       // a live frame without an attempt id
    | Status(status: string)
    | AgentError(failure: Option<FailureView>)
    | Mark(outcome: Outcome)             // a markOutcome call, not an envelope

  // ------------------------------------------------------------------- items

  datatype BlockType = TextBlock | ThinkBlock | ToolCallBlock

  /** What a block frame carries besides its index and step. */
  datatype BlockBody =
    | StartBody(blockType: BlockType, toolId: Option<string>, name: Option<string>)
    | DeltaBody(text: string)
    | EndBody(block: ContentBlock)

  /** What a chunk adds to the streamed prefix of the current step. */
  datatype PrefixOp =
    | Delta(index: int, kind: string, text: string)
    | Final(index: int, view: BlockView)

  datatype Item =
    | Opened(turn: nat)                                                              // frame turn_start
    | StepEntered(attempt: string, step: int, reset: bool)
    | AttemptClosed(attempt: string)
    | PrefixTouched(op: PrefixOp)
    | UsageSeen(usage: Option<Usage>)
    | BlockShown(turn: nat, attempt: string, local: int, index: nat, step: int, body: BlockBody)   // block frame
    | ToolShown(turn: nat, toolId: string, status: ToolStatus, result: string)       // frame tool_result
    | FailureSeen(failure: Failure)
    | Marked(outcome: Outcome)
    | Recorded(content: seq<BlockView>, interrupted: bool, fromPrefix: bool)         // history call
    | ResultSettled(toolId: string, status: ToolStatus, result: string)              // history call
    | InputViewed(sourceKind: string, sourceRole: Option<string>, content: seq<BlockView>)   // history call
    | Closed(turn: nat, outcome: Outcome, usage: Option<Usage>)                      // frame turn_end

  // ------------------------------------------------------------------- state

  datatype PendingBlock = PendingBlock(index: int, view: BlockView)

  datatype Turn = Turn(
    id: nat,
    usage: Option<Usage>,
    failure: Option<Failure>,
    step: Option<int>,
    localIndexes: map<int, nat>,
    nextIndex: nat,
    pending: seq<PendingBlock>)

  datatype Collector = Collector(
    active: Option<Turn>,
    mark: Option<Outcome>,
    attempts: map<string, int>,
    nextTurn: nat)               // the next turn id the mint hands out

  const INITIAL := Collector(None, None, map[], 0)

  function FreshTurn(id: nat): Turn {
    Turn(id, None, None, None, map[], 0, [])
  }

  // ------------------------------------------------------------ pure pieces

  function ToBlockType(blockType: string): Option<BlockType> {
    if blockType == "text" then Some(TextBlock)
    else if blockType == "reasoning" then Some(ThinkBlock)
    else if blockType == "tool-call" then Some(ToolCallBlock)
    else None
  }

  /** The display projection of a chunk, without its index; None for no frame. */
  function Body(chunk: Chunk): Option<BlockBody> {
    match chunk
    case BlockStart(_, blockType, id, name) =>
      (match ToBlockType(blockType)
       case None => None
       case Some(t) =>
         if t == ToolCallBlock then Some(StartBody(t, Some(id.GetOr("")), Some(name.GetOr(""))))
         else Some(StartBody(t, None, None)))
    case TextDelta(_, text) => Some(DeltaBody(text.GetOr("")))
    case ReasoningDelta(_, text) => Some(DeltaBody(text.GetOr("")))
    case ToolCallDelta(_, argumentsDelta) => Some(DeltaBody(argumentsDelta.GetOr("")))
    case BlockEnd(_, Some(view)) =>
      (match ToContentBlock(view)
       case None => None
       case Some(block) => Some(EndBody(block)))
    case BlockEnd(_, None) => None
    case UsageChunk(_) => None
    case OtherChunk => None
  }

  /** The provider index of a chunk; an absent one reads as 0. */
  function LocalIndex(chunk: Chunk): int {
    match chunk
    case BlockStart(index, _, _, _) => index.GetOr(0)
    case TextDelta(index, _) => index.GetOr(0)
    case ReasoningDelta(index, _) => index.GetOr(0)
    case ToolCallDelta(index, _) => index.GetOr(0)
    case BlockEnd(index, _) => index.GetOr(0)
    case UsageChunk(_) => 0
    case OtherChunk => 0
  }

  function ToPrefixOp(chunk: Chunk): Option<PrefixOp> {
    match chunk
    case TextDelta(index, text) => Some(Delta(index.GetOr(0), "text", text.GetOr("")))
    case ReasoningDelta(index, text) => Some(Delta(index.GetOr(0), "reasoning", text.GetOr("")))
    case BlockEnd(index, Some(view)) => Some(Final(index.GetOr(0), view))
    case _ => None
  }

  /** String concatenation onto a possibly absent text: an absent one prints as "undefined". */
  function Extended(view: BlockView, text: string): BlockView {
    view.(text := Some(view.text.GetOr("undefined") + text))
  }

  /** The position of the pending entry for a provider index, or |pending|. */
  function FindPending(pending: seq<PendingBlock>, index: int): (k: nat)
    ensures k <= |pending|
    ensures k < |pending| ==> pending[k].index == index
    ensures forall i :: 0 <= i < k ==> pending[i].index != index
  {
    if pending == [] then 0
    else if pending[0].index == index then 0
    else 1 + FindPending(pending[1..], index)
  }

  /** The pending entries of the other provider indexes. */
  function Without(pending: seq<PendingBlock>, index: int): seq<PendingBlock> {
    if pending == [] then []
    else
      var rest := Without(pending[..|pending| - 1], index);
      if pending[|pending| - 1].index == index then rest else rest + [pending[|pending| - 1]]
  }

  function Touch(pending: seq<PendingBlock>, op: PrefixOp): seq<PendingBlock> {
    match op
    case Delta(index, kind, text) =>
      var k := FindPending(pending, index);
      if k < |pending| then pending[k := PendingBlock(index, Extended(pending[k].view, text))]
      else pending + [PendingBlock(index, Extended(BlockView(kind, Some(""), None, None, None), text))]
    case Final(index, view) => Without(pending, index) + [PendingBlock(index, view)]
  }

  function Views(pending: seq<PendingBlock>): seq<BlockView> {
    seq(|pending|, k requires 0 <= k < |pending| => pending[k].view)
  }

  function JoinText(content: seq<BlockView>): string {
    if content == [] then ""
    else
      var view := content[|content| - 1];
      JoinText(content[..|content| - 1]) + (if view.kind == "text" then view.text.GetOr("") else "")
  }

  function ToFailure(view: FailureView): Failure {
    Failure(view.code.GetOr("UNKNOWN"), view.message.GetOr(""))
  }

  // ------------------------------------------------------------ item effects

  /** Whether a streamed prefix is appended to the history when this outcome settles the turn. */
  predicate RecordsPrefix(turn: Turn, outcome: Outcome) {
    turn.failure.Some? && outcome.Error? && turn.pending != []
  }

  function Settlement(s: Collector): Outcome
    requires s.active.Some?
  {
    if s.mark.Some? then s.mark.value
    else if s.active.value.failure.None? then Completed
    else Error(s.active.value.failure)
  }

  /** The turn-global index of a provider index: the assigned one, else the next. */
  function IndexOf(turn: Turn, local: int): nat {
    if local in turn.localIndexes then turn.localIndexes[local] else turn.nextIndex
  }

  /** What must hold for the collector to do `item` in state `s`. */
  predicate May(s: Collector, item: Item) {
    match item
    case Opened(turn) => s.active.None? && turn == s.nextTurn
    case StepEntered(_, step, reset) => s.active.Some? && (reset <==> s.active.value.step != Some(step))
    case AttemptClosed(_) => true
    case PrefixTouched(_) => s.active.Some?
    case UsageSeen(_) => s.active.Some?
    case BlockShown(turn, attempt, local, index, step, _) =>
      && s.active.Some? && turn == s.active.value.id && index == IndexOf(s.active.value, local)
      && attempt in s.attempts && step == s.attempts[attempt]
    case ToolShown(turn, _, _, _) => s.active.Some? && turn == s.active.value.id
    case FailureSeen(_) => true
    case Marked(_) => true
    case Recorded(content, interrupted, fromPrefix) =>
      && s.active.Some?
      && (fromPrefix ==> interrupted && RecordsPrefix(s.active.value, Settlement(s)) &&
                         content == Views(s.active.value.pending))
    case ResultSettled(_, _, _) => true
    case InputViewed(_, _, _) => true
    case Closed(turn, outcome, usage) =>
      && s.active.Some? && turn == s.active.value.id && outcome == Settlement(s)
      && !RecordsPrefix(s.active.value, outcome)
      && usage == (if outcome == Completed then s.active.value.usage else None)
  }

  function After(s: Collector, item: Item): Collector
    requires May(s, item)
  {
    match item
    case Opened(turn) => s.(active := Some(FreshTurn(turn)), nextTurn := s.nextTurn + 1)
    case StepEntered(attempt, step, reset) =>
      var turn := s.active.value;
      s.(attempts := s.attempts[attempt := step],
         active := Some(if reset then turn.(step := Some(step), localIndexes := map[], pending := []) else turn))
    case AttemptClosed(attempt) => s.(attempts := s.attempts - {attempt})
    case PrefixTouched(op) => s.(active := Some(s.active.value.(pending := Touch(s.active.value.pending, op))))
    case UsageSeen(usage) => s.(active := Some(s.active.value.(usage := usage)))
    case BlockShown(_, _, local, index, _, _) =>
      var turn := s.active.value;
      if local in turn.localIndexes then s
      else s.(active := Some(turn.(localIndexes := turn.localIndexes[local := index], nextIndex := turn.nextIndex + 1)))
    case ToolShown(_, _, _, _) => s
    case FailureSeen(failure) =>
      if s.active.Some? && s.active.value.failure.None? then s.(active := Some(s.active.value.(failure := Some(failure))))
      else s
    case Marked(outcome) => s.(mark := Some(outcome))
    case Recorded(_, _, _) => s.(active := Some(s.active.value.(pending := [])))
    case ResultSettled(_, _, _) => s
    case InputViewed(_, _, _) => s
    case Closed(_, _, _) => s.(active := None, mark := None)
  }

  // -------------------------------------------------------------------- step

  /** The items that latch a turn, and the state they lead to. */
  function Latch(s: Collector): (items: seq<Item>) {
    if s.active.Some? then [] else [Opened(s.nextTurn)]
  }

  function Latched(s: Collector): (r: Collector)
    ensures r.active.Some?
  {
    if s.active.Some? then s else s.(active := Some(FreshTurn(s.nextTurn)), nextTurn := s.nextTurn + 1)
  }

  /** The items of one event. */
  function Step(s: Collector, event: Event): seq<Item> {
    match event
    case UserMessage(sourceKind, sourceRole, content) => [InputViewed(sourceKind, sourceRole, content)]
    case AssistantMessage(content, usage, interrupted) =>
      if usage.Some? then Latch(s) + [UsageSeen(usage)] + [Recorded(content, interrupted, false)]
      else Latch(s) + [Recorded(content, interrupted, false)]
    case ToolResult(toolCallId, isError, content) =>
      var toolId := toolCallId.GetOr("");
      var status := if isError then Failed else Succeeded;
      var result := JoinText(content);
      [ResultSettled(toolId, status, result)] + Latch(s) + [ToolShown(Latched(s).active.value.id, toolId, status, result)]
    case TurnEnd(errorReason, failure) =>
      if errorReason && failure.Some? then [FailureSeen(ToFailure(failure.value))] else []
    case OtherLog => []
    case AttemptStart(attempt, startStep) =>
      if startStep.None? then []
      else Latch(s) + [StepEntered(attempt, startStep.value, Latched(s).active.value.step != startStep)]
    case AttemptChunk(attempt, chunk) =>
      if attempt !in s.attempts || chunk.None? then [] else Latch(s) + ChunkItems(Latched(s), attempt, chunk.value)
    case AttemptEnd(attempt) => [AttemptClosed(attempt)]
    case Unattributed => []
    case Status(status) =>
      if status == "running" then Latch(s)
      else if status != "idle" || s.active.None? then []
      else Settle(s)
    case AgentError(failure) => if failure.Some? then [FailureSeen(ToFailure(failure.value))] else []
    case Mark(outcome) => [Marked(outcome)]
  }

  function ChunkItems(s: Collector, attempt: string, chunk: Chunk): seq<Item>
    requires s.active.Some? && attempt in s.attempts
  {
    if chunk.UsageChunk? then [UsageSeen(chunk.usage)]
    else
      var op := ToPrefixOp(chunk);
      if op.None? then ShownItems(s, attempt, chunk)
      else if Body(chunk).None? then [PrefixTouched(op.value)]
      else [PrefixTouched(op.value)] + ShownItems(s, attempt, chunk)
  }

  /** The frame of a chunk that has one. */
  function ShownItems(s: Collector, attempt: string, chunk: Chunk): seq<Item>
    requires s.active.Some? && attempt in s.attempts
  {
    if Body(chunk).None? then [] else [ShownItem(s, attempt, chunk)]
  }

  function ShownItem(s: Collector, attempt: string, chunk: Chunk): Item
    requires s.active.Some? && attempt in s.attempts && Body(chunk).Some?
  {
    var turn, local := s.active.value, LocalIndex(chunk);
    BlockShown(turn.id, attempt, local, IndexOf(turn, local), s.attempts[attempt], Body(chunk).value)
  }

  function Settle(s: Collector): seq<Item>
    requires s.active.Some?
  {
    var turn := s.active.value;
    var outcome := Settlement(s);
    var closed := Closed(turn.id, outcome, if outcome == Completed then turn.usage else None);
    if RecordsPrefix(turn, outcome) then [Recorded(Views(turn.pending), true, true)] + [closed] else [closed]
  }

  // -------------------------------------------------------------------- runs

  /** The state after doing `items` in order from `s`, or None when one of them may not be done. */
  function Run(s: Collector, items: seq<Item>): (r: Option<Collector>) {
    if items == [] then Some(s)
    else
      match Run(s, items[..|items| - 1])
      case None => None
      case Some(t) => if May(t, items[|items| - 1]) then Some(After(t, items[|items| - 1])) else None
  }

  predicate MayAll(s: Collector, items: seq<Item>) {
    Run(s, items).Some?
  }

  function Replay(s: Collector, items: seq<Item>): Collector
    requires MayAll(s, items)
  {
    Run(s, items).value
  }

  lemma {:induction false} RunAppend(s: Collector, a: seq<Item>, b: seq<Item>)
    requires MayAll(s, a)
    ensures Run(s, a + b) == Run(Replay(s, a), b)
    decreases |b|
  {
    if b == [] {
      assert a + b == a;
    } else {
      RunAppend(s, a, b[..|b| - 1]);
      assert (a + b)[..|a + b| - 1] == a + b[..|b| - 1];
    }
  }

  lemma RunSnoc(s: Collector, items: seq<Item>, item: Item)
    requires MayAll(s, items) && May(Replay(s, items), item)
    ensures Run(s, items + [item]) == Some(After(Replay(s, items), item))
  {
    assert (items + [item])[..|items|] == items;
  }

  lemma RunOne(s: Collector, item: Item)
    requires May(s, item)
    ensures Run(s, [item]) == Some(After(s, item))
  {
    assert [item][..0] == [];
  }

  lemma RunLatch(s: Collector)
    ensures Run(s, Latch(s)) == Some(Latched(s))
  {
    if s.active.None? {
      RunOne(s, Opened(s.nextTurn));
    }
  }

  /** Every event only does what may be done: the items of `Step` are a legal continuation. */
  lemma MayStep(s: Collector, event: Event)
    ensures MayAll(s, Step(s, event))
  {
    match event
    case AssistantMessage(content, usage, interrupted) => MayAssistant(s, content, usage, interrupted);
    case ToolResult(toolCallId, isError, content) => MayToolResult(s, toolCallId, isError, content);
    case AttemptStart(attempt, startStep) =>
      if startStep.Some? {
        RunLatch(s);
        RunSnoc(s, Latch(s), StepEntered(attempt, startStep.value, Latched(s).active.value.step != startStep));
      }
    case AttemptChunk(attempt, chunk) =>
      if attempt in s.attempts && chunk.Some? {
        RunLatch(s);
        MayChunk(Latched(s), attempt, chunk.value);
        RunAppend(s, Latch(s), ChunkItems(Latched(s), attempt, chunk.value));
      }
    case Status(status) =>
      RunLatch(s);
      if s.active.Some? {
        MaySettle(s);
      }
    case _ => MaySimple(s, event);
  }

  lemma MaySimple(s: Collector, event: Event)
    requires event.UserMessage? || event.TurnEnd? || event.OtherLog? || event.AttemptEnd? || event.Unattributed?
             || event.AgentError? || event.Mark?
    ensures MayAll(s, Step(s, event))
  {
    var items := Step(s, event);
    if items != [] {
      RunSnoc(s, [], items[0]);
      assert [] + [items[0]] == items;
    }
  }

  lemma MayAssistant(s: Collector, content: seq<BlockView>, usage: Option<Usage>, interrupted: bool)
    ensures MayAll(s, Step(s, AssistantMessage(content, usage, interrupted)))
  {
    RunLatch(s);
    var last := Recorded(content, interrupted, false);
    if usage.Some? {
      RunSnoc(s, Latch(s), UsageSeen(usage));
      RunSnoc(s, Latch(s) + [UsageSeen(usage)], last);
    } else {
      RunSnoc(s, Latch(s), last);
    }
  }

  lemma {:induction false} ToolRuns(s: Collector, settled: Item, shown: Item)
    requires settled.ResultSettled? && shown.ToolShown? && shown.turn == Latched(s).active.value.id
    ensures Run(s, [settled] + Latch(s) + [shown]) == Some(Latched(s))
  {
    RunOne(s, settled);
    RunLatch(s);
    RunAppend(s, [settled], Latch(s));
    RunSnoc(s, [settled] + Latch(s), shown);
  }

  lemma {:induction false} MayToolResult(s: Collector, toolCallId: Option<string>, isError: bool,
                                         content: seq<BlockView>)
    ensures MayAll(s, Step(s, ToolResult(toolCallId, isError, content)))
  {
    var toolId, status, result := toolCallId.GetOr(""), if isError then Failed else Succeeded, JoinText(content);
    ToolRuns(s, ResultSettled(toolId, status, result),
             ToolShown(Latched(s).active.value.id, toolId, status, result));
  }

  lemma MayChunk(s: Collector, attempt: string, chunk: Chunk)
    requires s.active.Some? && attempt in s.attempts
    ensures MayAll(s, ChunkItems(s, attempt, chunk))
  {
    var op := ToPrefixOp(chunk);
    if chunk.UsageChunk? {
      RunOne(s, UsageSeen(chunk.usage));
    } else {
      if op.Some? {
        RunOne(s, PrefixTouched(op.value));
      }
      if Body(chunk).Some? {
        RunOne(s, ShownItem(s, attempt, chunk));
        if op.Some? {
          RunSnoc(s, [PrefixTouched(op.value)], ShownItem(s, attempt, chunk));
        }
      }
    }
  }

  lemma MaySettle(s: Collector)
    requires s.active.Some?
    ensures MayAll(s, Settle(s))
  {
    var turn, outcome := s.active.value, Settlement(s);
    var closed := Closed(turn.id, outcome, if outcome == Completed then turn.usage else None);
    if RecordsPrefix(turn, outcome) {
      RunOne(s, Recorded(Views(turn.pending), true, true));
      RunSnoc(s, [Recorded(Views(turn.pending), true, true)], closed);
    } else {
      RunOne(s, closed);
    }
  }

  /** The trace of a whole event sequence. */
  function Trace(events: seq<Event>): (items: seq<Item>)
    ensures MayAll(INITIAL, items)
  {
    if events == [] then []
    else
      var before := Trace(events[..|events| - 1]);
      var s := Replay(INITIAL, before);
      MayStep(s, events[|events| - 1]);
      RunAppend(INITIAL, before, Step(s, events[|events| - 1]));
      before + Step(s, events[|events| - 1])
  }
}
