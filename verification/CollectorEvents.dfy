/**
 * What a collector does, told from the events alone: which event opens a turn,
 * which ends it and how, what every event shows and what it calls on the history.
 * Nothing here looks at the collector's state.
 */
module CollectorEvents {
  import opened Wrappers
  import opened HistoryModel
  import opened CollectorModel
  import opened Collectors
  import CollectorPrefix
  import HistoryContents

  // ------------------------------------------------------------- the events so far

  /** The step an attempt declared when it started last, unless it has ended since. */
  function AttemptStep(events: seq<Event>, attempt: string): Option<int> {
    if events == [] then None
    else
      var before := AttemptStep(events[..|events| - 1], attempt);
      match events[|events| - 1]
      case AttemptStart(a, Some(step)) => if a == attempt then Some(step) else before
      case AttemptEnd(a) => if a == attempt then None else before
      case _ => before
  }

  /** The event opens a turn if none is in flight. */
  predicate Latches(before: seq<Event>, event: Event) {
    match event
    case AssistantMessage(_, _, _) => true
    case ToolResult(_, _, _) => true
    case AttemptStart(_, step) => step.Some?
    case AttemptChunk(attempt, chunk) => chunk.Some? && AttemptStep(before, attempt).Some?
    case Status(status) => status == "running"
    case _ => false
  }

  /** The event that opened the turn in flight: the first that latches after the last idle; or -1. */
  function TurnAt(events: seq<Event>): (t: int)
    ensures -1 <= t < |events|
  {
    if events == [] then -1
    else
      var n := |events| - 1;
      var t := TurnAt(events[..n]);
      if t >= 0 then (if events[n] == Status("idle") then -1 else t)
      else if Latches(events[..n], events[n]) then n else -1
  }

  /** How many turns were opened. */
  function Turns(events: seq<Event>): (n: nat)
    ensures TurnAt(events) >= 0 ==> n > 0
  {
    if events == [] then 0
    else
      var n := |events| - 1;
      Turns(events[..n]) + (if TurnAt(events[..n]) < 0 && Latches(events[..n], events[n]) then 1 else 0)
  }

  /** The failure an event carries: an agent error, or a turn end for that reason. */
  function FailureIn(event: Event): Option<FailureView> {
    match event
    case AgentError(failure) => failure
    case TurnEnd(errorReason, failure) => if errorReason then failure else None
    case _ => None
  }

  /** The first failure since the event that opened the turn in flight. */
  function FirstFailure(events: seq<Event>): Option<FailureView> {
    if events == [] then None
    else
      var n := |events| - 1;
      if TurnAt(events) < 0 || TurnAt(events[..n]) < 0 then None
      else if FirstFailure(events[..n]).Some? then FirstFailure(events[..n])
      else FailureIn(events[n])
  }

  /** The latest mark no turn end has consumed. */
  function StandingMark(events: seq<Event>): Option<Outcome> {
    if events == [] then None
    else
      var n := |events| - 1;
      match events[n]
      case Mark(outcome) => Some(outcome)
      case Status(status) => if status == "idle" && TurnAt(events[..n]) >= 0 then None else StandingMark(events[..n])
      case _ => StandingMark(events[..n])
  }

  /** How an idle event ends the turn in flight. */
  function EndOutcome(events: seq<Event>): Outcome {
    match StandingMark(events)
    case Some(outcome) => outcome
    case None =>
      match FirstFailure(events)
      case Some(f) => Error(Some(Failure(if f.code.Some? then f.code.value else "UNKNOWN",
                                         if f.message.Some? then f.message.value else "")))
      case None => Completed
  }

  /** The usage an event reports, if it reports one. */
  function UsageIn(before: seq<Event>, event: Event): Option<Option<Usage>> {
    match event
    case AssistantMessage(_, usage, _) => if usage.Some? then Some(usage) else None
    case AttemptChunk(attempt, Some(UsageChunk(usage))) =>
      if AttemptStep(before, attempt).Some? then Some(usage) else None
    case _ => None
  }

  /** The usage the turn in flight reported last. */
  function LastUsage(events: seq<Event>): Option<Usage> {
    if events == [] || TurnAt(events) < 0 then None
    else
      var n := |events| - 1;
      match UsageIn(events[..n], events[n])
      case Some(usage) => usage
      case None => if TurnAt(events[..n]) < 0 then None else LastUsage(events[..n])
  }

  /** The step the turn in flight entered last. */
  function StepNow(events: seq<Event>): Option<int> {
    if events == [] || TurnAt(events) < 0 then None
    else
      var n := |events| - 1;
      var before := if TurnAt(events[..n]) < 0 then None else StepNow(events[..n]);
      match events[n]
      case AttemptStart(_, Some(step)) => Some(step)
      case _ => before
  }

  /** What a chunk of a started attempt adds to the streamed prefix. */
  function Streams(before: seq<Event>, event: Event): seq<PrefixOp> {
    match event
    case AttemptChunk(attempt, Some(chunk)) =>
      if AttemptStep(before, attempt).None? then []
      else
        (match chunk
         case TextDelta(index, text) => [Delta(OrZero(index), "text", OrEmpty(text))]
         case ReasoningDelta(index, text) => [Delta(OrZero(index), "reasoning", OrEmpty(text))]
         case BlockEnd(index, Some(view)) => [Final(OrZero(index), view)]
         case _ => [])
    case _ => []
  }

  function OrZero(index: Option<int>): int {
    if index.Some? then index.value else 0
  }

  function OrEmpty(text: Option<string>): string {
    if text.Some? then text.value else ""
  }

  /** The chunks of the turn in flight since its last assistant message and its last change of step. */
  function Streamed(events: seq<Event>): seq<PrefixOp> {
    if events == [] || TurnAt(events) < 0 then []
    else
      var n := |events| - 1;
      var before := if TurnAt(events[..n]) < 0 then [] else Streamed(events[..n]);
      match events[n]
      case AssistantMessage(_, _, _) => []
      case AttemptStart(_, Some(step)) => if StepNow(events[..n]) == Some(step) then before else []
      case _ => before + Streams(events[..n], events[n])
  }

  // --------------------------------------------------------------- what events do

  /** The texts of a content, joined. */
  function JoinedText(content: seq<BlockView>): string {
    if content == [] then ""
    else
      var view := content[|content| - 1];
      JoinedText(content[..|content| - 1]) + (if view.kind == "text" then OrEmpty(view.text) else "")
  }

  /** A frame that opens a turn goes out first, unless one is in flight. */
  function TurnStarted(events: seq<Event>, o: Output, role: string): Output {
    if TurnAt(events) >= 0 then o else o.(log := o.log + [LiveFrame(role, Opened(Turns(events)))])
  }

  /** The turn in flight, or the one the event opens. */
  function TurnId(events: seq<Event>): nat {
    if TurnAt(events) >= 0 then Turns(events) - 1 else Turns(events)
  }

  /** One call on the history, with the frames it fans out. */
  function HistoryCalled(o: Output, op: Op): Output
    requires o.projection.InStore()
  {
    var q := Do(o.projection, op);
    Output(q, o.log + AsHistory(q.frames[|o.projection.frames|..]))
  }

  function Framed(o: Output, role: string, item: Item): Output {
    o.(log := o.log + [LiveFrame(role, item)])
  }

  /** What a chunk shows, without its index. */
  function ShownBody(chunk: Chunk): Option<BlockBody> {
    match chunk
    case BlockStart(_, kind, id, name) =>
      if kind == "text" then Some(StartBody(TextBlock, None, None))
      else if kind == "reasoning" then Some(StartBody(ThinkBlock, None, None))
      else if kind == "tool-call" then Some(StartBody(ToolCallBlock, Some(OrEmpty(id)), Some(OrEmpty(name))))
      else None
    case TextDelta(_, text) => Some(DeltaBody(OrEmpty(text)))
    case ReasoningDelta(_, text) => Some(DeltaBody(OrEmpty(text)))
    case ToolCallDelta(_, arguments) => Some(DeltaBody(OrEmpty(arguments)))
    case BlockEnd(_, Some(view)) =>
      if HistoryContents.ShownAs(view) == [] then None else Some(EndBody(HistoryContents.ShownAs(view)[0]))
    case _ => None
  }

  function IndexIn(chunk: Chunk): int {
    match chunk
    case BlockStart(index, _, _, _) => OrZero(index)
    case TextDelta(index, _) => OrZero(index)
    case ReasoningDelta(index, _) => OrZero(index)
    case ToolCallDelta(index, _) => OrZero(index)
    case BlockEnd(index, _) => OrZero(index)
    case _ => 0
  }

  /** The blocks a settlement records: the streamed prefix, when a failed turn ends in ERROR. */
  predicate Salvages(events: seq<Event>) {
    FirstFailure(events).Some? && EndOutcome(events).Error? && Streamed(events) != []
  }

  function Ended(events: seq<Event>, o: Output, role: string, recordView: bool): Output
    requires o.projection.InStore()
  {
    var blocks := Views(CollectorPrefix.Fold(Streamed(events)));
    var recorded := if Salvages(events) then HistoryCalled(o, AppendOutput(role, blocks, true, recordView)) else o;
    Framed(recorded, role, Closed(TurnId(events), EndOutcome(events),
                                  if EndOutcome(events) == Completed then LastUsage(events) else None))
  }

  /** What `event` does after `events`: `q` is what was written on top of `o`. */
  ghost predicate Effect(events: seq<Event>, event: Event, o: Output, q: Output, role: string, recordView: bool)
    requires o.projection.InStore()
  {
    match event
    case UserMessage(kind, source, content) =>
      q == HistoryCalled(o, AppendViewUser(role, kind, source, content, recordView))
    case AssistantMessage(content, _, interrupted) =>
      q == HistoryCalled(TurnStarted(events, o, role), AppendOutput(role, content, interrupted, recordView))
    case ToolResult(toolCallId, isError, content) =>
      var status, text := if isError then Failed else Succeeded, JoinedText(content);
      var settled := HistoryCalled(o, SettleResult(role, OrEmpty(toolCallId), status, text));
      q == Framed(TurnStarted(events, settled, role), role, ToolShown(TurnId(events), OrEmpty(toolCallId), status, text))
    case AttemptStart(_, step) => q == if step.Some? then TurnStarted(events, o, role) else o
    case AttemptChunk(attempt, Some(chunk)) =>
      (match AttemptStep(events, attempt)
       case None => q == o
       case Some(step) =>
         (match ShownBody(chunk)
          case None => q == TurnStarted(events, o, role)
          case Some(body) =>
            exists index: nat :: q == Framed(TurnStarted(events, o, role), role,
                                             BlockShown(TurnId(events), attempt, IndexIn(chunk), index, step, body))))
    case Status(status) =>
      q == if status == "running" then TurnStarted(events, o, role)
           else if status == "idle" && TurnAt(events) >= 0 then Ended(events, o, role, recordView)
           else o
    case _ => q == o
  }

  // ------------------------------------------------------------ the state recalled

  function StateAfter(events: seq<Event>): Collector {
    Replay(INITIAL, Trace(events))
  }

  /** The state an event leads to. */
  function AfterEvent(s: Collector, event: Event): Collector {
    match event
    case AssistantMessage(_, usage, _) =>
      var turn := Latched(s).active.value;
      Latched(s).(active := Some(turn.(usage := if usage.Some? then usage else turn.usage, pending := [])))
    case ToolResult(_, _, _) => Latched(s)
    case AttemptStart(attempt, Some(step)) =>
      Latched(s).(active := Some(AfterStep(Latched(s).active.value, step)), attempts := s.attempts[attempt := step])
    case AttemptChunk(attempt, Some(chunk)) =>
      if attempt !in s.attempts then s else Latched(s).(active := Some(AfterChunk(Latched(s).active.value, chunk)))
    case AttemptEnd(attempt) => s.(attempts := s.attempts - {attempt})
    case Status(status) =>
      if status == "running" then Latched(s)
      else if status == "idle" && s.active.Some? then s.(active := None, mark := None)
      else s
    case Mark(outcome) => s.(mark := Some(outcome))
    case _ =>
      match FailureIn(event)
      case Some(f) =>
        if s.active.Some? && s.active.value.failure.None?
        then s.(active := Some(s.active.value.(failure := Some(ToFailure(f))))) else s
      case None => s
  }

  function Nowhere(): Output {
    Output(EMPTY_PROJECTION, [])
  }

  lemma {:induction false} EventRuns(s: Collector, event: Event)
    ensures Run(s, Step(s, event)) == Some(AfterEvent(s, event))
  {
    match event
    case UserMessage(kind, source, content) => RunOne(s, InputViewed(kind, source, content));
    case AssistantMessage(content, usage, interrupted) => AssistantRuns(s, content, usage, interrupted);
    case ToolResult(toolCallId, isError, content) => ResultRuns(s, toolCallId, isError, content);
    case AttemptStart(attempt, Some(step)) => StartDone(s, Nowhere(), "", false, attempt, step);
    case AttemptChunk(attempt, Some(chunk)) =>
      if attempt in s.attempts {
        ChunkDone(s, Nowhere(), "", false, attempt, chunk);
      }
    case AttemptEnd(attempt) => RunOne(s, AttemptClosed(attempt));
    case Status(status) => StatusRuns(s, status);
    case Mark(outcome) => RunOne(s, Marked(outcome));
    case _ => FailureRuns(s, event);
  }

  lemma {:induction false} ResultRuns(s: Collector, toolCallId: Option<string>, isError: bool, content: seq<BlockView>)
    ensures Run(s, Step(s, ToolResult(toolCallId, isError, content))) == Some(Latched(s))
  {
    var toolId, status, result := toolCallId.GetOr(""), if isError then Failed else Succeeded, JoinText(content);
    ToolRuns(s, ResultSettled(toolId, status, result), ToolShown(Latched(s).active.value.id, toolId, status, result));
  }

  lemma {:induction false} StatusRuns(s: Collector, status: string)
    ensures Run(s, Step(s, Status(status))) == Some(AfterEvent(s, Status(status)))
  {
    if status == "running" {
      RunLatch(s);
    } else if status == "idle" && s.active.Some? {
      SettleDone(s, Nowhere(), "", false);
    }
  }

  lemma {:induction false} FailureRuns(s: Collector, event: Event)
    requires event.TurnEnd? || event.AgentError? || event.OtherLog? || event.Unattributed?
             || (event.AttemptStart? && event.startStep.None?) || (event.AttemptChunk? && event.chunk.None?)
    ensures Run(s, Step(s, event)) == Some(AfterEvent(s, event))
  {
    if FailureIn(event).Some? {
      RunOne(s, FailureSeen(ToFailure(FailureIn(event).value)));
    }
  }

  lemma {:induction false} StateStep(events: seq<Event>)
    requires events != []
    ensures StateAfter(events) == AfterEvent(StateAfter(events[..|events| - 1]), events[|events| - 1])
  {
    var before, event := Trace(events[..|events| - 1]), events[|events| - 1];
    var s := Replay(INITIAL, before);
    EventRuns(s, event);
    RunAppend(INITIAL, before, Step(s, event));
  }

  /** The bound attempts are those that declared a step and have not ended. */
  ghost predicate AttemptsRecalled(events: seq<Event>, s: Collector) {
    forall a :: if AttemptStep(events, a).Some? then a in s.attempts && s.attempts[a] == AttemptStep(events, a).value
                else a !in s.attempts
  }

  /** A turn is in flight when an event opened one, under the next number. */
  ghost predicate TurnRecalled(events: seq<Event>, s: Collector) {
    && (s.active.Some? <==> TurnAt(events) >= 0)
    && s.nextTurn == Turns(events)
    && (s.active.Some? ==> Turns(events) > 0 && s.active.value.id == Turns(events) - 1)
  }

  ghost predicate EndRecalled(events: seq<Event>, s: Collector) {
    && s.mark == StandingMark(events)
    && (s.active.Some? ==>
          && s.active.value.failure == FailureOf(events) && s.active.value.usage == LastUsage(events))
  }

  ghost predicate PrefixRecalled(events: seq<Event>, s: Collector) {
    s.active.Some? ==>
      && s.active.value.step == StepNow(events)
      && s.active.value.pending == CollectorPrefix.Fold(Streamed(events))
  }

  ghost predicate Recalled(events: seq<Event>, s: Collector) {
    AttemptsRecalled(events, s) && TurnRecalled(events, s) && EndRecalled(events, s) && PrefixRecalled(events, s)
  }

  lemma {:induction false} AttemptsStep(events: seq<Event>, s: Collector)
    requires events != [] && AttemptsRecalled(events[..|events| - 1], s)
    ensures AttemptsRecalled(events, AfterEvent(s, events[|events| - 1]))
  {
  }

  lemma {:induction false} TurnStep(events: seq<Event>, s: Collector)
    requires events != [] && AttemptsRecalled(events[..|events| - 1], s) && TurnRecalled(events[..|events| - 1], s)
    ensures TurnRecalled(events, AfterEvent(s, events[|events| - 1]))
  {
    var init, event := events[..|events| - 1], events[|events| - 1];
    if event.AttemptChunk? && event.chunk.Some? {
      assert event.attempt in s.attempts <==> AttemptStep(init, event.attempt).Some?;
    }
  }

  lemma {:induction false} EndStep(events: seq<Event>, s: Collector)
    requires events != [] && Recalled(events[..|events| - 1], s)
    ensures EndRecalled(events, AfterEvent(s, events[|events| - 1]))
  {
    var init, event := events[..|events| - 1], events[|events| - 1];
    if event.AttemptChunk? {
      assert event.attempt in s.attempts <==> AttemptStep(init, event.attempt).Some?;
    }
    TurnStep(events, s);
    MarkStep(events, init, event, s);
    FailureStep(events, init, event, s);
    UsageStep(events, init, event, s);
  }

  lemma {:induction false} MarkStep(events: seq<Event>, init: seq<Event>, event: Event, s: Collector)
    requires events != [] && init == events[..|events| - 1] && event == events[|events| - 1]
    requires TurnRecalled(init, s) && s.mark == StandingMark(init)
    ensures AfterEvent(s, event).mark == StandingMark(events)
  {
  }

  function FailureOf(events: seq<Event>): Option<Failure> {
    match FirstFailure(events)
    case Some(f) => Some(ToFailure(f))
    case None => None
  }

  lemma {:induction false} FailureStep(events: seq<Event>, init: seq<Event>, event: Event, s: Collector)
    requires events != [] && init == events[..|events| - 1] && event == events[|events| - 1]
    requires TurnRecalled(init, s) && TurnRecalled(events, AfterEvent(s, event))
    requires s.active.Some? ==> s.active.value.failure == FailureOf(init)
    ensures var t := AfterEvent(s, event); t.active.Some? ==> t.active.value.failure == FailureOf(events)
  {
  }

  lemma {:induction false} UsageStep(events: seq<Event>, init: seq<Event>, event: Event, s: Collector)
    requires events != [] && init == events[..|events| - 1] && event == events[|events| - 1]
    requires TurnRecalled(init, s) && TurnRecalled(events, AfterEvent(s, event))
    requires event.AttemptChunk? ==> (event.attempt in s.attempts <==> AttemptStep(init, event.attempt).Some?)
    requires s.active.Some? ==> s.active.value.usage == LastUsage(init)
    ensures var t := AfterEvent(s, event); t.active.Some? ==> t.active.value.usage == LastUsage(events)
  {
  }

  lemma {:induction false} FoldSnoc(ops: seq<PrefixOp>, op: PrefixOp)
    ensures CollectorPrefix.Fold(ops + [op]) == Touch(CollectorPrefix.Fold(ops), op)
  {
    assert (ops + [op])[..|ops|] == ops;
  }

  lemma {:induction false} PrefixStep(events: seq<Event>, s: Collector)
    requires events != [] && Recalled(events[..|events| - 1], s)
    ensures PrefixRecalled(events, AfterEvent(s, events[|events| - 1]))
  {
    var init, event := events[..|events| - 1], events[|events| - 1];
    if event.AttemptChunk? && event.chunk.Some? {
      ChunkRecalled(events, init, event, s);
    } else if event.AttemptStart? && event.startStep.Some? {
      StartRecalled(events, init, event, s);
    } else {
      OtherRecalled(events, init, event, s);
    }
  }

  lemma {:induction false} StartRecalled(events: seq<Event>, init: seq<Event>, event: Event, s: Collector)
    requires events != [] && init == events[..|events| - 1] && event == events[|events| - 1]
    requires event.AttemptStart? && event.startStep.Some? && Recalled(init, s)
    ensures PrefixRecalled(events, AfterEvent(s, event))
  {
    TurnStep(events, s);
    assert StepNow(events) == event.startStep;
    assert Streamed(events) == if TurnAt(init) >= 0 && StepNow(init) == event.startStep then Streamed(init) else [];
  }

  lemma {:induction false} OtherRecalled(events: seq<Event>, init: seq<Event>, event: Event, s: Collector)
    requires events != [] && init == events[..|events| - 1] && event == events[|events| - 1]
    requires !(event.AttemptChunk? && event.chunk.Some?) && !(event.AttemptStart? && event.startStep.Some?)
    requires Recalled(init, s)
    ensures PrefixRecalled(events, AfterEvent(s, event))
  {
    TurnStep(events, s);
    var before := if TurnAt(init) < 0 then [] else Streamed(init);
    assert before + [] == before;
    if TurnAt(events) >= 0 {
      assert Streamed(events) == if event.AssistantMessage? then [] else before;
      assert StepNow(events) == if TurnAt(init) < 0 then None else StepNow(init);
    }
  }

  lemma {:induction false} ChunkRecalled(events: seq<Event>, init: seq<Event>, event: Event, s: Collector)
    requires events != [] && init == events[..|events| - 1] && event == events[|events| - 1]
    requires event.AttemptChunk? && event.chunk.Some? && Recalled(init, s)
    ensures PrefixRecalled(events, AfterEvent(s, event))
  {
    TurnStep(events, s);
    assert event.attempt in s.attempts <==> AttemptStep(init, event.attempt).Some?;
    var before := if TurnAt(init) < 0 then [] else Streamed(init);
    assert before + [] == before;
    if event.attempt in s.attempts {
      var chunk := event.chunk.value;
      var op := ToPrefixOp(chunk);
      assert Streamed(events) == before + Streams(init, event);
      assert Streams(init, event) == if op.Some? then [op.value] else [];
      assert Latched(s).active.value.pending == CollectorPrefix.Fold(before);
      if op.Some? {
        FoldSnoc(before, op.value);
      }
    }
  }

  /** What the collector holds is what the events so far say. */
  lemma {:induction false} StateRecalled(events: seq<Event>)
    ensures Recalled(events, StateAfter(events))
  {
    if events != [] {
      var init := events[..|events| - 1];
      StateRecalled(init);
      StateStep(events);
      AttemptsStep(events, StateAfter(init));
      TurnStep(events, StateAfter(init));
      EndStep(events, StateAfter(init));
      PrefixStep(events, StateAfter(init));
    }
  }

  // ------------------------------------------------------- the readings, outright

  predicate LatchesAt(events: seq<Event>, i: nat)
    requires i < |events|
  {
    Latches(events[..i], events[i])
  }

  /** An idle that finds a turn in flight: it ends that turn and consumes the mark. */
  predicate EndsAt(events: seq<Event>, i: nat)
    requires i < |events|
  {
    events[i] == Status("idle") && TurnAt(events[..i]) >= 0
  }

  /** The turn in flight was opened by the first event that latches after the last idle. */
  lemma {:induction false} TurnAtIs(events: seq<Event>)
    ensures var t := TurnAt(events);
            && (t >= 0 ==> LatchesAt(events, t) && TurnAt(events[..t]) < 0)
            && (forall i :: t < i < |events| && t >= 0 ==> events[i] != Status("idle"))
            && (t < 0 ==> forall i: nat :: i < |events| && LatchesAt(events, i) ==> IdleAfter(events, i))
  {
    if events != [] {
      var n := |events| - 1;
      var init, t := events[..n], TurnAt(events);
      TurnAtIs(init);
      if t >= 0 {
        assert t < n ==> init[..t] == events[..t];
      } else {
        forall i: nat | i < |events| && LatchesAt(events, i) ensures IdleAfter(events, i) {
          if i < n {
            assert init[..i] == events[..i];
            IdleStays(events, i);
          }
        }
      }
    }
  }

  predicate IdleAfter(events: seq<Event>, i: nat) {
    exists j :: i < j < |events| && events[j] == Status("idle")
  }

  lemma {:induction false} IdleStays(events: seq<Event>, i: nat)
    requires events != [] && (IdleAfter(events[..|events| - 1], i) || (i < |events| - 1 && events[|events| - 1] == Status("idle")))
    ensures IdleAfter(events, i)
  {
    var n := |events| - 1;
    if events[n] != Status("idle") {
      var j :| i < j < n && events[..n][j] == Status("idle");
      assert events[j] == Status("idle");
    }
  }

  /** The failure at `k` is the first since the turn in flight was opened. */
  predicate FailsFirst(events: seq<Event>, k: nat) {
    && 0 <= TurnAt(events) < k < |events| && FailureIn(events[k]).Some?
    && forall j :: TurnAt(events) < j < k ==> FailureIn(events[j]).None?
  }

  lemma {:induction false} FirstFailureIs(events: seq<Event>)
    ensures FirstFailure(events).Some? ==>
              exists k: nat :: FailsFirst(events, k) && FailureIn(events[k]) == FirstFailure(events)
    ensures FirstFailure(events).None? ==> NoFailure(events)
  {
    if events != [] && TurnAt(events) >= 0 {
      FirstFailureIs(events[..|events| - 1]);
      FirstFailureStep(events, events[..|events| - 1]);
    }
  }

  /** No event carried a failure since the turn in flight was opened. */
  predicate NoFailure(events: seq<Event>) {
    TurnAt(events) < 0 || forall j :: TurnAt(events) < j < |events| ==> FailureIn(events[j]).None?
  }

  lemma {:induction false} FirstFailureStep(events: seq<Event>, init: seq<Event>)
    requires events != [] && TurnAt(events) >= 0 && init == events[..|events| - 1]
    requires FirstFailure(init).Some? ==>
               exists k: nat :: FailsFirst(init, k) && FailureIn(init[k]) == FirstFailure(init)
    requires FirstFailure(init).None? ==> NoFailure(init)
    ensures FirstFailure(events).Some? ==>
              exists k: nat :: FailsFirst(events, k) && FailureIn(events[k]) == FirstFailure(events)
    ensures FirstFailure(events).None? ==> NoFailure(events)
  {
    var n := |init|;
    if TurnAt(init) >= 0 {
      assert TurnAt(init) == TurnAt(events);
      if FirstFailure(init).Some? {
        var k: nat :| FailsFirst(init, k) && FailureIn(init[k]) == FirstFailure(init);
        assert FailsFirst(events, k) && events[k] == init[k];
      } else if FailureIn(events[n]).Some? {
        assert FailsFirst(events, n);
      }
    }
  }

  /** The mark at `m` is the last, and no turn end came since. */
  predicate Stands(events: seq<Event>, m: nat) {
    && m < |events| && events[m].Mark?
    && forall j: nat :: m < j < |events| ==> !events[j].Mark? && !EndsAt(events, j)
  }

  lemma {:induction false} StandingMarkIs(events: seq<Event>)
    ensures StandingMark(events).Some? ==>
              exists m: nat :: Stands(events, m) && events[m] == Mark(StandingMark(events).value)
    ensures StandingMark(events).None? ==> forall m: nat :: !Stands(events, m)
  {
    if events != [] {
      var n := |events| - 1;
      var init := events[..n];
      StandingMarkIs(init);
      assert forall j: nat :: j < n ==> init[..j] == events[..j];
      if events[n].Mark? {
        assert Stands(events, n);
      } else if StandingMark(events).Some? {
        var m: nat :| Stands(init, m) && init[m] == Mark(StandingMark(init).value);
        forall j: nat | m < j < |events| ensures !events[j].Mark? && !EndsAt(events, j) {
          assert j < n ==> !init[j].Mark? && !EndsAt(init, j);
        }
        assert Stands(events, m);
      } else {
        forall m: nat ensures !Stands(events, m) {
          if Stands(events, m) {
            StandsBefore(events, m);
          }
        }
      }
    }
  }

  lemma {:induction false} StandsBefore(events: seq<Event>, m: nat)
    requires events != [] && Stands(events, m) && m < |events| - 1
    ensures Stands(events[..|events| - 1], m) && !EndsAt(events, |events| - 1)
  {
    var init := events[..|events| - 1];
    forall j: nat | m < j < |init| ensures !init[j].Mark? && !EndsAt(init, j) {
      assert init[..j] == events[..j];
      assert !EndsAt(events, j);
    }
  }

  // ------------------------------------------------------------------ the theorems

  lemma {:induction false} JoinedIsJoin(content: seq<BlockView>)
    ensures JoinedText(content) == JoinText(content)
  {
    if content != [] {
      JoinedIsJoin(content[..|content| - 1]);
    }
  }

  lemma LatchedIsStarted(events: seq<Event>, s: Collector, o: Output, role: string, recordView: bool)
    requires o.projection.InStore() && Recalled(events, s)
    ensures Latching(o, role, recordView, s) == TurnStarted(events, o, role)
    ensures Latched(s).active.value.id == TurnId(events)
  {
  }

  /**
   * Every event, after any others, does what its place in the event sequence calls
   * for: the frames, the turn they name and the calls on the history.
   */
  lemma {:induction false} EventDoes(events: seq<Event>, event: Event, o: Output, role: string, recordView: bool)
    requires o.projection.InStore()
    ensures Effect(events, event, o, Perform(o, role, recordView, Step(StateAfter(events), event)), role, recordView)
  {
    StateRecalled(events);
    if event.AssistantMessage? {
      AssistantDoes(events, StateAfter(events), event, o, role, recordView);
    } else if event.ToolResult? {
      ResultDoes(events, StateAfter(events), event, o, role, recordView);
    } else if event.AttemptStart? {
      StartDoes(events, StateAfter(events), event, o, role, recordView);
    } else if event.AttemptChunk? && event.chunk.Some? {
      ChunkDoes(events, StateAfter(events), event, o, role, recordView);
    } else if event.Status? {
      StatusDoes(events, StateAfter(events), event, o, role, recordView);
    } else {
      QuietDoes(events, StateAfter(events), event, o, role, recordView);
    }
  }

  /**
   * An idle that finds a turn in flight ends it, with the standing mark, otherwise
   * ERROR with the first failure since the turn was opened, otherwise COMPLETED
   * with the usage reported last.
   */
  lemma IdleEndsTheTurn(events: seq<Event>, o: Output, role: string, recordView: bool)
    requires o.projection.InStore() && TurnAt(events) >= 0
    ensures var q := Perform(o, role, recordView, Step(StateAfter(events), Status("idle")));
            |q.log| > 0 && q.log[|q.log| - 1] ==
            LiveFrame(role, Closed(TurnId(events), EndOutcome(events),
                                   if EndOutcome(events) == Completed then LastUsage(events) else None))
  {
    EventDoes(events, Status("idle"), o, role, recordView);
    EndedLast(events, o, role, recordView);
  }

  lemma EndedLast(events: seq<Event>, o: Output, role: string, recordView: bool)
    requires o.projection.InStore()
    ensures var q := Ended(events, o, role, recordView);
            |q.log| > 0 && q.log[|q.log| - 1] ==
            LiveFrame(role, Closed(TurnId(events), EndOutcome(events),
                                   if EndOutcome(events) == Completed then LastUsage(events) else None))
  {
  }

  /** And the turn is over. */
  lemma IdleIsTheEnd(events: seq<Event>)
    ensures TurnAt(events + [Status("idle")]) < 0
  {
    assert (events + [Status("idle")])[..|events|] == events;
  }

  lemma {:induction false} QuietDoes(events: seq<Event>, s: Collector, event: Event, o: Output, role: string,
                                      recordView: bool)
    requires o.projection.InStore()
    requires event.UserMessage? || event.AttemptEnd? || event.Mark? || event.TurnEnd? || event.AgentError?
             || event.OtherLog? || event.Unattributed? || (event.AttemptChunk? && event.chunk.None?)
    ensures Effect(events, event, o, Perform(o, role, recordView, Step(s, event)), role, recordView)
  {
    var items := Step(s, event);
    if items != [] {
      assert items == [items[0]];
      PerformOne(o, role, recordView, items[0]);
    }
  }

  lemma {:induction false} AssistantDoes(events: seq<Event>, s: Collector, event: Event, o: Output, role: string,
                                         recordView: bool)
    requires o.projection.InStore() && event.AssistantMessage? && Recalled(events, s)
    ensures Effect(events, event, o, Perform(o, role, recordView, Step(s, event)), role, recordView)
  {
    AssistantWrites(s, o, role, recordView, event.content, event.usage, event.interrupted);
    AssistantEffect(events, s, event, o, role, recordView);
  }

  lemma {:induction false} AssistantEffect(events: seq<Event>, s: Collector, event: Event, o: Output, role: string,
                                           recordView: bool)
    requires o.projection.InStore() && event.AssistantMessage? && Recalled(events, s)
    ensures Effect(events, event, o,
                   PerformItem(Latching(o, role, recordView, s), role, recordView,
                               Recorded(event.content, event.interrupted, false)), role, recordView)
  {
    LatchedIsStarted(events, s, o, role, recordView);
  }

  lemma {:induction false} StartDoes(events: seq<Event>, s: Collector, event: Event, o: Output, role: string,
                                      recordView: bool)
    requires o.projection.InStore() && event.AttemptStart? && Recalled(events, s)
    ensures Effect(events, event, o, Perform(o, role, recordView, Step(s, event)), role, recordView)
  {
    LatchedIsStarted(events, s, o, role, recordView);
    if event.startStep.Some? {
      StartDone(s, o, role, recordView, event.attempt, event.startStep.value);
    }
  }

  lemma {:induction false} ResultDoes(events: seq<Event>, s: Collector, event: Event, o: Output, role: string,
                                      recordView: bool)
    requires o.projection.InStore() && event.ToolResult? && Recalled(events, s)
    ensures Effect(events, event, o, Perform(o, role, recordView, Step(s, event)), role, recordView)
  {
    var toolId, status := event.toolCallId.GetOr(""), if event.isError then Failed else Succeeded;
    var result := JoinText(event.content);
    JoinedIsJoin(event.content);
    var settled := PerformItem(o, role, recordView, ResultSettled(toolId, status, result));
    LatchedIsStarted(events, s, settled, role, recordView);
    ToolWrites(s, o, role, recordView, ResultSettled(toolId, status, result),
               ToolShown(Latched(s).active.value.id, toolId, status, result));
  }

  lemma {:induction false} BodyIsShown(chunk: Chunk)
    ensures ShownBody(chunk) == Body(chunk) && IndexIn(chunk) == LocalIndex(chunk)
  {
  }

  lemma {:induction false} ChunkDoes(events: seq<Event>, s: Collector, event: Event, o: Output, role: string,
                                      recordView: bool)
    requires o.projection.InStore() && event.AttemptChunk? && event.chunk.Some? && Recalled(events, s)
    ensures Effect(events, event, o, Perform(o, role, recordView, Step(s, event)), role, recordView)
  {
    LatchedIsStarted(events, s, o, role, recordView);
    BodyIsShown(event.chunk.value);
    assert event.attempt in s.attempts <==> AttemptStep(events, event.attempt).Some?;
    if event.attempt in s.attempts {
      ChunkDone(s, o, role, recordView, event.attempt, event.chunk.value);
    }
  }

  lemma {:induction false} FoldOfNone(ops: seq<PrefixOp>)
    ensures CollectorPrefix.Fold(ops) == [] <==> ops == []
  {
  }

  lemma {:induction false} StatusDoes(events: seq<Event>, s: Collector, event: Event, o: Output, role: string,
                                      recordView: bool)
    requires o.projection.InStore() && event.Status? && Recalled(events, s)
    ensures Effect(events, event, o, Perform(o, role, recordView, Step(s, event)), role, recordView)
  {
    if event.status == "running" {
      LatchWrites(o, role, recordView, s);
      LatchedIsStarted(events, s, o, role, recordView);
    } else if event.status == "idle" && s.active.Some? {
      SettleDone(s, o, role, recordView);
      SettledIsEnded(events, s, o, role, recordView);
    }
  }

  lemma {:induction false} OutcomeAsRecalled(events: seq<Event>, s: Collector)
    requires EndRecalled(events, s) && s.active.Some?
    ensures Settlement(s) == EndOutcome(events)
    ensures s.active.value.failure.Some? <==> FirstFailure(events).Some?
  {
  }

  /** The outcome and the salvaged prefix are those the events call for. */
  lemma {:induction false} SettledAsRecalled(events: seq<Event>, s: Collector)
    requires Recalled(events, s) && s.active.Some?
    ensures Settlement(s) == EndOutcome(events) && s.active.value.id == TurnId(events)
    ensures RecordsPrefix(s.active.value, Settlement(s)) <==> Salvages(events)
    ensures s.active.value.pending == CollectorPrefix.Fold(Streamed(events)) && s.active.value.usage == LastUsage(events)
  {
    OutcomeAsRecalled(events, s);
    FoldOfNone(Streamed(events));
  }

  lemma {:induction false} SettledIsEnded(events: seq<Event>, s: Collector, o: Output, role: string, recordView: bool)
    requires o.projection.InStore() && Recalled(events, s) && s.active.Some?
    ensures Settling(o, role, recordView, s) == Ended(events, o, role, recordView)
  {
    SettledAsRecalled(events, s);
  }
}
