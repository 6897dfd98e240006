/**
 * The active streams of one materialized team, step by step.
 *
 * A step is the code between two awaits of `session.ts`: a send, a client
 * detach, a cancel, one broadcast frame, the quiescence watcher waking up, the
 * start and the end of a teardown. The environment chooses the order, which
 * writes throw, and what the orchestration reports. `TeamEntries` performs the
 * same steps on real stream objects.
 */
module TeamStreams {
  import opened Wrappers

  /** One call on a stream object. */
  datatype Call = Write | End | Fail

  /** Live until the teardown starts; Gone once it has ended the streams. */
  datatype Phase = Live | Disposing | Gone

  datatype State<T> = State(
    streams: seq<T>,             // the active set, in insertion order
    logs: map<T, seq<Call>>,     // every call made on each stream handed to send
    watching: bool,              // a quiescence watcher is armed
    phase: Phase)

  datatype Step<T> =
    | Send(stream: T, queued: bool, queuedThrows: bool, broken: set<T>, submitThrows: bool)
    | Detach(stream: T)
    | Cancel
    | Broadcast(broken: set<T>)
    | Wake(quiescent: bool, orchestrationFailed: bool, failable: set<T>)   // the streams that have a `fail`
    | BeginTeardown
    | EndTeardown

  function Initial<T>(): State<T> {
    State([], map[], false, Live)
  }

  /** The streams of `streams` outside `gone`, in order. */
  function Remaining<T(==)>(streams: seq<T>, gone: set<T>): (r: seq<T>)
    ensures forall s :: s in r ==> s in streams && s !in gone
    ensures forall s :: s in streams && s !in gone ==> s in r
    ensures |r| <= |streams|
  {
    if streams == [] then []
    else
      var rest := Remaining(streams[..|streams| - 1], gone);
      if streams[|streams| - 1] in gone then rest else rest + [streams[|streams| - 1]]
  }

  /** Every stream of `streams` receives `call`. */
  function Called<T(==)>(logs: map<T, seq<Call>>, streams: seq<T>, call: Call): map<T, seq<Call>> {
    map s | s in logs :: if s in streams then logs[s] + [call] else logs[s]
  }

  /** One frame to every active stream; a stream whose write throws is dropped. */
  function Broadcasted<T(==)>(s: State<T>, broken: set<T>): State<T> {
    s.(streams := Remaining(s.streams, broken), logs := Called(s.logs, s.streams, Write))
  }

  /** The call that closes a stream: its `fail` when it is to fail and has one, else its `end`. */
  function Closing<T(==)>(stream: T, failing: set<T>): Call {
    if stream in failing then Fail else End
  }

  /** Every stream of `streams` is closed. */
  function Closed<T(==)>(logs: map<T, seq<Call>>, streams: seq<T>, failing: set<T>): map<T, seq<Call>> {
    map s | s in logs :: if s in streams then logs[s] + [Closing(s, failing)] else logs[s]
  }

  /** Close every active stream and clear the set. */
  function Settled<T(==)>(s: State<T>, failing: set<T>): State<T> {
    s.(streams := [], logs := Closed(s.logs, s.streams, failing))
  }

  function Watched<T>(s: State<T>): State<T> {
    if s.phase == Live then s.(watching := true) else s
  }

  /** Whether the source can take this step: send and cancel need a live entry and send a new stream. */
  predicate Enabled<T(==)>(s: State<T>, step: Step<T>) {
    match step
    case Send(stream, _, _, _, _) => s.phase == Live && stream !in s.logs
    case Detach(stream) => stream in s.logs
    case Cancel => s.phase == Live
    case Broadcast(_) => s.phase != Gone
    case Wake(_, _, _) => s.watching
    case BeginTeardown => s.phase == Live
    case EndTeardown => s.phase == Disposing
  }

  /** Send, after its queued frame went out: attach, broadcast the user message, submit, arm the watcher. */
  function Accepted<T(==)>(s: State<T>, stream: T, broken: set<T>, submitThrows: bool): State<T> {
    var told := Broadcasted(s.(streams := s.streams + [stream]), broken);
    if submitThrows then told.(streams := Remaining(told.streams, {stream})) else Watched(told)
  }

  function Next<T(==)>(s: State<T>, step: Step<T>): State<T>
    requires Enabled(s, step)
  {
    match step
    case Send(stream, queued, queuedThrows, broken, submitThrows) =>
      var known := s.(logs := s.logs[stream := if queued then [Write] else []]);
      if queued && queuedThrows then known else Accepted(known, stream, broken, submitThrows)
    case Detach(stream) => s.(streams := Remaining(s.streams, {stream}))
    case Cancel => Watched(s)
    case Broadcast(broken) => Broadcasted(s, broken)
    case Wake(quiescent, orchestrationFailed, failable) =>
      if !quiescent then s
      else if s.phase != Live then s.(watching := false)
      else Settled(s.(watching := false), if orchestrationFailed then failable else {})
    case BeginTeardown => s.(phase := Disposing)
    case EndTeardown => Settled(s, {}).(phase := Gone)
  }

  // ---------------------------------------------------------------- theorems

  /** A log that closes its stream at most once, with no call afterwards. */
  ghost predicate ClosedAtMostOnce(log: seq<Call>) {
    forall i :: 0 <= i < |log| - 1 ==> log[i] == Write
  }

  ghost predicate IsOpen(log: seq<Call>) {
    forall i :: 0 <= i < |log| ==> log[i] == Write
  }

  ghost predicate Distinct<T>(streams: seq<T>) {
    forall i, j :: 0 <= i < j < |streams| ==> streams[i] != streams[j]
  }

  ghost predicate Safe<T>(s: State<T>) {
    && Distinct(s.streams)
    && (forall x :: x in s.streams ==> x in s.logs && IsOpen(s.logs[x]))
    && (forall x :: x in s.logs ==> ClosedAtMostOnce(s.logs[x]))
    && (s.streams != [] ==> s.phase == Disposing || (s.watching && s.phase == Live))
  }

  /** The state after `steps`, or None when one of them cannot be taken where it stands. */
  function Run<T(==)>(steps: seq<Step<T>>): Option<State<T>> {
    if steps == [] then Some(Initial())
    else
      match Run(steps[..|steps| - 1])
      case None => None
      case Some(s) => if Enabled(s, steps[|steps| - 1]) then Some(Next(s, steps[|steps| - 1])) else None
  }

  predicate IsRun<T(==)>(steps: seq<Step<T>>) {
    Run(steps).Some?
  }

  function After<T(==)>(steps: seq<Step<T>>): State<T>
    requires IsRun(steps)
  {
    Run(steps).value
  }

  lemma {:induction false} RemainingDistinct<T>(streams: seq<T>, gone: set<T>)
    requires Distinct(streams)
    ensures Distinct(Remaining(streams, gone))
  {
    if streams != [] {
      var init := streams[..|streams| - 1];
      RemainingDistinct(init, gone);
      assert forall x :: x in Remaining(init, gone) ==> x in init;
      assert streams[|streams| - 1] !in init;
    }
  }

  lemma BroadcastSafe<T>(s: State<T>, broken: set<T>)
    requires Safe(s)
    ensures Safe(Broadcasted(s, broken))
  {
    RemainingDistinct(s.streams, broken);
    var q := Broadcasted(s, broken);
    assert q.streams != [] ==> q.streams[0] in s.streams;
  }

  lemma SettleSafe<T>(s: State<T>, failing: set<T>)
    requires Safe(s)
    ensures Safe(Settled(s, failing))
  {
  }

  lemma DropSafe<T>(s: State<T>, stream: T)
    requires Safe(s)
    ensures Safe(s.(streams := Remaining(s.streams, {stream})))
  {
    RemainingDistinct(s.streams, {stream});
    var q := s.(streams := Remaining(s.streams, {stream}));
    assert q.streams != [] ==> q.streams[0] in s.streams;
  }

  lemma AcceptSafe<T>(s: State<T>, stream: T, broken: set<T>, submitThrows: bool)
    requires Safe(s) && s.phase == Live
    requires stream in s.logs && stream !in s.streams && IsOpen(s.logs[stream])
    ensures Safe(Accepted(s, stream, broken, submitThrows))
  {
    // The watcher of the accepted state is armed last; arm it first to reuse the step lemmas.
    var armed := s.(streams := s.streams + [stream], watching := true);
    assert Distinct(armed.streams);
    BroadcastSafe(armed, broken);
    var told := Broadcasted(s.(streams := s.streams + [stream]), broken);
    if submitThrows {
      DropSafe(Broadcasted(armed, broken), stream);
      var left := Remaining(told.streams, {stream});
      if left != [] {
        assert left[0] in told.streams && left[0] != stream;
        assert left[0] in s.streams;
      }
    }
  }

  lemma NextSafe<T>(s: State<T>, step: Step<T>)
    requires Safe(s) && Enabled(s, step)
    ensures Safe(Next(s, step))
  {
    match step
    case Send(stream, queued, queuedThrows, broken, submitThrows) =>
      var known := s.(logs := s.logs[stream := if queued then [Write] else []]);
      assert Safe(known);
      if !(queued && queuedThrows) {
        AcceptSafe(known, stream, broken, submitThrows);
      }
    case Detach(stream) => DropSafe(s, stream);
    case Broadcast(broken) => BroadcastSafe(s, broken);
    case Wake(quiescent, orchestrationFailed, failable) =>
      if quiescent && s.phase == Live {
        SettleSafe(s, if orchestrationFailed then failable else {});
      }
    case EndTeardown => SettleSafe(s, {});
    case _ =>
  }

  /**
   * In every interleaving a stream is ended or failed at most once and never
   * called afterwards, and a non-empty active set has an armed watcher or a
   * teardown in progress.
   */
  lemma {:induction false} EveryRunIsSafe<T>(steps: seq<Step<T>>)
    requires IsRun(steps)
    ensures var s := After(steps);
            && (forall x :: x in s.logs ==> ClosedAtMostOnce(s.logs[x]))
            && (forall x :: x in s.streams ==> x in s.logs && IsOpen(s.logs[x]))
            && (s.streams != [] ==> s.phase == Disposing || (s.watching && s.phase == Live))
    ensures Safe(After(steps))
  {
    if steps != [] {
      EveryRunIsSafe(steps[..|steps| - 1]);
      NextSafe(After(steps[..|steps| - 1]), steps[|steps| - 1]);
    }
  }

  /**
   * The two settling steps leave no stream attached and close each one that
   * was. It fails a stream exactly when the watcher finds the orchestration
   * failed and the stream can be failed; otherwise the end is clean.
   */
  lemma SettlingClosesEveryStream<T>(steps: seq<Step<T>>, last: Step<T>)
    requires IsRun(steps) && Enabled(After(steps), last)
    requires last.EndTeardown? || (last.Wake? && last.quiescent && After(steps).phase == Live)
    ensures var s, q := After(steps), Next(After(steps), last);
            && q.streams == []
            && forall x :: x in s.streams ==>
                 && x in s.logs && x in q.logs
                 && q.logs[x] == s.logs[x]
                              + [if last.Wake? && last.orchestrationFailed && x in last.failable then Fail else End]
  {
    EveryRunIsSafe(steps);
  }

  /** The send whose queued frame, if any, went out. */
  predicate Admitted<T>(step: Step<T>) {
    step.Send? && !(step.queued && step.queuedThrows)
  }

  /** Whether `x` is active after the step, said of the moment before it. */
  predicate ActiveAfter<T(==)>(s: State<T>, step: Step<T>, x: T) {
    match step
    case Send(stream, queued, queuedThrows, broken, submitThrows) =>
      if Admitted(step) then (x in s.streams || (x == stream && !submitThrows)) && x !in broken
      else x in s.streams
    case Detach(stream) => x in s.streams && x != stream
    case Cancel => x in s.streams
    case Broadcast(broken) => x in s.streams && x !in broken
    case Wake(quiescent, _, _) => x in s.streams && !(quiescent && s.phase == Live)
    case BeginTeardown => x in s.streams
    case EndTeardown => false
  }

  /** The calls a stream known before the step gets in it. */
  function CallsIn<T(==)>(s: State<T>, step: Step<T>, x: T): seq<Call> {
    if x !in s.streams then []
    else
      match step
      case Send(_, _, _, _, _) => if Admitted(step) then [Write] else []
      case Broadcast(_) => [Write]
      case Wake(quiescent, orchestrationFailed, failable) =>
        if quiescent && s.phase == Live then [if orchestrationFailed && x in failable then Fail else End] else []
      case EndTeardown => [End]
      case _ => []
  }

  /**
   * Every step of every run, stream by stream: who is active after it and which
   * calls it makes. An admitted send writes its queued frame, if any, then exactly
   * one frame to its stream and to every active one; its stream is active
   * afterwards exactly when its submit and its write did not throw.
   */
  lemma {:induction false} EachStepByStream<T>(steps: seq<Step<T>>, step: Step<T>)
    requires IsRun(steps) && Enabled(After(steps), step)
    ensures var s, q := After(steps), Next(After(steps), step);
            && (forall x :: x in q.streams <==> ActiveAfter(s, step, x))
            && (forall x :: x in q.logs <==> x in s.logs || (step.Send? && x == step.stream))
            && (forall x :: x in s.logs ==> q.logs[x] == s.logs[x] + CallsIn(s, step, x))
            && (step.Send? ==> q.logs[step.stream] ==
                               (if step.queued then [Write] else []) + (if Admitted(step) then [Write] else []))
  {
    EveryRunIsSafe(steps);
    var s, q := After(steps), Next(After(steps), step);
    if Admitted(step) {
      SendByStream(s, step);
    }
    forall x | x in s.logs ensures q.logs[x] == s.logs[x] + CallsIn(s, step, x) {
    }
  }

  lemma {:induction false} SendByStream<T>(s: State<T>, step: Step<T>)
    requires Enabled(s, step) && Admitted(step) && forall x :: x in s.streams ==> x in s.logs
    ensures var q := Next(s, step);
            && (forall x :: x in q.streams <==> ActiveAfter(s, step, x))
            && (forall x :: x in s.logs ==> x in q.logs && q.logs[x] == s.logs[x] + CallsIn(s, step, x))
            && step.stream in q.logs
            && q.logs[step.stream] == (if step.queued then [Write] else []) + [Write]
  {
    var known := s.(logs := s.logs[step.stream := if step.queued then [Write] else []]);
    var told := Broadcasted(known.(streams := s.streams + [step.stream]), step.broken);
    forall x ensures x in told.streams <==> (x in s.streams || x == step.stream) && x !in step.broken {
      assert x in s.streams + [step.stream] <==> x in s.streams || x == step.stream;
    }
  }

  /** The watcher is armed by an accepted send and by a cancel, and stands down only when it finds quiescence. */
  lemma WatchingAfter<T>(steps: seq<Step<T>>, step: Step<T>)
    requires IsRun(steps) && Enabled(After(steps), step)
    ensures var s, q := After(steps), Next(After(steps), step);
            && (q.watching <==>
                  || (step.Send? && Admitted(step) && !step.submitThrows)
                  || step.Cancel?
                  || (s.watching && !(step.Wake? && step.quiescent)))
            && q.phase == (if step.BeginTeardown? then Disposing else if step.EndTeardown? then Gone else s.phase)
  {
  }

  /** The streams whose write throws in this step. */
  function BrokenIn<T(==)>(step: Step<T>): set<T> {
    if step.Send? || step.Broadcast? then step.broken else {}
  }

  /**
   * No stream is lost: one leaves the active set only by its own detach, by a
   * write of its own that throws, or closed by this very step.
   */
  lemma LeavingIsExplained<T>(steps: seq<Step<T>>, next: Step<T>, x: T)
    requires IsRun(steps) && Enabled(After(steps), next)
    requires x in After(steps).streams && x !in Next(After(steps), next).streams
    ensures || next == Detach(x)
            || x in BrokenIn(next)
            || (x in Next(After(steps), next).logs && !IsOpen(Next(After(steps), next).logs[x]))
  {
    EveryRunIsSafe(steps);
    var s, q := After(steps), Next(After(steps), next);
    if next.Send? {
      assert x != next.stream;
    } else if q.streams == [] && x in q.logs && |q.logs[x]| > 0 && q.logs[x][|q.logs[x]| - 1] != Write {
      assert !IsOpen(q.logs[x]);
    }
  }

  /** A frame reaches every active stream once, an accepted send included, and no other. */
  lemma BroadcastReachesTheActive<T>(steps: seq<Step<T>>, broken: set<T>, x: T)
    requires IsRun(steps) && Enabled(After(steps), Broadcast(broken)) && x in After(steps).logs
    ensures var s, q := After(steps), Next(After(steps), Step<T>.Broadcast(broken));
            && x in q.logs
            && q.logs[x] == s.logs[x] + (if x in s.streams then [Write] else [])
            && (x in q.streams <==> x in s.streams && x !in broken)
  {
  }

  /**
   * A closed stream stays exactly as it is whatever happens next: neither a
   * later send, nor a late detach, nor a second settlement touches it.
   */
  lemma ClosedStreamIsUntouched<T>(steps: seq<Step<T>>, next: Step<T>, x: T)
    requires IsRun(steps) && Enabled(After(steps), next)
    requires x in After(steps).logs && !IsOpen(After(steps).logs[x])
    ensures x in Next(After(steps), next).logs
    ensures Next(After(steps), next).logs[x] == After(steps).logs[x]
  {
    EveryRunIsSafe(steps);
  }
}
