/**
 * The stream half of a materialized team entry, on real stream objects: the
 * active set, the watcher slot and the disposed flag are fields, and every
 * method takes exactly one step of `TeamStreams`.
 */
module TeamEntries {
  import opened Wrappers
  import opened TeamStreams

  /** One client stream; the environment decides whether it has a `fail` and whether its writes throw. */
  class TurnStream {
    const canFail: bool
    var calls: seq<Call>
    var throws: bool

    constructor (canFail: bool, throws: bool)
      ensures calls == [] && this.canFail == canFail && this.throws == throws
    {
      this.canFail := canFail;
      calls := [];
      this.throws := throws;
    }

    method Call(call: Call) returns (threw: bool)
      modifies this`calls
      ensures calls == old(calls) + [call] && threw == throws
    {
      calls := calls + [call];
      threw := throws;
    }
  }

  class TeamEntry {
    var streams: seq<TurnStream>
    var quiescenceWatch: bool
    var disposed: bool
    ghost var gone: bool                  // the teardown has ended the streams
    ghost var known: set<TurnStream>      // every stream ever sent

    constructor ()
      ensures Valid() && known == {} && Now() == Initial()
    {
      streams := [];
      quiescenceWatch := false;
      disposed := false;
      gone := false;
      known := {};
    }

    ghost predicate Valid()
      reads this
    {
      && Distinct(streams)
      && (forall s :: s in streams ==> s in known)
      && (gone ==> disposed)
    }

    ghost function Logs(): map<TurnStream, seq<Call>>
      reads this, known
    {
      map s | s in known :: s.calls
    }

    ghost function Now(): State<TurnStream>
      reads this, known
    {
      State(streams, Logs(), quiescenceWatch,
            if !disposed then Live else if gone then Gone else Disposing)
    }

    /** The active streams whose writes throw. */
    ghost function Broken(): set<TurnStream>
      reads this, streams
    {
      set s | s in streams && s.throws
    }

    /** The active streams that have a `fail`. */
    ghost function Failable(): set<TurnStream>
      reads this, streams
    {
      set s | s in streams && s.canFail
    }

    /** Write one frame to every stream of `targets`; the throwing ones are reported. */
    method WriteAll(targets: seq<TurnStream>) returns (threw: set<TurnStream>)
      requires Distinct(targets) && forall s :: s in targets ==> s in known
      modifies known`calls
      ensures Logs() == Called(old(Logs()), targets, Write)
      ensures threw == set s | s in targets && s.throws
    {
      threw := {};
      var i := 0;
      while i < |targets|
        invariant 0 <= i <= |targets|
        invariant forall s :: s in known ==> s.calls == old(s.calls) + if s in targets[..i] then [Write] else []
        invariant threw == set s | s in targets[..i] && s.throws
      {
        var t := targets[i].Call(Write);
        if t {
          threw := threw + {targets[i]};
        }
        assert targets[..i + 1] == targets[..i] + [targets[i]];
        i := i + 1;
      }
      assert targets[..i] == targets;
      assert Logs() == Called(old(Logs()), targets, Write);
    }

    /** Close every stream of `targets`, whatever throws: fail those that can be failed, if asked, and end the rest. */
    method CloseAll(targets: seq<TurnStream>, failing: bool)
      requires Distinct(targets) && forall s :: s in targets ==> s in known
      modifies known`calls
      ensures Logs() == Closed(old(Logs()), targets, if failing then set s | s in targets && s.canFail else {})
    {
      ghost var fails := if failing then set s | s in targets && s.canFail else {};
      for i := 0 to |targets|
        invariant forall s :: s in known ==>
                    s.calls == old(s.calls) + if s in targets[..i] then [Closing(s, fails)] else []
      {
        var stream := targets[i];
        var _ := stream.Call(if failing && stream.canFail then Fail else End);
        assert targets[..i + 1] == targets[..i] + [stream];
      }
      assert targets[..|targets|] == targets;
      assert Logs() == Closed(old(Logs()), targets, fails);
    }

    /** One frame to every active stream; a peer whose write throws is dropped, the team keeps running. */
    method Broadcast()
      requires Valid()
      modifies this`streams, known`calls
      ensures Valid() && Now() == Broadcasted(old(Now()), old(Broken()))
    {
      var threw := WriteAll(streams);
      assert threw == old(Broken());
      ghost var before := streams;
      streams := Remaining(streams, threw);
      RemainingDistinct(before, threw);
    }

    method Attach(stream: TurnStream)
      requires Valid() && stream in known && stream !in streams
      modifies this`streams
      ensures Valid() && Now() == old(Now()).(streams := old(streams) + [stream])
    {
      streams := streams + [stream];
    }

    /** A client went away: the active set loses its stream and keeps the others, in order. */
    method Detach(stream: TurnStream)
      requires Valid()
      modifies this`streams
      ensures Valid() && streams == Remaining(old(streams), {stream})
      ensures stream in known ==> Now() == Next(old(Now()), Step.Detach(stream))
    {
      RemainingDistinct(streams, {stream});
      streams := Remaining(streams, {stream});
    }

    /** End every active stream; the set is cleared first. */
    method EndStreams()
      requires Valid()
      modifies this`streams, known`calls
      ensures Valid() && Now() == Settled(old(Now()), {})
    {
      var closing := streams;
      streams := [];
      CloseAll(closing, false);
    }

    /** Close every active stream after an orchestration failure: fail it, or end it when it has no `fail`. */
    method FailStreams()
      requires Valid()
      modifies this`streams, known`calls
      ensures Valid() && Now() == Settled(old(Now()), old(Failable()))
    {
      var closing := streams;
      streams := [];
      CloseAll(closing, true);
    }

    /** Arm the watcher, unless one is armed or the entry is disposed. */
    method WatchQuiescence()
      requires Valid()
      modifies this`quiescenceWatch
      ensures Valid() && Now() == Watched(old(Now()))
    {
      if quiescenceWatch || disposed {
        return;
      }
      quiescenceWatch := true;
    }

    /**
     * Accept one user message: the queued frame first when a turn is in flight,
     * then attach, broadcast, submit and arm. A submit that throws detaches the
     * stream again.
     */
    method Send(stream: TurnStream, turnInFlight: bool, submitThrows: bool) returns (accepted: bool)
      requires Valid() && !disposed && stream !in known && stream.calls == []
      modifies this, known, stream`calls
      ensures Valid() && known == old(known) + {stream}
      ensures accepted <==> !(turnInFlight && old(stream.throws)) && !submitThrows
      ensures var broken := old(Broken()) + if old(stream.throws) then {stream} else {};
              Now() == Next(old(Now()), Step.Send(stream, turnInFlight, old(stream.throws), broken, submitThrows))
    {
      var threw := WriteQueued(stream, turnInFlight);
      if threw {
        return false;
      }
      assert Broken() == old(Broken());
      accepted := Accept(stream, submitThrows);
    }

    /** The queued frame, this stream's first, when a turn is in flight. */
    method WriteQueued(stream: TurnStream, turnInFlight: bool) returns (threw: bool)
      requires Valid() && stream !in known && stream.calls == []
      modifies this`known, stream`calls
      ensures Valid() && known == old(known) + {stream}
      ensures threw <==> turnInFlight && stream.throws
      ensures Now() == old(Now()).(logs := old(Logs())[stream := if turnInFlight then [Write] else []])
    {
      ghost var before := Logs();
      known := known + {stream};
      if turnInFlight {
        threw := stream.Call(Write);
        assert stream.calls == [Write];
      } else {
        threw := false;
      }
      assert Logs() == before[stream := if turnInFlight then [Write] else []];
    }

    /** Attach, broadcast the user message, submit, arm. */
    method Accept(stream: TurnStream, submitThrows: bool) returns (accepted: bool)
      requires Valid() && stream in known && stream !in streams
      modifies this`streams, this`quiescenceWatch, known`calls
      ensures Valid() && accepted == !submitThrows
      ensures var broken := old(Broken()) + if stream.throws then {stream} else {};
              Now() == Accepted(old(Now()), stream, broken, submitThrows)
    {
      Announce(stream);
      if submitThrows {
        Detach(stream);
        return false;
      }
      WatchQuiescence();
      return true;
    }

    /** Attach the stream and broadcast the user message to it and its peers. */
    method Announce(stream: TurnStream)
      requires Valid() && stream in known && stream !in streams
      modifies this`streams, known`calls
      ensures Valid()
      ensures var broken := old(Broken()) + if stream.throws then {stream} else {};
              Now() == Broadcasted(old(Now()).(streams := old(streams) + [stream]), broken)
    {
      ghost var broken := Broken() + if stream.throws then {stream} else {};
      Attach(stream);
      assert Broken() == broken;
      Broadcast();
    }

    /** Cancel only arms the watcher here; the mark and the cancellation are the collector's and the orchestration's. */
    method Cancel()
      requires Valid() && !disposed
      modifies this`quiescenceWatch
      ensures Valid() && Now() == Next(old(Now()), Step.Cancel)
    {
      WatchQuiescence();
    }

    /** The watcher resumes with the orchestration's snapshot: not quiescent yet, or settle the streams. */
    method WatcherWakes(quiescent: bool, orchestrationFailed: bool)
      requires Valid() && quiescenceWatch
      modifies this`streams, this`quiescenceWatch, known`calls
      ensures Valid() && Now() == Next(old(Now()), Wake(quiescent, orchestrationFailed, old(Failable())))
    {
      if !quiescent {
        return;
      }
      quiescenceWatch := false;
      if disposed {
        return;
      }
      if orchestrationFailed {
        FailStreams();
      } else {
        EndStreams();
      }
    }

    /** Up to the await of the orchestration's dispose. */
    method BeginTeardown()
      requires Valid() && !disposed
      modifies this`disposed
      ensures Valid() && Now() == Next(old(Now()), Step.BeginTeardown)
    {
      disposed := true;
    }

    /** After the dispose: the subscription is off and the streams end. */
    method EndTeardown()
      requires Valid() && disposed && !gone
      modifies this`streams, this`gone, known`calls
      ensures Valid() && Now() == Next(old(Now()), Step.EndTeardown)
    {
      EndStreams();
      gone := true;
    }
  }
}
