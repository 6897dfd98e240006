/** The polling resolver: publish a resolution unless it is the one published last. */
module ResolverCache {
  import opened Wrappers
  import opened EndpointFilter

  /** How the channel answers UpdateState; it rejects an address list its balancer cannot use. */
  datatype Answer = Accepted | BadResolverState | OtherFailure

  /** One poll: what the lookup replies, and how the channel would answer an update. */
  datatype Poll = Poll(reply: Option<seq<string>>, answer: Answer)

  datatype PollError = LookupFailed | UpdateFailed

  class Resolver {
    var lastAddrs: seq<string>
    var hasState: bool
    var updates: seq<seq<string>>

    constructor ()
      ensures !hasState && updates == []
    {
      lastAddrs, hasState, updates := [], false, [];
    }

    /** What the cache holds. */
    ghost function Cached(): Option<seq<string>>
      reads this
    {
      if hasState then Some(lastAddrs) else None
    }

    method SameState(addresses: seq<string>) returns (same: bool)
      ensures same <==> Cached() == Some(addresses)
    {
      if !hasState {
        return false;
      }
      if |lastAddrs| != |addresses| {
        return false;
      }
      for i := 0 to |addresses|
        invariant lastAddrs[..i] == addresses[..i]
      {
        if lastAddrs[i] != addresses[i] {
          return false;
        }
      }
      assert lastAddrs[..|lastAddrs|] == lastAddrs && addresses[..|addresses|] == addresses;
      same := true;
    }

    /** One poll does to the cache and the channel what `Step` says. */
    method Resolve(poll: Poll) returns (r: Result<(), PollError>)
      modifies this
      ensures Memory(Cached(), updates) == Step(Memory(old(Cached()), old(updates)), poll)
      ensures r == if poll.reply.None? then Err(LookupFailed)
                   else if old(Cached()) != poll.reply && poll.answer == OtherFailure then Err(UpdateFailed)
                   else Ok(())
    {
      if poll.reply.None? {
        return Err(LookupFailed);
      }
      var addresses := poll.reply.value;
      var same := SameState(addresses);
      if same {
        return Ok(());
      }
      updates := updates + [addresses];
      if poll.answer == OtherFailure {
        return Err(UpdateFailed);
      }
      lastAddrs, hasState := addresses, true;
      r := Ok(());
    }
  }

  /** The cache and the lists passed to UpdateState so far. */
  datatype Memory = Memory(cached: Option<seq<string>>, updates: seq<seq<string>>)

  function Step(m: Memory, poll: Poll): Memory {
    if poll.reply.None? || m.cached == poll.reply then m
    else
      Memory(if poll.answer.OtherFailure? then m.cached else poll.reply, m.updates + [poll.reply.value])
  }

  function Run(polls: seq<Poll>): Memory {
    if polls == [] then Memory(None, []) else Step(Run(polls[..|polls| - 1]), polls[|polls| - 1])
  }

  // ------------------------------------------------------------------ the claim

  /** The successful resolutions, in order. */
  function Resolutions(polls: seq<Poll>): seq<seq<string>> {
    if polls == [] then []
    else
      var last := polls[|polls| - 1];
      Resolutions(polls[..|polls| - 1]) + (if last.reply.Some? then [last.reply.value] else [])
  }

  /** A list without its consecutive repeats. */
  function Collapsed<T(==)>(xs: seq<T>): seq<T> {
    if |xs| < 2 then xs
    else
      var rest := Collapsed(xs[..|xs| - 1]);
      if xs[|xs| - 1] == xs[|xs| - 2] then rest else rest + [xs[|xs| - 1]]
  }

  predicate Usable(polls: seq<Poll>) {
    forall i :: 0 <= i < |polls| ==> !polls[i].answer.OtherFailure?
  }

  lemma {:induction false} CollapsedSnoc<T>(xs: seq<T>, x: T)
    ensures Collapsed(xs + [x]) ==
            if xs != [] && xs[|xs| - 1] == x then Collapsed(xs) else Collapsed(xs) + [x]
  {
    if xs != [] {
      assert (xs + [x])[..|xs|] == xs;
      assert (xs + [x])[|xs| - 1] == xs[|xs| - 1];
    } else {
      assert xs + [x] == [x];
    }
  }

  /**
   * When every update is accepted or rejected as unusable, the lists passed to
   * UpdateState are the successful resolutions with consecutive repeats removed,
   * and the cache is the last resolution: what publishing everything would leave.
   */
  lemma {:induction false} PublishesEachChangeOnce(polls: seq<Poll>)
    requires Usable(polls)
    ensures var m, all := Run(polls), Resolutions(polls);
            && m.updates == Collapsed(all)
            && m.cached == (if all == [] then None else Some(all[|all| - 1]))
    decreases |polls|
  {
    if polls != [] {
      var init, last := polls[..|polls| - 1], polls[|polls| - 1];
      PublishesEachChangeOnce(init);
      if last.reply.Some? {
        assert polls[|polls| - 1].reply == Some(last.reply.value);
        assert !last.answer.OtherFailure?;
        CollapsedSnoc(Resolutions(init), last.reply.value);
        assert Resolutions(polls) == Resolutions(init) + [last.reply.value];
      } else {
        assert Resolutions(polls) == Resolutions(init);
      }
    }
  }

  /** Collapsing keeps the last element, so the channel ends where publishing everything would leave it. */
  lemma {:induction false} CollapsedKeepsTheLast<T>(xs: seq<T>)
    requires xs != []
    ensures Collapsed(xs) != [] && Collapsed(xs)[|Collapsed(xs)| - 1] == xs[|xs| - 1]
    decreases |xs|
  {
    if |xs| >= 2 {
      CollapsedKeepsTheLast(xs[..|xs| - 1]);
    }
  }

  lemma {:induction false} CollapsedHasNoRepeats<T>(xs: seq<T>)
    ensures forall i :: 0 < i < |Collapsed(xs)| ==> Collapsed(xs)[i] != Collapsed(xs)[i - 1]
    decreases |xs|
  {
    if |xs| >= 2 {
      var init := xs[..|xs| - 1];
      CollapsedHasNoRepeats(init);
      CollapsedKeepsTheLast(init);
    }
  }

  // ---------------------------------------------------- runs with failed updates

  /** A poll that leaves its list stored: it resolves, and its update, if one is due, does not fail otherwise. */
  predicate Takes(poll: Poll) {
    poll.reply.Some? && !poll.answer.OtherFailure?
  }

  predicate TakesLast(polls: seq<Poll>, n: nat, i: nat)
    requires n <= |polls|
  {
    i < n && Takes(polls[i]) && forall j :: i < j < n ==> !Takes(polls[j])
  }

  /** The list the last taking poll among the first `n` resolved to. */
  ghost predicate StoredAfter(polls: seq<Poll>, n: nat, stored: Option<seq<string>>)
    requires n <= |polls|
  {
    if stored.None? then forall i :: 0 <= i < n ==> !Takes(polls[i])
    else exists i: nat :: TakesLast(polls, n, i) && polls[i].reply == stored
  }

  /** Poll `i` resolves to a list that is not the stored one. */
  ghost predicate Publishes(polls: seq<Poll>, i: nat)
    requires i < |polls|
  {
    polls[i].reply.Some? && !StoredAfter(polls, i, polls[i].reply)
  }

  lemma StoredOnlyOne(polls: seq<Poll>, n: nat, a: Option<seq<string>>, b: Option<seq<string>>)
    requires n <= |polls| && StoredAfter(polls, n, a) && StoredAfter(polls, n, b)
    ensures a == b
  {
  }

  lemma {:induction false} StoredStep(polls: seq<Poll>, n: nat, stored: Option<seq<string>>)
    requires n < |polls| && StoredAfter(polls, n, stored)
    ensures StoredAfter(polls, n + 1, if Takes(polls[n]) then polls[n].reply else stored)
  {
    if Takes(polls[n]) {
      assert TakesLast(polls, n + 1, n);
    } else if stored.Some? {
      var i: nat :| TakesLast(polls, n, i) && polls[i].reply == stored;
      assert TakesLast(polls, n + 1, i);
    }
  }

  /** The positions, in order, of the polls that resolve to a list that is not the stored one. */
  ghost function Publishing(polls: seq<Poll>, n: nat): (at: seq<nat>)
    requires n <= |polls|
    ensures forall k :: 0 <= k < |at| ==> at[k] < n && Publishes(polls, at[k])
    ensures forall k, l :: 0 <= k < l < |at| ==> at[k] < at[l]
    ensures forall i :: 0 <= i < n && Publishes(polls, i) ==> i in at
  {
    if n == 0 then [] else Publishing(polls, n - 1) + if Publishes(polls, n - 1) then [n - 1] else []
  }

  ghost function RepliesAt(polls: seq<Poll>, at: seq<nat>): (lists: seq<seq<string>>)
    requires forall k :: 0 <= k < |at| ==> at[k] < |polls| && polls[at[k]].reply.Some?
    ensures |lists| == |at| && forall k :: 0 <= k < |at| ==> Some(lists[k]) == polls[at[k]].reply
  {
    seq(|at|, k requires 0 <= k < |at| => polls[at[k]].reply.value)
  }

  /**
   * Any run, failed updates included: the cache is the list of the last poll that
   * was not turned away, and the lists passed to UpdateState are those of the
   * polls that differ from what was stored before them. So a list whose update
   * failed is passed again when it is resolved again, and a stored one is not.
   */
  lemma {:induction false} PublishesWhatIsNotStored(polls: seq<Poll>, n: nat)
    requires n <= |polls|
    ensures StoredAfter(polls, n, Run(polls[..n]).cached)
    ensures Run(polls[..n]).updates == RepliesAt(polls, Publishing(polls, n))
    decreases n
  {
    if n > 0 {
      var m := Run(polls[..n - 1]);
      assert polls[..n][..n - 1] == polls[..n - 1];
      PublishesWhatIsNotStored(polls, n - 1);
      StoredStep(polls, n - 1, m.cached);
      var due := polls[n - 1].reply;
      assert Run(polls[..n]) == Step(m, polls[n - 1]);
      if due.Some? && StoredAfter(polls, n - 1, due) {
        StoredOnlyOne(polls, n - 1, due, m.cached);
      }
    }
  }

  /**
   * With a port selector that names a port, a poll whose endpoint reply is only
   * permuted or duplicated publishes nothing.
   */
  lemma PermutedReplyPublishesNothing(polls: seq<Poll>, again: Poll, a: seq<string>, b: seq<string>,
                                      ports: map<string, int>, ps: PortSelector, split: Split, join: Join)
    requires Usable(polls) && Resolutions(polls) != []
    requires Filtered(a, ports, ps, split, join, Ok(Resolutions(polls)[|Resolutions(polls)| - 1]))
    requires again.reply.Some? && Filtered(b, ports, ps, split, join, Ok(again.reply.value))
    requires Elements(a) == Elements(b) && (ps.IsNumeric() || ps.IsNamed())
    ensures Step(Run(polls), again) == Run(polls)
  {
    var last := Resolutions(polls)[|Resolutions(polls)| - 1];
    FilterDependsOnTheSet(a, b, ports, ps, split, join, Ok(last), Ok(again.reply.value));
    PublishesEachChangeOnce(polls);
  }

  // --------------------------------------------------------- stateful instances

  datatype Instance = Instance(index: int, endpoints: seq<string>)

  /** The endpoints of the first instance with the wanted ordinal; none is an empty list, not an error. */
  method ResolveInstance(instances: seq<Instance>, index: int) returns (r: seq<string>)
    ensures (exists i :: 0 <= i < |instances| && instances[i].index == index) ==>
              exists i :: 0 <= i < |instances| && instances[i].index == index && r == instances[i].endpoints
                          && forall j :: 0 <= j < i ==> instances[j].index != index
    ensures (forall i :: 0 <= i < |instances| ==> instances[i].index != index) ==> r == []
  {
    for i := 0 to |instances|
      invariant forall j :: 0 <= j < i ==> instances[j].index != index
    {
      if instances[i].index != index {
        continue;
      }
      if |instances[i].endpoints| == 0 {
        return [];
      }
      return instances[i].endpoints;
    }
    r := [];
  }
}
