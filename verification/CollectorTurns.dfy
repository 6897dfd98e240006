/**
 * Every trace of a collector is a row of brackets: turn_start, the frames of
 * that turn, turn_end, each under one fresh turn id; and each turn_end carries
 * the outcome the inputs before it call for.
 */
module CollectorTurns {
  import opened Wrappers
  import opened HistoryModel
  import opened CollectorModel

  /** The items that can be done from a fresh collector. */
  ghost predicate Legal(items: seq<Item>) {
    MayAll(INITIAL, items)
  }

  /** A prefix of a legal trace is legal, and each item may be done where it stands. */
  lemma {:induction false} LegalPrefix(items: seq<Item>, k: nat)
    requires Legal(items) && k <= |items|
    ensures Legal(items[..k])
    ensures k < |items| ==> May(Replay(INITIAL, items[..k]), items[k])
    ensures k < |items| ==>
              Legal(items[..k + 1]) &&
              Replay(INITIAL, items[..k + 1]) == After(Replay(INITIAL, items[..k]), items[k])
    decreases |items|
  {
    if k == |items| {
      assert items[..k] == items;
    } else {
      var init := items[..|items| - 1];
      assert init[..k] == items[..k];
      if k == |items| - 1 {
        assert items[..k + 1] == items;
      } else {
        assert init[..k + 1] == items[..k + 1];
        LegalPrefix(init, k);
      }
    }
  }

  // --------------------------------------------------------------- brackets

  predicate IsBoundary(item: Item) {
    item.Opened? || item.Closed?
  }

  /** Item `k` lies in the turn opened at `b`: no turn starts or ends strictly between them. */
  ghost predicate InTurn(items: seq<Item>, b: nat, k: nat) {
    && b < k <= |items| && items[b].Opened?
    && forall i :: b < i < k ==> !IsBoundary(items[i])
  }

  /** The opening of the turn in progress at the end of `items`, or -1. */
  function OpenAt(items: seq<Item>): (o: int)
    ensures -1 <= o < |items|
    ensures o >= 0 ==> InTurn(items, o, |items|)
    ensures forall b: nat :: InTurn(items, b, |items|) ==> b == o
  {
    if items == [] then -1
    else
      var n := |items| - 1;
      if items[n].Opened? then n
      else if items[n].Closed? then -1
      else
        var o := OpenAt(items[..n]);
        assert forall b: nat :: InTurn(items, b, |items|) ==> InTurn(items[..n], b, n);
        o
  }

  lemma {:induction false} OpenAgrees(items: seq<Item>)
    requires Legal(items)
    ensures var s, o := Replay(INITIAL, items), OpenAt(items);
            && (o < 0 <==> s.active.None?)
            && (o >= 0 ==> items[o] == Opened(s.active.value.id))
            && (forall i :: 0 <= i < |items| && items[i].Opened? ==> items[i].turn < s.nextTurn)
  {
    if items != [] {
      OpenAgrees(items[..|items| - 1]);
    }
  }

  /** The items that carry the id of their turn. */
  predicate IsTurnScoped(item: Item) {
    item.BlockShown? || item.ToolShown? || item.Closed?
  }

  /** Turns are bracketed: no turn opens inside another, and every frame lies in the turn it names. */
  lemma {:induction false} TurnsAreBracketed(items: seq<Item>, k: nat)
    requires Legal(items) && k < |items|
    ensures items[k].Opened? ==>
              && (forall b: nat :: !InTurn(items, b, k))
              && (forall i :: 0 <= i < k && items[i].Opened? ==> items[i].turn < items[k].turn)
    ensures IsTurnScoped(items[k]) ==>
              exists b: nat :: InTurn(items, b, k) && items[b].turn == items[k].turn
  {
    LegalPrefix(items, k);
    OpenAgrees(items[..k]);
    var o := OpenAt(items[..k]);
    forall b: nat | InTurn(items, b, k)
      ensures b == o
    {
      assert InTurn(items[..k], b, k);
    }
    if o >= 0 {
      assert InTurn(items[..k], o, k) && InTurn(items, o, k);
    }
  }

  // ---------------------------------------------------------------- outcome

  /** The mark at `m` still stands at `k`: no later mark replaced it and no turn end consumed it. */
  ghost predicate MarkStands(items: seq<Item>, m: nat, k: nat) {
    && m < k <= |items| && items[m].Marked?
    && forall i :: m < i < k ==> !items[i].Marked? && !items[i].Closed?
  }

  /** The failure at `f` is the first one of the turn in progress at `k`. */
  ghost predicate FirstFailure(items: seq<Item>, f: nat, k: nat) {
    && f < k <= |items| && items[f].FailureSeen?
    && exists b: nat :: InTurn(items, b, k) && b < f && forall i :: b < i < f ==> !items[i].FailureSeen?
  }

  function MarkAt(items: seq<Item>): (m: int)
    ensures -1 <= m < |items|
    ensures m >= 0 ==> MarkStands(items, m, |items|)
    ensures m < 0 ==> forall i: nat :: !MarkStands(items, i, |items|)
  {
    if items == [] then -1
    else
      var n := |items| - 1;
      if items[n].Marked? then n
      else if items[n].Closed? then -1
      else
        var m := MarkAt(items[..n]);
        assert forall i: nat :: MarkStands(items, i, |items|) ==> MarkStands(items[..n], i, n);
        m
  }

  function FailureAt(items: seq<Item>): (f: int)
    ensures -1 <= f < |items|
    ensures f >= 0 ==> items[f].FailureSeen? && OpenAt(items) >= 0 && OpenAt(items) < f
    ensures OpenAt(items) >= 0 ==>
              forall i :: OpenAt(items) < i < (if f < 0 then |items| else f) ==> !items[i].FailureSeen?
  {
    if items == [] then -1
    else
      var n := |items| - 1;
      var f := FailureAt(items[..n]);
      if IsBoundary(items[n]) then -1
      else if items[n].FailureSeen? && f < 0 && OpenAt(items[..n]) >= 0 then n
      else f
  }

  lemma {:induction false} MarkAgrees(items: seq<Item>)
    requires Legal(items)
    ensures var s, m := Replay(INITIAL, items), MarkAt(items);
            s.mark == (if m >= 0 then Some(items[m].outcome) else None)
  {
    if items != [] {
      MarkAgrees(items[..|items| - 1]);
    }
  }

  lemma {:induction false} FailureAgrees(items: seq<Item>)
    requires Legal(items)
    ensures var s, f := Replay(INITIAL, items), FailureAt(items);
            s.active.Some? ==> s.active.value.failure == (if f >= 0 then Some(items[f].failure) else None)
  {
    if items != [] {
      FailureAgrees(items[..|items| - 1]);
      OpenAgrees(items[..|items| - 1]);
    }
  }

  /**
   * A turn_end carries the standing mark if there is one, otherwise ERROR with
   * the first failure of its turn, otherwise COMPLETED.
   */
  lemma {:induction false} TurnEndOutcome(items: seq<Item>, k: nat)
    requires Legal(items) && k < |items| && items[k].Closed?
    ensures || (exists m: nat :: MarkStands(items, m, k) && items[k].outcome == items[m].outcome)
            || ((forall m: nat :: !MarkStands(items, m, k)) &&
                exists f: nat :: FirstFailure(items, f, k) && items[k].outcome == Error(Some(items[f].failure)))
            || ((forall m: nat :: !MarkStands(items, m, k)) && (forall f: nat :: !FirstFailure(items, f, k)) &&
                items[k].outcome == Completed)
  {
    LegalPrefix(items, k);
    var before := items[..k];
    MarkAgrees(before);
    FailureAgrees(before);
    OpenAgrees(before);
    var m, f, o := MarkAt(before), FailureAt(before), OpenAt(before);
    assert InTurn(before, o, k);
    assert InTurn(items, o, k);
    if m >= 0 {
      assert MarkStands(before, m, k);
      assert MarkStands(items, m, k);
    } else {
      forall i: nat | MarkStands(items, i, k)
        ensures false
      {
        assert MarkStands(before, i, k);
      }
      if f >= 0 {
        assert FirstFailure(items, f, k);
      } else {
        assert forall i: nat :: !FirstFailure(items, i, k) by {
          assert forall b: nat :: InTurn(items, b, k) ==> InTurn(before, b, k);
        }
      }
    }
  }

  /** The turn ends whose settlement a mark decides. */
  function MarkedEnds(items: seq<Item>): nat
    requires Legal(items)
  {
    if items == [] then 0
    else
      var n := |items| - 1;
      LegalPrefix(items, n);
      MarkedEnds(items[..n])
        + (if items[n].Closed? && Replay(INITIAL, items[..n]).mark.Some? then 1 else 0)
  }

  function Marks(items: seq<Item>): nat {
    if items == [] then 0 else Marks(items[..|items| - 1]) + (if items[|items| - 1].Marked? then 1 else 0)
  }

  /**
   * A mark is consumed at most once: none survives a turn end, and marks decide
   * no more turn ends than there were marks, one fewer while one still stands.
   */
  lemma {:induction false} MarkConsumedOnce(items: seq<Item>)
    requires Legal(items)
    ensures MarkedEnds(items) + (if Replay(INITIAL, items).mark.Some? then 1 else 0) <= Marks(items)
    ensures items != [] && items[|items| - 1].Closed? ==> Replay(INITIAL, items).mark.None?
    decreases |items|
  {
    if items != [] {
      var n := |items| - 1;
      LegalPrefix(items, n);
      MarkConsumedOnce(items[..n]);
    }
  }
}
