/** ListPresets: keyset pages over the preset ids, carried by resource-name tokens. */
module PresetPages {
  import opened Wrappers
  import opened Texts
  import opened Ordering
  import opened ResourceNames
  import opened KeysetPages

  const DEFAULT_PAGE_SIZE: nat := 100
  const MAX_PAGE_SIZE: nat := 1000

  function PresetName(template: string, id: string): string {
    "templates/" + template + "/presets/" + id
  }

  lemma ParsePresetName(template: string, id: string)
    ensures ParseName(PresetName(template, id)) == id <==> '/' !in id
  {
    var parent := "templates/" + template + "/presets";
    assert PresetName(template, id) == parent + "/" + id;
    TerminalSegment(parent, id);
  }

  /** Unspecified and negative sizes get the default, large ones the maximum. */
  function CoercedSize(pageSize: int): (size: nat)
    ensures 1 <= size <= MAX_PAGE_SIZE
    ensures 0 < pageSize <= 1000 ==> size == pageSize
    ensures pageSize <= 0 ==> size == 100
    ensures pageSize > 1000 ==> size == 1000
  {
    if pageSize <= 0 then DEFAULT_PAGE_SIZE else if pageSize < MAX_PAGE_SIZE then pageSize else MAX_PAGE_SIZE
  }

  /** The cursor a page token stands for. */
  function CursorOf(pageToken: string): Option<string> {
    var id := ParseName(pageToken);
    if id == "" then None else Some(id)
  }

  lemma BeforeIsTotal()
    ensures Total(Before)
  {
    forall a: string ensures !Before(a, a) {
      BeforeIrreflexive(a);
    }
    forall a: string, b: string, c: string | Before(a, b) && Before(b, c) ensures Before(a, c) {
      BeforeTransitive(a, b, c);
    }
    forall a: string, b: string ensures a == b || Before(a, b) || Before(b, a) {
      BeforeTotal(a, b);
    }
  }

  /** Preset ids are terminal segments of their names. */
  predicate ValidIds(ids: seq<string>) {
    Distinct(ids) && forall id :: id in ids ==> id != "" && '/' !in id
  }

  /** The first id after the token, or the end when it is beyond every id. */
  method FindStart(sorted: seq<string>, tokenId: string) returns (startIdx: nat)
    ensures startIdx == FirstAfter(sorted, Some(tokenId), Before)
  {
    for i := 0 to |sorted|
      invariant forall j :: 0 <= j < i ==> !Beyond(Some(tokenId), sorted[j], Before)
    {
      if Beyond(Some(tokenId), sorted[i], Before) {
        FirstAfterUnique(sorted, Some(tokenId), Before, i);
        return i;
      }
    }
    FirstAfterUnique(sorted, Some(tokenId), Before, |sorted|);
    startIdx := |sorted|;
  }

  /** One call: the presets of its moment, what it asks for, and what it is answered. */
  datatype Call = Call(ids: seq<string>, pageSize: int, pageToken: string, presets: seq<string>, nextPageToken: string)
  {
    /** The page after the token, and a token exactly when more follows: the last id shown. */
    predicate Answered() {
      var size, rest := CoercedSize(pageSize), Rest(ids, CursorOf(pageToken), Before);
      && ValidIds(ids)
      && presets == Page(rest, size)
      && (|rest| > size ==> CursorOf(nextPageToken) == Some(rest[size - 1]))
      && (nextPageToken == "" <==> |rest| <= size)
    }
  }

  /** One page request over the filtered presets of the moment. */
  method ListPresets(template: string, ids: seq<string>, pageSize: int, pageToken: string)
    returns (presets: seq<string>, nextPageToken: string)
    requires ValidIds(ids)
    ensures Call(ids, pageSize, pageToken, presets, nextPageToken).Answered()
  {
    var size := CoercedSize(pageSize);
    var sorted := Sort(ids, Before);
    var tokenId := ParseName(pageToken);
    var startIdx := 0;
    if tokenId != "" {
      startIdx := FindStart(sorted, tokenId);
    } else {
      FirstAfterUnique(sorted, None, Before, 0);
    }
    var page := sorted[startIdx..];
    var hasMore := |page| > size;
    presets := if hasMore then page[..size] else page;
    nextPageToken := "";
    if hasMore {
      var last := presets[|presets| - 1];
      SortedMember(ids, startIdx + size - 1);
      TokenNames(template, last);
      nextPageToken := PresetName(template, last);
    }
  }

  /** The token made of an id is not empty and stands for that id. */
  lemma TokenNames(template: string, id: string)
    requires id != "" && '/' !in id
    ensures PresetName(template, id) != "" && CursorOf(PresetName(template, id)) == Some(id)
  {
    ParsePresetName(template, id);
    assert |PresetName(template, id)| >= |id|;
  }

  lemma SortedMember(ids: seq<string>, i: nat)
    requires i < |Sort(ids, Before)|
    ensures Sort(ids, Before)[i] in ids
  {
    SortPermutes(ids, Before);
    assert Sort(ids, Before)[i] in multiset(Sort(ids, Before));
  }

  // ----------------------------------------------------------------- many calls

  /** Calls that follow the tokens to the end, whatever happens to the presets in between. */
  predicate FollowsTokens(calls: seq<Call>) {
    && calls != [] && calls[0].Answered()
    && if |calls| == 1 then calls[0].nextPageToken == ""
       else
         && calls[0].nextPageToken != "" && calls[1].pageToken == calls[0].nextPageToken
         && FollowsTokens(calls[1..])
  }

  function RequestOf(call: Call): Request<string> {
    Request(call.ids, CoercedSize(call.pageSize), call.presets)
  }

  function Requests(calls: seq<Call>): (walk: seq<Request<string>>)
    ensures |walk| == |calls| && forall i :: 0 <= i < |calls| ==> walk[i] == RequestOf(calls[i])
  {
    if calls == [] then [] else [RequestOf(calls[0])] + Requests(calls[1..])
  }

  /** The cursor the call's answer hands on; the empty token hands on none. */
  function NextCursor(call: Call): Option<string> {
    if call.nextPageToken == "" then None else CursorOf(call.nextPageToken)
  }

  /** An answered call serves the page its token asks for, and says where the next one starts. */
  lemma {:induction false} CallServes(call: Call)
    requires call.Answered()
    ensures Serves(CursorOf(call.pageToken), RequestOf(call), Before)
    ensures Leaves(CursorOf(call.pageToken), RequestOf(call), NextCursor(call), Before)
    ensures NextCursor(call).Some? <==> call.nextPageToken != ""
  {
  }

  /** Calls that follow the tokens are a complete walk from the first call's token. */
  lemma {:induction false} CallsAreAWalk(calls: seq<Call>)
    requires FollowsTokens(calls)
    ensures Walk(CursorOf(calls[0].pageToken), Requests(calls), Before)
    decreases |calls|
  {
    CallServes(calls[0]);
    if |calls| > 1 {
      CallsAreAWalk(calls[1..]);
    }
    WalkFromPage(CursorOf(calls[0].pageToken), RequestOf(calls[0]), NextCursor(calls[0]), Requests(calls[1..]), Before);
  }

  /** All the ids the calls showed, in order. */
  function Shown(calls: seq<Call>): seq<string> {
    if calls == [] then [] else calls[0].presets + Shown(calls[1..])
  }

  lemma {:induction false} ShownIsReturned(calls: seq<Call>)
    ensures Shown(calls) == Returned(Requests(calls))
    decreases |calls|
  {
    if calls != [] {
      ShownIsReturned(calls[1..]);
      assert Requests(calls)[1..] == Requests(calls[1..]);
    }
  }

  predicate AlwaysPresent(calls: seq<Call>, id: string) {
    forall i :: 0 <= i < |calls| ==> id in calls[i].ids
  }

  /**
   * A client that asks without a token and follows the tokens to the end sees ids
   * in strictly increasing order, each at most once, and each preset present at
   * every call exactly once.
   */
  lemma {:induction false} CallsShowPresentPresetsOnce(calls: seq<Call>, id: string)
    requires FollowsTokens(calls) && calls[0].pageToken == ""
    ensures Increasing(Shown(calls), Before)
    ensures multiset(Shown(calls))[id] <= 1
    ensures AlwaysPresent(calls, id) ==> multiset(Shown(calls))[id] == 1
  {
    CallsAreAWalk(calls);
    assert CursorOf("") == None;
    ShownIsReturned(calls);
    PresentPresetsComeOnce(Requests(calls), id);
  }

  /**
   * Walking the pages while presets come and go returns strictly increasing ids:
   * each at most once, and each preset present throughout exactly once.
   */
  lemma PresentPresetsComeOnce(walk: seq<Request<string>>, id: string)
    requires Walk(None, walk, Before)
    ensures Increasing(Returned(walk), Before)
    ensures multiset(Returned(walk))[id] <= 1
    ensures (forall i :: 0 <= i < |walk| ==> id in walk[i].store) ==> multiset(Returned(walk))[id] == 1
  {
    BeforeIsTotal();
    WalkIncreases(None, walk, Before);
    IncreasingOnce(Returned(walk), id, Before);
    if forall i :: 0 <= i < |walk| ==> id in walk[i].store {
      WalkIsComplete(None, walk, id, Before);
    }
  }

  /** On a fixed store the pages are the sorted list, in as many pages as its length over the size rounded up. */
  lemma FixedStoreIsCutUp(ids: seq<string>, size: nat, walk: seq<Request<string>>)
    requires Walk(None, walk, Before) && size >= 1
    requires OnStore(walk, ids, size)
    ensures Returned(walk) == Sort(ids, Before)
    ensures |walk| == PageCount(|ids|, size)
  {
    BeforeIsTotal();
    FixedStorePages(None, ids, size, walk, Before);
    NoCursorShowsAll(ids);
  }

  lemma NoCursorShowsAll(ids: seq<string>)
    ensures Rest(ids, None, Before) == Sort(ids, Before)
    ensures |Sort(ids, Before)| == |ids|
  {
    FirstAfterUnique(Sort(ids, Before), None, Before, 0);
    SortPermutes(ids, Before);
  }

  /** A token beyond every id gives the empty last page, never the first one again. */
  lemma StaleTokenEndsTheWalk(ids: seq<string>, cursor: string)
    requires Distinct(ids) && forall id :: id in ids ==> !Before(cursor, id)
    ensures Rest(ids, Some(cursor), Before) == []
  {
    BeforeIsTotal();
    RestIsBeyond(ids, Some(cursor), Before);
    SomeMember(Rest(ids, Some(cursor), Before));
  }

  lemma SomeMember(ids: seq<string>)
    ensures ids != [] ==> exists id :: id in ids
  {
    if ids != [] {
      assert ids[0] in ids;
    }
  }
}
