/**
 * The wiki tool against the service: folding search pages, resolving a title,
 * and wiki_write's preflight and commit loops.
 */
module WikiTool {
  import opened StoreSeam
  import opened Wrappers
  import opened Texts
  import opened ResourceNames
  import opened WikiPlan

  const SEARCH_PAGE_SIZE: nat := 100

  datatype Summary = Summary(name: string, title: string)

  /** One search reply; an empty token ends the walk. */
  datatype Page = Page(hits: seq<Summary>, nextPageToken: string)

  // ------------------------------------------------------------- search pages

  function Joined(pages: seq<Page>): seq<Summary> {
    if pages == [] then [] else Joined(pages[..|pages| - 1]) + pages[|pages| - 1].hits
  }

  predicate DistinctNames(hits: seq<Summary>) {
    forall i, j :: 0 <= i < j < |hits| ==> hits[i].name != hits[j].name
  }

  predicate Named(hits: seq<Summary>, name: string) {
    exists i :: 0 <= i < |hits| && hits[i].name == name
  }

  /** The hits without those named before. */
  function FirstByName(hits: seq<Summary>): seq<Summary> {
    if hits == [] then []
    else
      var r := FirstByName(hits[..|hits| - 1]);
      if Named(r, hits[|hits| - 1].name) then r else r + [hits[|hits| - 1]]
  }

  lemma {:induction false} NamedSnoc(hits: seq<Summary>, h: Summary)
    ensures forall name :: Named(hits + [h], name) <==> Named(hits, name) || name == h.name
  {
    forall name ensures Named(hits + [h], name) <==> Named(hits, name) || name == h.name {
      if Named(hits, name) {
        var i :| 0 <= i < |hits| && hits[i].name == name;
        assert (hits + [h])[i].name == name;
      }
      assert (hits + [h])[|hits|] == h;
    }
  }

  /** Every name is kept, once, with one of its own hits. */
  lemma {:induction false} EachNameOnce(hits: seq<Summary>)
    ensures DistinctNames(FirstByName(hits))
    ensures forall h :: h in FirstByName(hits) ==> h in hits
    ensures forall h :: h in hits ==> Named(FirstByName(hits), h.name)
    decreases |hits|
  {
    if hits != [] {
      var init, last := hits[..|hits| - 1], hits[|hits| - 1];
      EachNameOnce(init);
      assert hits == init + [last];
      NamedSnoc(FirstByName(init), last);
    }
  }

  /** The walk's replies: every one but the last carries a token. */
  predicate IsWalk(pages: seq<Page>) {
    && pages != []
    && pages[|pages| - 1].nextPageToken == ""
    && forall i :: 0 <= i < |pages| - 1 ==> pages[i].nextPageToken != ""
  }

  /** Pages with more to follow, none longer than asked for. */
  predicate Full(pages: seq<Page>) {
    forall i :: 0 <= i < |pages| ==> pages[i].nextPageToken != "" && |pages[i].hits| <= SEARCH_PAGE_SIZE
  }

  lemma JoinedMore(pages: seq<Page>, page: Page)
    ensures Joined(pages + [page]) == Joined(pages) + page.hits
  {
    assert (pages + [page])[..|pages|] == pages;
  }

  lemma JoinedSnoc(pages: seq<Page>, i: nat)
    requires i < |pages|
    ensures Joined(pages[..i + 1]) == Joined(pages[..i]) + pages[i].hits
  {
    assert pages[..i + 1][..i] == pages[..i];
  }

  lemma {:induction false} FirstByNameSnoc(hits: seq<Summary>, h: Summary)
    ensures FirstByName(hits + [h]) ==
            if Named(FirstByName(hits), h.name) then FirstByName(hits) else FirstByName(hits) + [h]
  {
    assert (hits + [h])[..|hits|] == hits;
  }

  ghost predicate NamesOf(seen: set<string>, hits: seq<Summary>) {
    forall name :: name in seen <==> Named(hits, name)
  }

  lemma {:induction false} PageSnoc(before: seq<Summary>, page: seq<Summary>, k: nat)
    requires k < |page|
    ensures var r := FirstByName(before + page[..k]);
            FirstByName(before + page[..k + 1]) == if Named(r, page[k].name) then r else r + [page[k]]
  {
    assert before + page[..k + 1] == (before + page[..k]) + [page[k]];
    FirstByNameSnoc(before + page[..k], page[k]);
  }

  /** Add one page's hits to those folded so far. */
  method AddPage(hits: seq<Summary>, seen: set<string>, page: seq<Summary>, ghost before: seq<Summary>)
    returns (more: seq<Summary>, known: set<string>)
    requires hits == FirstByName(before) && NamesOf(seen, hits)
    ensures more == FirstByName(before + page) && NamesOf(known, more)
  {
    more, known := hits, seen;
    assert before + page[..0] == before;
    for k := 0 to |page|
      invariant more == FirstByName(before + page[..k]) && NamesOf(known, more)
    {
      PageSnoc(before, page, k);
      if page[k].name !in known {
        NamedSnoc(more, page[k]);
        known := known + {page[k].name};
        more := more + [page[k]];
      }
    }
    assert page[..|page|] == page;
  }

  /** Fold all pages of one walk, keeping each name once. */
  method SearchAll(pages: seq<Page>) returns (hits: seq<Summary>)
    requires IsWalk(pages)
    ensures hits == FirstByName(Joined(pages))
  {
    hits := [];
    var seen: set<string> := {};
    var i := 0;
    var more := true;
    while more
      invariant i <= |pages| && (more ==> i < |pages|) && (!more ==> i == |pages|)
      invariant hits == FirstByName(Joined(pages[..i])) && NamesOf(seen, hits)
      decreases |pages| - i
    {
      JoinedSnoc(pages, i);
      hits, seen := AddPage(hits, seen, pages[i].hits, Joined(pages[..i]));
      more := pages[i].nextPageToken != "";
      i := i + 1;
    }
    assert pages[..i] == pages;
  }

  // ----------------------------------------------------------------- resolving

  /** Every id of the collection is a terminal segment of its own. */
  predicate SlashFree(s: Wikis) {
    forall id :: id in s ==> '/' !in id
  }

  /** The service's search: the normalised title contains the normalised query. */
  predicate Matches(s: Wikis, id: string, query: string, norm: string -> string) {
    id in s && Includes(norm(s[id].title), norm(query))
  }

  function HitOn(s: Wikis, template: string, id: string): Summary
    requires id in s
  {
    Summary(WikiName(template, id), s[id].title)
  }

  ghost predicate IsHit(h: Summary, s: Wikis, template: string, query: string, norm: string -> string) {
    exists id :: Matches(s, id, query, norm) && h == HitOn(s, template, id)
  }

  /** The hits are the matching entries, in some order, perhaps repeated. */
  ghost predicate Answers(hits: seq<Summary>, s: Wikis, template: string, query: string, norm: string -> string) {
    && (forall i :: 0 <= i < |hits| ==> IsHit(hits[i], s, template, query, norm))
    && (forall id :: Matches(s, id, query, norm) ==> HitOn(s, template, id) in hits)
  }

  lemma IncludesItself(t: string)
    ensures Includes(t, t)
  {
    assert IncludesAt(t, t, 0);
  }

  /** Dropping repeated names keeps an answer an answer. */
  lemma {:induction false} AnswersOnce(hits: seq<Summary>, s: Wikis, template: string, query: string,
                                       norm: string -> string)
    requires Answers(hits, s, template, query, norm) && SlashFree(s)
    ensures Answers(FirstByName(hits), s, template, query, norm)
  {
    EachNameOnce(hits);
    var r := FirstByName(hits);
    forall i | 0 <= i < |r| ensures IsHit(r[i], s, template, query, norm) {
      assert r[i] in r;
      var j :| 0 <= j < |hits| && hits[j] == r[i];
    }
    forall id | Matches(s, id, query, norm) ensures HitOn(s, template, id) in r {
      var wanted := HitOn(s, template, id);
      assert wanted in hits;
      var i :| 0 <= i < |r| && r[i].name == wanted.name;
      SameNameSameHit(hits, s, template, query, norm, r[i], id);
    }
  }

  lemma {:induction false} SameNameSameHit(hits: seq<Summary>, s: Wikis, template: string, query: string,
                                           norm: string -> string, h: Summary, id: string)
    requires Answers(hits, s, template, query, norm) && SlashFree(s) && h in hits
    requires id in s && h.name == WikiName(template, id)
    ensures h == HitOn(s, template, id)
  {
    AnswerIsHit(hits, s, template, query, norm, h);
    ParseWikiName(template, id);
  }

  /** A hit with the wanted normalised title is the entry carrying it, and there is one if any entry does. */
  lemma {:induction false} ExactHit(hits: seq<Summary>, s: Wikis, template: string, title: string, norm: string -> string)
    requires Answers(hits, s, template, norm(title), norm) && SlashFree(s) && Idempotent(norm)
    ensures forall h :: h in hits && norm(h.title) == norm(title) ==> Carries(s, ParseName(h.name), norm(title), norm)
    ensures HasTitle(s, norm(title), norm) ==> exists h :: h in hits && norm(h.title) == norm(title)
  {
    forall h | h in hits ensures HitOf(s, template, h) {
      AnswerIsHit(hits, s, template, norm(title), norm, h);
    }
    if HasTitle(s, norm(title), norm) {
      var id :| id in s && Carries(s, id, norm(title), norm);
      IncludesItself(norm(title));
      assert Matches(s, id, norm(title), norm);
    }
  }

  /** The hit shows an entry of the collection under that entry's own name. */
  predicate HitOf(s: Wikis, template: string, h: Summary) {
    ParseName(h.name) in s && h.title == s[ParseName(h.name)].title
  }

  lemma {:induction false} AnswerIsHit(hits: seq<Summary>, s: Wikis, template: string, query: string,
                                       norm: string -> string, h: Summary)
    requires Answers(hits, s, template, query, norm) && SlashFree(s) && h in hits
    ensures HitOf(s, template, h)
  {
    var i :| 0 <= i < |hits| && hits[i] == h;
    assert IsHit(hits[i], s, template, query, norm);
    var id :| Matches(s, id, query, norm) && hits[i] == HitOn(s, template, id);
    ParseWikiName(template, id);
  }

  // ------------------------------------------------------------------- service

  class WikiService {
    const template: string
    const norm: string -> string
    var wikis: Wikis

    constructor (template: string, norm: string -> string)
      ensures this.template == template && this.norm == norm && wikis == map[]
    {
      this.template, this.norm, wikis := template, norm, map[];
    }

    /** One more hit on the current page, or on a fresh one when that is full. */
    method AddHit(pages: seq<Page>, page: seq<Summary>, hit: Summary) returns (sent: seq<Page>, rest: seq<Summary>)
      requires |page| <= SEARCH_PAGE_SIZE && Full(pages)
      ensures |rest| <= SEARCH_PAGE_SIZE && Full(sent)
      ensures Joined(sent) + rest == Joined(pages) + page + [hit]
    {
      if |page| == SEARCH_PAGE_SIZE {
        JoinedMore(pages, Page(page, "next"));
        return pages + [Page(page, "next")], [hit];
      }
      return pages, page + [hit];
    }

    /** The replies to one walk over the search results, page by page; or an outage. */
    method SearchWikis(query: string) returns (r: Result<seq<Page>, RpcError>)
      ensures r.Ok? ==> IsWalk(r.value) && Answers(Joined(r.value), wikis, template, query, norm)
      ensures r.Ok? ==> forall i :: 0 <= i < |r.value| ==> |r.value[i].hits| <= SEARCH_PAGE_SIZE
    {
      var down: bool := *;
      if down {
        return Err(Outage);
      }
      var all := wikis;
      var pages: seq<Page> := [];
      var page: seq<Summary> := [];
      ghost var sent: seq<Summary> := [];
      var rest := all.Keys;
      while rest != {}
        invariant rest <= all.Keys && |page| <= SEARCH_PAGE_SIZE && sent == Joined(pages) + page
        invariant Full(pages)
        invariant Answers(sent, all - rest, template, query, norm)
        decreases |rest|
      {
        var id :| id in rest;
        if Includes(norm(all[id].title), norm(query)) {
          var hit := HitOn(all, template, id);
          AnswerOneMore(sent, all, rest, id, template, query, norm);
          sent := sent + [hit];
          pages, page := AddHit(pages, page, hit);
        } else {
          AnswerNoMore(sent, all, rest, id, template, query, norm);
        }
        rest := rest - {id};
      }
      assert all - {} == all;
      JoinedMore(pages, Page(page, ""));
      r := Ok(pages + [Page(page, "")]);
    }

    /** One write: the service may reject it, or the call may fail before or after taking effect. */
    method Perform(w: WikiWrite) returns (r: Result<(), RpcError>)
      modifies `wikis
      ensures r.Ok? ==> Apply(old(wikis), w, norm) == Some(wikis)
      ensures r.Err? && r.error != Outage ==> Apply(old(wikis), w, norm).None? && wikis == old(wikis)
      ensures r == Err(NotFound) ==> !w.CreateWiki?
      ensures r == Err(Outage) ==> wikis == old(wikis) || Apply(old(wikis), w, norm) == Some(wikis)
    {
      var down, late: bool := *, *;
      var after := Apply(wikis, w, norm);
      if down {
        if late && after.Some? {
          wikis := after.value;
        }
        return Err(Outage);
      }
      if after.None? {
        return Err(if w.CreateWiki? then AlreadyExists else NotFound);
      }
      wikis := after.value;
      r := Ok(());
    }
  }

  /** A larger collection keeps the hits. */
  lemma {:induction false} StillAHit(h: Summary, s: Wikis, t: Wikis, template: string, query: string,
                                     norm: string -> string)
    requires IsHit(h, s, template, query, norm)
    requires forall id :: id in s ==> id in t && t[id] == s[id]
    ensures IsHit(h, t, template, query, norm)
  {
    var id :| Matches(s, id, query, norm) && h == HitOn(s, template, id);
    assert Matches(t, id, query, norm) && h == HitOn(t, template, id);
  }

  lemma {:induction false} AnswerOneMore(hits: seq<Summary>, s: Wikis, rest: set<string>, id: string, template: string,
                                         query: string, norm: string -> string)
    requires id in rest && rest <= s.Keys && Matches(s, id, query, norm)
    requires Answers(hits, s - rest, template, query, norm)
    ensures Answers(hits + [HitOn(s, template, id)], s - (rest - {id}), template, query, norm)
  {
    var longer, t := hits + [HitOn(s, template, id)], s - (rest - {id});
    forall i | 0 <= i < |longer| ensures IsHit(longer[i], t, template, query, norm) {
      if i < |hits| {
        StillAHit(hits[i], s - rest, t, template, query, norm);
      } else {
        assert Matches(t, id, query, norm) && longer[i] == HitOn(t, template, id);
      }
    }
    forall x | Matches(t, x, query, norm) ensures HitOn(t, template, x) in longer {
      if x == id {
        assert longer[|hits|] == HitOn(t, template, x);
      } else {
        assert Matches(s - rest, x, query, norm);
      }
    }
  }

  lemma {:induction false} AnswerNoMore(hits: seq<Summary>, s: Wikis, rest: set<string>, id: string, template: string,
                                        query: string, norm: string -> string)
    requires id in rest && rest <= s.Keys && !Matches(s, id, query, norm)
    requires Answers(hits, s - rest, template, query, norm)
    ensures Answers(hits, s - (rest - {id}), template, query, norm)
  {
    var t := s - (rest - {id});
    forall i | 0 <= i < |hits| ensures IsHit(hits[i], t, template, query, norm) {
      StillAHit(hits[i], s - rest, t, template, query, norm);
    }
    forall x | Matches(t, x, query, norm) ensures HitOn(t, template, x) in hits {
      assert Matches(s - rest, x, query, norm);
      assert HitOn(s - rest, template, x) == HitOn(t, template, x);
    }
  }

  /** Every match of a query, each named once. */
  method SearchTitles(service: WikiService, query: string) returns (r: Result<seq<Summary>, RpcError>)
    requires SlashFree(service.wikis)
    ensures r.Ok? ==> DistinctNames(r.value)
                      && Answers(r.value, service.wikis, service.template, query, service.norm)
  {
    var pages := service.SearchWikis(query);
    if pages.Err? {
      return Err(pages.error);
    }
    var hits := SearchAll(pages.value);
    EachNameOnce(Joined(pages.value));
    AnswersOnce(Joined(pages.value), service.wikis, service.template, query, service.norm);
    r := Ok(hits);
  }

  /** Resolve a title to the entry carrying its normalised form. */
  method ResolveWiki(service: WikiService, title: string) returns (r: Result<Option<Summary>, RpcError>)
    requires SlashFree(service.wikis) && Idempotent(service.norm)
    ensures r.Ok? ==> (r.value.Some? <==> HasTitle(service.wikis, service.norm(title), service.norm))
    ensures r.Ok? && r.value.Some? ==>
              Carries(service.wikis, ParseName(r.value.value.name), service.norm(title), service.norm)
  {
    var norm := service.norm(title);
    var hits := SearchTitles(service, norm);
    if hits.Err? {
      return Err(hits.error);
    }
    ExactHit(hits.value, service.wikis, service.template, title, service.norm);
    var found := FirstTitled(hits.value, norm, service.norm);
    if found.Some? {
      assert Carries(service.wikis, ParseName(found.value.name), norm, service.norm);
      assert HasTitle(service.wikis, norm, service.norm);
    }
    r := Ok(found);
  }

  method FirstTitled(hits: seq<Summary>, n: string, norm: string -> string) returns (r: Option<Summary>)
    ensures r.Some? ==> r.value in hits && norm(r.value.title) == n
    ensures r.None? ==> forall h :: h in hits ==> norm(h.title) != n
  {
    for i := 0 to |hits|
      invariant forall j :: 0 <= j < i ==> norm(hits[j].title) != n
    {
      if norm(hits[i].title) == n {
        return Some(hits[i]);
      }
    }
    r := None;
  }
}
