/**
 * wiki_write as a plan: upserts addressed by normalised title, resolved against
 * the collection before any write, and committed one by one.
 *
 * `norm` stands for NFKC followed by lower-casing, `digest` for the truncated
 * SHA-256 of a normalised title.
 */
module WikiPlan {
  import opened StoreSeam
  import opened Wrappers
  import opened Texts

  const TITLE_MAX_RUNES: nat := 128
  const CONTENT_MAX_BYTES: nat := 65536

  datatype Wiki = Wiki(title: string, content: string)

  /** One template's collection, by wiki id. */
  type Wikis = map<string, Wiki>

  datatype WriteEntry = WriteEntry(title: Option<string>, content: Option<string>)

  /** An entry as it is written: its title trimmed, its content as given. */
  datatype Item = Item(title: string, content: string)

  datatype Reason = TitleRequired | TitleTooLong | ContentRequired | ContentTooLong

  datatype WikiWrite =
    | CreateWiki(id: string, title: string, content: string)
    | UpdateWiki(id: string, title: string, content: string)

  datatype Plan = Plan(writes: seq<WikiWrite>, planned: map<string, string>)

  function Utf8Bytes(s: string): nat {
    if s == "" then 0
    else
      var c := s[|s| - 1] as int;
      Utf8Bytes(s[..|s| - 1]) + (if c < 0x80 then 1 else if c < 0x800 then 2 else if c < 0x10000 then 3 else 4)
  }

  function ItemOf(e: WriteEntry): Item {
    Item(Trim(e.title.GetOr(""), JsTrim), e.content.GetOr(""))
  }

  /** Why an item is refused, if it is; a content is blank when trimming leaves nothing of it. */
  function Refusal(item: Item): Option<Reason> {
    if item.title == "" then Some(TitleRequired)
    else if |item.title| > TITLE_MAX_RUNES then Some(TitleTooLong)
    else if Blank(item.content, JsTrim) then Some(ContentRequired)
    else if Utf8Bytes(item.content) > CONTENT_MAX_BYTES then Some(ContentTooLong)
    else None
  }

  /** An item is accepted exactly with a title of 1 to 128 runes and a content that shows and fits 64 KiB. */
  lemma AcceptedIff(item: Item)
    ensures Refusal(item).None? <==>
              && 1 <= |item.title| <= 128
              && (exists i :: 0 <= i < |item.content| && !Strips(JsTrim, item.content[i]))
              && Trim(item.content, JsTrim) != "" && Utf8Bytes(item.content) <= 64 * 1024
  {
    TrimsToNothing(item.content, JsTrim);
  }

  // ------------------------------------------------------------ the collection

  /** The entry `id` carries the normalised title `n`. */
  predicate Carries(s: Wikis, id: string, n: string, norm: string -> string) {
    id in s && norm(s[id].title) == n
  }

  predicate HasTitle(s: Wikis, n: string, norm: string -> string) {
    exists id :: id in s && Carries(s, id, n, norm)
  }

  /** No two items share a normalised title. */
  ghost predicate UniqueTitles(s: Wikis, norm: string -> string) {
    forall i, j :: i in s && j in s && norm(s[i].title) == norm(s[j].title) ==> i == j
  }

  ghost predicate Idempotent(norm: string -> string) {
    forall t :: norm(norm(t)) == norm(t)
  }

  /** What the service does with one write; the title of an existing entry never changes. */
  function Apply(s: Wikis, w: WikiWrite, norm: string -> string): Option<Wikis> {
    match w
    case CreateWiki(id, title, content) =>
      if id in s || HasTitle(s, norm(title), norm) then None else Some(s[id := Wiki(title, content)])
    case UpdateWiki(id, _, content) =>
      if id in s then Some(s[id := Wiki(s[id].title, content)]) else None
  }

  ghost function Replay(s: Wikis, writes: seq<WikiWrite>, norm: string -> string): Option<Wikis> {
    if writes == [] then Some(s)
    else
      var t := Replay(s, writes[..|writes| - 1], norm);
      if t.None? then None else Apply(t.value, writes[|writes| - 1], norm)
  }

  // ------------------------------------------------------------------- upserts

  /** The entry carrying a normalised title, if there is one. */
  ghost function Resolved(s: Wikis, n: string, norm: string -> string): (r: Option<string>)
    ensures r.Some? <==> HasTitle(s, n, norm)
    ensures r.Some? ==> Carries(s, r.value, n, norm)
  {
    if HasTitle(s, n, norm) then
      var id :| id in s && Carries(s, id, n, norm);
      Some(id)
    else None
  }

  /** Upsert by normalised title: the last content wins, a new title gets its digest as id. */
  ghost function Upsert(s: Wikis, e: Item, norm: string -> string, digest: string -> string): Wikis {
    var n := norm(e.title);
    var hit := Resolved(s, n, norm);
    if hit.Some? then s[hit.value := Wiki(s[hit.value].title, e.content)]
    else s[digest(n) := Wiki(e.title, e.content)]
  }

  ghost function UpsertAll(s: Wikis, items: seq<Item>, norm: string -> string, digest: string -> string): Wikis {
    if items == [] then s
    else Upsert(UpsertAll(s, items[..|items| - 1], norm, digest), items[|items| - 1], norm, digest)
  }

  // ------------------------------------------------------------------ planning

  /** One valid entry's planning: a title planned before is updated, others are resolved on the collection. */
  ghost function PlanEntry(p: Plan, s: Wikis, e: Item, norm: string -> string, digest: string -> string): Plan {
    var title, n := e.title, norm(e.title);
    if n in p.planned then p.(writes := p.writes + [UpdateWiki(p.planned[n], title, e.content)])
    else
      var hit := Resolved(s, n, norm);
      if hit.None? then
        Plan(p.writes + [CreateWiki(digest(n), title, e.content)], p.planned[n := digest(n)])
      else
        Plan(p.writes + [UpdateWiki(hit.value, title, e.content)], p.planned[n := hit.value])
  }

  ghost function PlanAll(s: Wikis, items: seq<Item>, norm: string -> string, digest: string -> string): Plan {
    if items == [] then Plan([], map[])
    else PlanEntry(PlanAll(s, items[..|items| - 1], norm, digest), s, items[|items| - 1], norm, digest)
  }

  /** Some entry has the normalised title `n`. */
  predicate Mentions(items: seq<Item>, n: string, norm: string -> string) {
    exists i :: 0 <= i < |items| && norm(items[i].title) == n
  }

  /** Writing the title `n` needs no create, or one with an unused id. */
  ghost predicate HasFreeId(s: Wikis, n: string, norm: string -> string, digest: string -> string) {
    HasTitle(s, n, norm) || digest(n) !in s
  }

  /** The ids the creates would take are unused. */
  ghost predicate FreeIds(s: Wikis, items: seq<Item>, norm: string -> string, digest: string -> string) {
    forall i :: 0 <= i < |items| ==>
      HasFreeId(s, norm(items[i].title), norm, digest)
  }

  /** How the plan, the collection `s` it was made on and the upserted collection `t` fit together. */
  ghost predicate Fits(p: Plan, s: Wikis, t: Wikis, items: seq<Item>, norm: string -> string,
                       digest: string -> string) {
    && UniqueTitles(t, norm)
    && (forall n :: n in p.planned <==> Mentions(items, n, norm))
    && (forall n :: n in p.planned ==> HasFreeId(s, n, norm, digest))
    && PlannedCarried(p, s, t, norm)
    && OldTitlesKept(p, s, t, norm, digest)
  }

  /** Each planned id carries its title; the titles not planned are those of `s`. */
  ghost predicate PlannedCarried(p: Plan, s: Wikis, t: Wikis, norm: string -> string) {
    && (forall n :: n in p.planned ==> Carries(t, p.planned[n], n, norm))
    && (forall n :: n !in p.planned ==> (HasTitle(t, n, norm) <==> HasTitle(s, n, norm)))
  }

  /** No entry of `s` went or changed its title; a new one has the digest of a planned title as its id. */
  ghost predicate OldTitlesKept(p: Plan, s: Wikis, t: Wikis, norm: string -> string, digest: string -> string) {
    && (forall id :: id in s ==> id in t && t[id].title == s[id].title)
    && (forall id :: id in t && id !in s ==> id == digest(norm(t[id].title)) && norm(t[id].title) in p.planned)
  }

  lemma {:induction false} MentionsSnoc(items: seq<Item>, n: string, norm: string -> string)
    requires items != []
    ensures Mentions(items, n, norm) <==>
              Mentions(items[..|items| - 1], n, norm) || n == norm(items[|items| - 1].title)
  {
    var init := items[..|items| - 1];
    if Mentions(items, n, norm) {
      var i :| 0 <= i < |items| && norm(items[i].title) == n;
      assert i < |init| ==> norm(init[i].title) == n;
    }
    if Mentions(init, n, norm) {
      var i :| 0 <= i < |init| && norm(init[i].title) == n;
      assert norm(items[i].title) == n;
    }
  }

  /** Updating the entry that carries a title is the upsert, and keeps every title. */
  lemma {:induction false} UpdateIsUpsert(t: Wikis, id: string, e: Item, norm: string -> string,
                                          digest: string -> string)
    requires UniqueTitles(t, norm) && Carries(t, id, norm(e.title), norm)
    ensures Apply(t, UpdateWiki(id, e.title, e.content), norm) == Some(Upsert(t, e, norm, digest))
    ensures var u := Upsert(t, e, norm, digest);
            u.Keys == t.Keys && forall i :: i in t ==> u[i].title == t[i].title
  {
    assert HasTitle(t, norm(e.title), norm);
    assert Resolved(t, norm(e.title), norm) == Some(id);
  }

  lemma {:induction false} SameTitlesFit(p: Plan, q: Plan, s: Wikis, t: Wikis, u: Wikis, items: seq<Item>,
                                         norm: string -> string, digest: string -> string)
    requires items != [] && Fits(p, s, t, items[..|items| - 1], norm, digest)
    requires u.Keys == t.Keys && forall i :: i in t ==> u[i].title == t[i].title
    requires var n := norm(items[|items| - 1].title);
             q.planned.Keys == p.planned.Keys + {n}
             && (forall m :: m in p.planned ==> q.planned[m] == p.planned[m])
             && Carries(t, q.planned[n], n, norm) && HasFreeId(s, n, norm, digest)
    ensures Fits(q, s, u, items, norm, digest)
  {
    var n := norm(items[|items| - 1].title);
    forall m ensures HasTitle(u, m, norm) <==> HasTitle(t, m, norm) {
      assert forall i :: i in t ==> (Carries(u, i, m, norm) <==> Carries(t, i, m, norm));
    }
    forall m ensures m in q.planned <==> Mentions(items, m, norm) {
      MentionsSnoc(items, m, norm);
    }
    forall m | m in q.planned ensures Carries(u, q.planned[m], m, norm) {
      assert Carries(t, q.planned[m], m, norm);
    }
  }

  lemma {:induction false} CreateKeepsTitles(t: Wikis, id: string, wiki: Wiki, norm: string -> string)
    requires UniqueTitles(t, norm) && id !in t && !HasTitle(t, norm(wiki.title), norm)
    ensures UniqueTitles(t[id := wiki], norm)
    ensures forall m :: HasTitle(t[id := wiki], m, norm) <==> HasTitle(t, m, norm) || m == norm(wiki.title)
  {
    var u := t[id := wiki];
    assert forall i :: i in t ==> !Carries(t, i, norm(wiki.title), norm);
    assert Carries(u, id, norm(wiki.title), norm);
    forall m ensures HasTitle(u, m, norm) <==> HasTitle(t, m, norm) || m == norm(wiki.title) {
      assert forall i :: i in t ==> (Carries(u, i, m, norm) <==> Carries(t, i, m, norm));
    }
  }

  lemma {:induction false} CreateCarries(p: Plan, q: Plan, s: Wikis, t: Wikis, id: string, wiki: Wiki,
                                         norm: string -> string)
    requires PlannedCarried(p, s, t, norm) && UniqueTitles(t, norm)
    requires id !in t && !HasTitle(t, norm(wiki.title), norm) && q.planned == p.planned[norm(wiki.title) := id]
    ensures PlannedCarried(q, s, t[id := wiki], norm)
    ensures UniqueTitles(t[id := wiki], norm)
  {
    CreateKeepsTitles(t, id, wiki, norm);
    forall m | m in q.planned ensures Carries(t[id := wiki], q.planned[m], m, norm) {
      if m != norm(wiki.title) {
        assert Carries(t, p.planned[m], m, norm);
      }
    }
  }

  lemma {:induction false} CreateKeepsOld(p: Plan, q: Plan, s: Wikis, t: Wikis, wiki: Wiki, norm: string -> string,
                                          digest: string -> string)
    requires OldTitlesKept(p, s, t, norm, digest)
    requires var n := norm(wiki.title);
             digest(n) !in t && q.planned == p.planned[n := digest(n)]
    ensures OldTitlesKept(q, s, t[digest(norm(wiki.title)) := wiki], norm, digest)
  {
  }

  lemma {:induction false} CreateFits(p: Plan, q: Plan, s: Wikis, t: Wikis, items: seq<Item>, norm: string -> string,
                                      digest: string -> string)
    requires items != [] && Fits(p, s, t, items[..|items| - 1], norm, digest)
    requires var n := norm(items[|items| - 1].title);
             && !HasTitle(t, n, norm) && digest(n) !in t
             && q.planned == p.planned[n := digest(n)]
    ensures var e := items[|items| - 1];
            Fits(q, s, t[digest(norm(e.title)) := Wiki(e.title, e.content)], items, norm, digest)
  {
    var e := items[|items| - 1];
    var n := norm(e.title);
    CreateCarries(p, q, s, t, digest(n), Wiki(e.title, e.content), norm);
    CreateKeepsOld(p, q, s, t, Wiki(e.title, e.content), norm, digest);
    forall m ensures m in q.planned <==> Mentions(items, m, norm) {
      MentionsSnoc(items, m, norm);
    }
  }

  // ------------------------------------------------------------ the main result

  /** The writes the plan queues for the items, one for each. */
  lemma {:induction false} PlanIsPrefixwise(s: Wikis, items: seq<Item>, k: nat, norm: string -> string,
                                            digest: string -> string)
    requires k <= |items|
    ensures |PlanAll(s, items, norm, digest).writes| == |items|
    ensures PlanAll(s, items, norm, digest).writes[..k] == PlanAll(s, items[..k], norm, digest).writes
    decreases |items|
  {
    if k == |items| {
      assert items[..k] == items;
      if items != [] {
        PlanIsPrefixwise(s, items[..k - 1], k - 1, norm, digest);
      }
    } else {
      var init := items[..|items| - 1];
      assert init[..k] == items[..k];
      PlanIsPrefixwise(s, init, k, norm, digest);
    }
  }

  lemma {:induction false} EmptyFits(s: Wikis, norm: string -> string, digest: string -> string)
    requires UniqueTitles(s, norm)
    ensures Fits(Plan([], map[]), s, s, [], norm, digest)
  {
  }

  lemma {:induction false} ItemUpdates(p: Plan, q: Plan, s: Wikis, t: Wikis, id: string, items: seq<Item>,
                                       norm: string -> string, digest: string -> string)
    requires items != [] && Fits(p, s, t, items[..|items| - 1], norm, digest)
    requires var n := norm(items[|items| - 1].title);
             && Carries(t, id, n, norm) && HasFreeId(s, n, norm, digest)
             && q.planned == p.planned[n := id] && (n in p.planned ==> p.planned[n] == id)
    ensures var e := items[|items| - 1];
            && Apply(t, UpdateWiki(id, e.title, e.content), norm) == Some(Upsert(t, e, norm, digest))
            && Fits(q, s, Upsert(t, e, norm, digest), items, norm, digest)
  {
    var e := items[|items| - 1];
    UpdateIsUpsert(t, id, e, norm, digest);
    SameTitlesFit(p, q, s, t, Upsert(t, e, norm, digest), items, norm, digest);
  }

  /** One item: performing its write on the upserted collection is its upsert. */
  lemma {:induction false} ItemStep(p: Plan, s: Wikis, t: Wikis, items: seq<Item>, norm: string -> string,
                                    digest: string -> string)
    requires items != [] && UniqueTitles(s, norm) && Injective(digest)
    requires Fits(p, s, t, items[..|items| - 1], norm, digest)
    ensures var e := items[|items| - 1];
            var q := PlanEntry(p, s, e, norm, digest);
            && |q.writes| == |p.writes| + 1 && q.writes == p.writes + [q.writes[|p.writes|]]
            && var done := Apply(t, q.writes[|p.writes|], norm);
            && (done.Some? <==> HasFreeId(s, norm(e.title), norm, digest))
            && (done.Some? ==> done.value == Upsert(t, e, norm, digest) && Fits(q, s, done.value, items, norm, digest))
  {
    var e := items[|items| - 1];
    var n := norm(e.title);
    var q := PlanEntry(p, s, e, norm, digest);
    if n in p.planned {
      assert Carries(t, p.planned[n], n, norm);
      ItemUpdates(p, q, s, t, p.planned[n], items, norm, digest);
    } else if HasTitle(s, n, norm) {
      var id := Resolved(s, n, norm).value;
      assert Carries(s, id, n, norm);
      assert Carries(t, id, n, norm);
      ItemUpdates(p, q, s, t, id, items, norm, digest);
    } else {
      assert digest(n) in t <==> digest(n) in s;
      if digest(n) !in s {
        CreateFits(p, q, s, t, items, norm, digest);
      }
    }
  }

  /**
   * Committing a plan succeeds exactly when the ids of its creates are unused,
   * and then it is the fold of upserts by normalised title.
   */
  lemma {:induction false} WriteIsUpsertFold(s: Wikis, items: seq<Item>, norm: string -> string, digest: string -> string)
    requires UniqueTitles(s, norm) && Injective(digest)
    ensures var plan := PlanAll(s, items, norm, digest);
            && |plan.writes| == |items|
            && (Replay(s, plan.writes, norm).Some? <==> FreeIds(s, items, norm, digest))
            && (Replay(s, plan.writes, norm).Some? ==>
                  && Replay(s, plan.writes, norm).value == UpsertAll(s, items, norm, digest)
                  && Fits(plan, s, UpsertAll(s, items, norm, digest), items, norm, digest))
    decreases |items|
  {
    if items == [] {
      EmptyFits(s, norm, digest);
    } else {
      var init := items[..|items| - 1];
      WriteIsUpsertFold(s, init, norm, digest);
      FreeIdsSnoc(s, items, norm, digest);
      var p := PlanAll(s, init, norm, digest);
      if Replay(s, p.writes, norm).Some? {
        FoldStep(p, s, UpsertAll(s, init, norm, digest), items, norm, digest);
      } else {
        NothingAfterFailure(p, s, items[|items| - 1], norm, digest);
      }
    }
  }

  lemma {:induction false} FoldStep(p: Plan, s: Wikis, t: Wikis, items: seq<Item>, norm: string -> string,
                                    digest: string -> string)
    requires items != [] && UniqueTitles(s, norm) && Injective(digest)
    requires Replay(s, p.writes, norm) == Some(t) && Fits(p, s, t, items[..|items| - 1], norm, digest)
    ensures var e := items[|items| - 1];
            var q := PlanEntry(p, s, e, norm, digest);
            && |q.writes| == |p.writes| + 1
            && (Replay(s, q.writes, norm).Some? <==> HasFreeId(s, norm(e.title), norm, digest))
            && (Replay(s, q.writes, norm).Some? ==>
                  Replay(s, q.writes, norm).value == Upsert(t, e, norm, digest)
                  && Fits(q, s, Upsert(t, e, norm, digest), items, norm, digest))
  {
    var q := PlanEntry(p, s, items[|items| - 1], norm, digest);
    ItemStep(p, s, t, items, norm, digest);
    assert q.writes[..|q.writes| - 1] == p.writes;
  }

  lemma {:induction false} NothingAfterFailure(p: Plan, s: Wikis, e: Item, norm: string -> string,
                                               digest: string -> string)
    requires Replay(s, p.writes, norm).None?
    ensures |PlanEntry(p, s, e, norm, digest).writes| == |p.writes| + 1
    ensures Replay(s, PlanEntry(p, s, e, norm, digest).writes, norm).None?
  {
    var q := PlanEntry(p, s, e, norm, digest);
    assert q.writes[..|q.writes| - 1] == p.writes;
  }

  lemma {:induction false} FreeIdsSnoc(s: Wikis, items: seq<Item>, norm: string -> string, digest: string -> string)
    requires items != []
    ensures FreeIds(s, items, norm, digest) <==>
              FreeIds(s, items[..|items| - 1], norm, digest)
              && HasFreeId(s, norm(items[|items| - 1].title), norm, digest)
  {
    var init := items[..|items| - 1];
    assert forall i :: 0 <= i < |init| ==> init[i] == items[i];
  }

  /** A commit that stops after `k` writes leaves the upserts of the first `k` entries, and every title unique. */
  lemma PrefixIsUpsertFold(s: Wikis, items: seq<Item>, k: nat, norm: string -> string, digest: string -> string)
    requires UniqueTitles(s, norm) && Injective(digest) && k <= |items|
    ensures k <= |PlanAll(s, items, norm, digest).writes|
    ensures var left := Replay(s, PlanAll(s, items, norm, digest).writes[..k], norm);
            && (left.Some? <==> FreeIds(s, items[..k], norm, digest))
            && (left.Some? ==> left.value == UpsertAll(s, items[..k], norm, digest) && UniqueTitles(left.value, norm))
  {
    PlanIsPrefixwise(s, items, k, norm, digest);
    WriteIsUpsertFold(s, items[..k], norm, digest);
  }

  // ------------------------------------------------- what the upserts amount to

  /** The last content given for the normalised title `n`. */
  function LastContent(items: seq<Item>, n: string, norm: string -> string): Option<string> {
    if items == [] then None
    else if norm(items[|items| - 1].title) == n then Some(items[|items| - 1].content)
    else LastContent(items[..|items| - 1], n, norm)
  }

  /** The first title given for the normalised title `n`. */
  function FirstTitle(items: seq<Item>, n: string, norm: string -> string): Option<string> {
    if items == [] then None
    else
      var earlier := FirstTitle(items[..|items| - 1], n, norm);
      if earlier.Some? then earlier
      else if norm(items[|items| - 1].title) == n then Some(items[|items| - 1].title)
      else None
  }

  /** What the collection shows for a normalised title. */
  ghost function Shown(s: Wikis, n: string, norm: string -> string): Option<Wiki> {
    var id := Resolved(s, n, norm);
    if id.Some? then Some(s[id.value]) else None
  }

  /**
   * Per title, the last content wins; the title an entry is created with, or
   * already had, stays; titles not written keep their entry.
   */
  lemma {:induction false} LastContentWins(s: Wikis, items: seq<Item>, n: string, norm: string -> string,
                                           digest: string -> string)
    requires UniqueTitles(s, norm) && Injective(digest) && FreeIds(s, items, norm, digest)
    ensures var before, after := Shown(s, n, norm), Shown(UpsertAll(s, items, norm, digest), n, norm);
            match LastContent(items, n, norm)
            case None => after == before
            case Some(content) =>
              && FirstTitle(items, n, norm).Some?
              && after == Some(Wiki(if before.Some? then before.value.title else FirstTitle(items, n, norm).value, content))
    ensures FirstTitle(items, n, norm).Some? <==> LastContent(items, n, norm).Some?
    decreases |items|
  {
    if items != [] {
      var init, e := items[..|items| - 1], items[|items| - 1];
      assert FreeIds(s, init, norm, digest);
      LastContentWins(s, init, n, norm, digest);
      WriteIsUpsertFold(s, init, norm, digest);
      WriteIsUpsertFold(s, items, norm, digest);
      UpsertShows(UpsertAll(s, init, norm, digest), e, n, norm, digest);
    }
  }

  lemma {:induction false} UpsertShows(t: Wikis, e: Item, n: string, norm: string -> string, digest: string -> string)
    requires UniqueTitles(t, norm) && UniqueTitles(Upsert(t, e, norm, digest), norm)
    requires HasTitle(t, norm(e.title), norm) || digest(norm(e.title)) !in t
    ensures var before, after := Shown(t, n, norm), Shown(Upsert(t, e, norm, digest), n, norm);
            after == if norm(e.title) != n then before
                     else Some(Wiki(if before.Some? then before.value.title else e.title, e.content))
  {
    var m := norm(e.title);
    var u := Upsert(t, e, norm, digest);
    var hit := Resolved(t, m, norm);
    var id := if hit.Some? then hit.value else digest(m);
    assert Carries(u, id, m, norm);
    if n == m {
      assert Resolved(u, n, norm) == Some(id);
    } else {
      assert forall i :: i in t && i != id ==> u[i] == t[i];
      assert forall i :: Carries(u, i, n, norm) <==> Carries(t, i, n, norm);
      assert Resolved(u, n, norm) == Resolved(t, n, norm);
    }
  }

  /** The creates of one normalised title. */
  function Creates(writes: seq<WikiWrite>, n: string, norm: string -> string): nat {
    if writes == [] then 0
    else
      var last := writes[|writes| - 1];
      Creates(writes[..|writes| - 1], n, norm) + (if last.CreateWiki? && norm(last.title) == n then 1 else 0)
  }

  /** A new title is created exactly once, a known or unmentioned one never. */
  lemma {:induction false} NewTitlesAreCreatedOnce(s: Wikis, items: seq<Item>, n: string, norm: string -> string,
                                                   digest: string -> string)
    ensures var plan := PlanAll(s, items, norm, digest);
            && (n in plan.planned <==> Mentions(items, n, norm))
            && Creates(plan.writes, n, norm) == if Mentions(items, n, norm) && !HasTitle(s, n, norm) then 1 else 0
    decreases |items|
  {
    if items != [] {
      var init := items[..|items| - 1];
      NewTitlesAreCreatedOnce(s, init, n, norm, digest);
      MentionsSnoc(items, n, norm);
      CreatesOfEntry(PlanAll(s, init, norm, digest), s, items[|items| - 1], n, norm, digest);
    }
  }

  lemma {:induction false} CreatesOfEntry(p: Plan, s: Wikis, e: Item, n: string, norm: string -> string,
                                          digest: string -> string)
    ensures var q := PlanEntry(p, s, e, norm, digest);
            && (n in q.planned <==> n in p.planned || n == norm(e.title))
            && Creates(q.writes, n, norm) == Creates(p.writes, n, norm)
                 + if norm(e.title) == n && n !in p.planned && !HasTitle(s, n, norm) then 1 else 0
  {
    var q := PlanEntry(p, s, e, norm, digest);
    assert |q.writes| == |p.writes| + 1 && q.writes[..|p.writes|] == p.writes;
  }
}
