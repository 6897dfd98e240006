/**
 * What a wiki_write does, told from its entries as the tool receives them: which
 * are accepted, and which title and content the collection shows afterwards.
 */
module WikiEntries {
  import opened StoreSeam
  import opened Wrappers
  import opened Texts
  import opened WikiPlan

  function TitleOf(e: WriteEntry): string {
    Trim(if e.title.Some? then e.title.value else "", JsTrim)
  }

  function BodyOf(e: WriteEntry): string {
    if e.content.Some? then e.content.value else ""
  }

  /** A title of 1 to 128 runes, and a content that shows something within 64 KiB. */
  predicate Fine(title: string, body: string) {
    && 1 <= |title| <= 128
    && (exists i :: 0 <= i < |body| && !Strips(JsTrim, body[i]))
    && Utf8Bytes(body) <= 65536
  }

  /** The titles of the entries, trimmed. */
  function Titles(entries: seq<WriteEntry>): (titles: seq<string>)
    ensures |titles| == |entries| && forall i :: 0 <= i < |titles| ==> titles[i] == TitleOf(entries[i])
  {
    seq(|entries|, i requires 0 <= i < |entries| => TitleOf(entries[i]))
  }

  /** The contents of the entries, as given. */
  function Bodies(entries: seq<WriteEntry>): (bodies: seq<string>)
    ensures |bodies| == |entries| && forall i :: 0 <= i < |bodies| ==> bodies[i] == BodyOf(entries[i])
  {
    seq(|entries|, i requires 0 <= i < |entries| => BodyOf(entries[i]))
  }

  /** The entry at the 1-based position is the first that is not accepted. */
  predicate RefusedAt(titles: seq<string>, bodies: seq<string>, position: nat)
    requires |titles| == |bodies|
  {
    && 1 <= position <= |titles| && !Fine(titles[position - 1], bodies[position - 1])
    && forall i :: 0 <= i < position - 1 ==> Fine(titles[i], bodies[i])
  }

  predicate AllFine(titles: seq<string>, bodies: seq<string>)
    requires |titles| == |bodies|
  {
    forall i :: 0 <= i < |titles| ==> Fine(titles[i], bodies[i])
  }

  predicate Names(titles: seq<string>, i: int, n: string, norm: string -> string) {
    0 <= i < |titles| && norm(titles[i]) == n
  }

  predicate FirstNames(titles: seq<string>, i: int, n: string, norm: string -> string) {
    Names(titles, i, n, norm) && forall j :: 0 <= j < i ==> !Names(titles, j, n, norm)
  }

  predicate LastNames(titles: seq<string>, i: int, n: string, norm: string -> string) {
    Names(titles, i, n, norm) && forall j :: i < j < |titles| ==> !Names(titles, j, n, norm)
  }

  /** What the collection shows for `n`: as before, or the last content, under the title it has or got first. */
  ghost predicate TitleSays(before: Wikis, after: Wikis, titles: seq<string>, bodies: seq<string>, n: string,
                            norm: string -> string)
    requires |titles| == |bodies|
  {
    && ((forall i :: !Names(titles, i, n, norm)) ==> Shown(after, n, norm) == Shown(before, n, norm))
    && (forall i, j :: FirstNames(titles, i, n, norm) && LastNames(titles, j, n, norm) ==>
          Shown(after, n, norm) == Some(Wiki(TitleKept(before, titles[i], n, norm), bodies[j])))
  }

  /** The title an entry has, or the one given first. */
  ghost function TitleKept(before: Wikis, title: string, n: string, norm: string -> string): string {
    if Shown(before, n, norm).Some? then Shown(before, n, norm).value.title else title
  }

  ghost predicate Says(before: Wikis, after: Wikis, titles: seq<string>, bodies: seq<string>, norm: string -> string)
    requires |titles| == |bodies|
  {
    forall n :: TitleSays(before, after, titles, bodies, n, norm)
  }

  // -------------------------------------------------------------------- the proof

  /** Each entry is written as its title and its body. */
  predicate WrittenAs(titles: seq<string>, bodies: seq<string>, items: seq<Item>) {
    && |titles| == |bodies| == |items|
    && forall i :: 0 <= i < |items| ==> items[i].title == titles[i] && items[i].content == bodies[i]
  }

  lemma ItemIs(e: WriteEntry)
    ensures ItemOf(e).title == TitleOf(e) && ItemOf(e).content == BodyOf(e)
  {
  }

  lemma {:induction false} RefusalIs(item: Item)
    ensures Refusal(item).None? <==> Fine(item.title, item.content)
  {
    AcceptedIff(item);
  }

  lemma {:induction false} LastContentIs(titles: seq<string>, bodies: seq<string>, items: seq<Item>, n: string,
                                         norm: string -> string, j: int)
    requires WrittenAs(titles, bodies, items) && LastNames(titles, j, n, norm)
    ensures LastContent(items, n, norm) == Some(bodies[j])
    decreases |items|
  {
    var m := |titles| - 1;
    if j < m {
      assert !Names(titles, m, n, norm);
      NamesInit(titles, titles[..m], n, norm);
      WrittenInit(titles, bodies, items, m);
      LastContentIs(titles[..m], bodies[..m], items[..m], n, norm, j);
    }
  }

  lemma {:induction false} WrittenInit(titles: seq<string>, bodies: seq<string>, items: seq<Item>, m: nat)
    requires WrittenAs(titles, bodies, items) && m <= |titles|
    ensures WrittenAs(titles[..m], bodies[..m], items[..m])
  {
    forall i | 0 <= i < m ensures items[..m][i].title == titles[..m][i] && items[..m][i].content == bodies[..m][i] {
      assert items[i].title == titles[i];
    }
  }

  lemma {:induction false} NamesInit(titles: seq<string>, init: seq<string>, n: string, norm: string -> string)
    requires titles != [] && init == titles[..|titles| - 1]
    ensures forall i :: Names(init, i, n, norm) <==> i < |init| && Names(titles, i, n, norm)
  {
  }

  lemma {:induction false} FirstTitleIs(titles: seq<string>, bodies: seq<string>, items: seq<Item>, n: string,
                                        norm: string -> string, i: int)
    requires WrittenAs(titles, bodies, items) && FirstNames(titles, i, n, norm)
    ensures FirstTitle(items, n, norm) == Some(titles[i])
    decreases |items|
  {
    var m := |titles| - 1;
    NamesInit(titles, titles[..m], n, norm);
    WrittenInit(titles, bodies, items, m);
    if i < m {
      FirstTitleIs(titles[..m], bodies[..m], items[..m], n, norm, i);
    } else {
      NothingNames(titles[..m], bodies[..m], items[..m], n, norm);
    }
  }

  lemma {:induction false} NothingNames(titles: seq<string>, bodies: seq<string>, items: seq<Item>, n: string,
                                        norm: string -> string)
    requires WrittenAs(titles, bodies, items) && forall i :: !Names(titles, i, n, norm)
    ensures FirstTitle(items, n, norm).None? && LastContent(items, n, norm).None?
    decreases |items|
  {
    if items != [] {
      var m := |titles| - 1;
      assert !Names(titles, m, n, norm);
      NamesInit(titles, titles[..m], n, norm);
      WrittenInit(titles, bodies, items, m);
      NothingNames(titles[..m], bodies[..m], items[..m], n, norm);
    }
  }

  /** The fold of upserts shows what the entries say. */
  lemma {:induction false} UpsertsSay(s: Wikis, titles: seq<string>, bodies: seq<string>, items: seq<Item>,
                                      norm: string -> string, digest: string -> string)
    requires UniqueTitles(s, norm) && Injective(digest) && FreeIds(s, items, norm, digest)
    requires WrittenAs(titles, bodies, items)
    ensures Says(s, UpsertAll(s, items, norm, digest), titles, bodies, norm)
  {
    forall n ensures TitleSays(s, UpsertAll(s, items, norm, digest), titles, bodies, n, norm) {
      LastContentWins(s, items, n, norm, digest);
      if forall i :: !Names(titles, i, n, norm) {
        NothingNames(titles, bodies, items, n, norm);
      }
      forall i, j | FirstNames(titles, i, n, norm) && LastNames(titles, j, n, norm)
        ensures FirstTitle(items, n, norm) == Some(titles[i]) && LastContent(items, n, norm) == Some(bodies[j])
      {
        FirstTitleIs(titles, bodies, items, n, norm, i);
        LastContentIs(titles, bodies, items, n, norm, j);
      }
    }
  }
}
