/**
 * Keyset pagination over any strict order: a page holds what comes after the
 * last key of the page before, in the store of its own moment.
 */
module KeysetPages {
  import opened Wrappers
  import opened Ordering

  ghost predicate Total<K(!new)>(less: (K, K) -> bool) {
    Strict(less) && forall a, b :: a == b || less(a, b) || less(b, a)
  }

  predicate Distinct<K(==)>(keys: seq<K>) {
    forall i, j :: 0 <= i < j < |keys| ==> keys[i] != keys[j]
  }

  /** The key comes after the cursor; no cursor comes before everything. */
  predicate Beyond<K>(cursor: Option<K>, key: K, less: (K, K) -> bool) {
    cursor.None? || less(cursor.value, key)
  }

  function FirstAfter<K>(sorted: seq<K>, cursor: Option<K>, less: (K, K) -> bool): (k: nat)
    ensures k <= |sorted|
    ensures forall i :: 0 <= i < k ==> !Beyond(cursor, sorted[i], less)
    ensures k < |sorted| ==> Beyond(cursor, sorted[k], less)
  {
    if sorted == [] || Beyond(cursor, sorted[0], less) then 0 else 1 + FirstAfter(sorted[1..], cursor, less)
  }

  lemma FirstAfterUnique<K>(sorted: seq<K>, cursor: Option<K>, less: (K, K) -> bool, k: nat)
    requires k <= |sorted| && forall i :: 0 <= i < k ==> !Beyond(cursor, sorted[i], less)
    requires k < |sorted| ==> Beyond(cursor, sorted[k], less)
    ensures FirstAfter(sorted, cursor, less) == k
  {
  }

  /** What is left to show after the cursor. */
  function Rest<K>(keys: seq<K>, cursor: Option<K>, less: (K, K) -> bool): seq<K> {
    var sorted := Sort(keys, less);
    sorted[FirstAfter(sorted, cursor, less)..]
  }

  function Page<K>(rest: seq<K>, size: nat): seq<K> {
    if |rest| > size then rest[..size] else rest
  }

  // ---------------------------------------------------------- what a page holds

  lemma {:induction false} SortedKeys<K(!new)>(keys: seq<K>, less: (K, K) -> bool)
    requires Total(less) && Distinct(keys)
    ensures Increasing(Sort(keys, less), less)
    ensures forall key :: key in Sort(keys, less) <==> key in keys
    ensures |Sort(keys, less)| == |keys|
  {
    SortIncreases(keys, less);
    SortPermutes(keys, less);
    forall key ensures key in Sort(keys, less) <==> key in keys {
      assert key in multiset(Sort(keys, less)) <==> key in multiset(keys);
    }
  }

  /** The rest after a cursor is increasing and is exactly the keys beyond it. */
  lemma {:induction false} RestIsBeyond<K(!new)>(keys: seq<K>, cursor: Option<K>, less: (K, K) -> bool)
    requires Total(less) && Distinct(keys)
    ensures Increasing(Rest(keys, cursor, less), less)
    ensures forall key :: key in Rest(keys, cursor, less) <==> key in keys && Beyond(cursor, key, less)
  {
    SortedKeys(keys, less);
    SuffixIsBeyond(Sort(keys, less), cursor, less);
  }

  lemma {:induction false} SuffixMember<K(!new)>(sorted: seq<K>, cursor: Option<K>, key: K, less: (K, K) -> bool)
    requires Strict(less) && Increasing(sorted, less)
    ensures key in sorted[FirstAfter(sorted, cursor, less)..] <==> key in sorted && Beyond(cursor, key, less)
  {
    var k := FirstAfter(sorted, cursor, less);
    if key in sorted && Beyond(cursor, key, less) {
      var i :| 0 <= i < |sorted| && sorted[i] == key;
      assert sorted[k..][i - k] == key;
    }
    if key in sorted[k..] {
      var i :| k <= i < |sorted| && sorted[i] == key;
      assert i > k ==> less(sorted[k], key);
    }
  }

  lemma {:induction false} SuffixIsBeyond<K(!new)>(sorted: seq<K>, cursor: Option<K>, less: (K, K) -> bool)
    requires Strict(less) && Increasing(sorted, less)
    ensures var k := FirstAfter(sorted, cursor, less);
            forall key :: key in sorted[k..] <==> key in sorted && Beyond(cursor, key, less)
  {
    forall key
      ensures key in sorted[FirstAfter(sorted, cursor, less)..] <==> key in sorted && Beyond(cursor, key, less)
    {
      SuffixMember(sorted, cursor, key, less);
    }
  }

  // ----------------------------------------------------------------------- walks

  /** One page request of a walk: the store of its moment, its size and the page it got. */
  datatype Request<K> = Request(store: seq<K>, size: nat, page: seq<K>)

  /**
   * A complete walk from a cursor: each page is served from the store of its own
   * moment and the next one starts after its last key; the last page has no next.
   */
  predicate Walk<K(==)>(cursor: Option<K>, walk: seq<Request<K>>, less: (K, K) -> bool)
    decreases |walk|
  {
    && walk != [] && Serves(cursor, walk[0], less)
    && var rest := Rest(walk[0].store, cursor, less);
    if |rest| > walk[0].size then Walk(Some(rest[walk[0].size - 1]), walk[1..], less) else |walk| == 1
  }

  predicate Serves<K(==)>(cursor: Option<K>, r: Request<K>, less: (K, K) -> bool) {
    Distinct(r.store) && r.size >= 1 && r.page == Page(Rest(r.store, cursor, less), r.size)
  }

  /** The cursor a served page leaves, if more follows it. */
  predicate Leaves<K(==)>(cursor: Option<K>, r: Request<K>, next: Option<K>, less: (K, K) -> bool)
    requires r.size >= 1
  {
    var rest := Rest(r.store, cursor, less);
    next == if |rest| > r.size then Some(rest[r.size - 1]) else None
  }

  /** A page in front of the walk that starts where it ended, or the only page. */
  lemma {:induction false} WalkFromPage<K>(cursor: Option<K>, first: Request<K>, next: Option<K>,
                                           later: seq<Request<K>>, less: (K, K) -> bool)
    requires Serves(cursor, first, less) && Leaves(cursor, first, next, less)
    requires if next.Some? then Walk(next, later, less) else later == []
    ensures Walk(cursor, [first] + later, less)
  {
    assert ([first] + later)[1..] == later;
  }

  /** All that a walk returns. */
  function Returned<K>(walk: seq<Request<K>>): seq<K> {
    if walk == [] then [] else walk[0].page + Returned(walk[1..])
  }

  lemma {:induction false} PagesJoin<K(!new)>(page: seq<K>, later: seq<K>, less: (K, K) -> bool)
    requires Strict(less) && Increasing(page, less) && Increasing(later, less) && page != []
    requires forall key :: key in later ==> less(page[|page| - 1], key)
    ensures Increasing(page + later, less)
  {
    var all, last := page + later, page[|page| - 1];
    forall i, j | 0 <= i < j < |all| ensures less(all[i], all[j]) {
      if i < |page| <= j {
        assert later[j - |page|] in later;
        assert i < |page| - 1 ==> less(page[i], last);
      }
    }
  }

  /** Whatever happens between the pages, the keys come strictly increasing, so none comes twice. */
  lemma {:induction false} WalkIncreases<K(!new)>(cursor: Option<K>, walk: seq<Request<K>>, less: (K, K) -> bool)
    requires Total(less) && Walk(cursor, walk, less)
    ensures Increasing(Returned(walk), less)
    ensures forall key :: key in Returned(walk) ==> Beyond(cursor, key, less)
    decreases |walk|
  {
    var rest, size := Rest(walk[0].store, cursor, less), walk[0].size;
    RestIsBeyond(walk[0].store, cursor, less);
    if |rest| > size {
      WalkIncreases(Some(rest[size - 1]), walk[1..], less);
      PagesFollow(cursor, rest, size, Returned(walk[1..]), less);
    } else {
      OnePage(walk);
    }
  }

  lemma OnePage<K>(walk: seq<Request<K>>)
    requires |walk| == 1
    ensures Returned(walk) == walk[0].page
  {
    assert walk[1..] == [];
  }

  lemma {:induction false} PagesFollow<K(!new)>(cursor: Option<K>, rest: seq<K>, size: nat, later: seq<K>,
                                                less: (K, K) -> bool)
    requires Strict(less) && Increasing(rest, less) && Increasing(later, less) && 1 <= size < |rest|
    requires forall key :: key in rest ==> Beyond(cursor, key, less)
    requires forall key :: key in later ==> less(rest[size - 1], key)
    ensures Increasing(rest[..size] + later, less)
    ensures forall key :: key in rest[..size] + later ==> Beyond(cursor, key, less)
  {
    PagesJoin(rest[..size], later, less);
    assert rest[size - 1] in rest;
  }

  /** A key beyond the cursor is on the page, or beyond the cursor the page leaves. */
  lemma {:induction false} OnThePageOrLater<K(!new)>(cursor: Option<K>, keys: seq<K>, size: nat, key: K,
                                                     less: (K, K) -> bool)
    requires Total(less) && Distinct(keys) && size >= 1 && Beyond(cursor, key, less) && key in keys
    ensures var rest := Rest(keys, cursor, less);
            key in Page(rest, size) || (|rest| > size && less(rest[size - 1], key))
  {
    var rest := Rest(keys, cursor, less);
    RestIsBeyond(keys, cursor, less);
    assert key in rest;
    if |rest| > size && key !in Page(rest, size) {
      KeyIsLater(rest, size, key, less);
    }
  }

  /** A key that every store of the walk holds comes. */
  lemma {:induction false} WalkIsComplete<K(!new)>(cursor: Option<K>, walk: seq<Request<K>>, key: K,
                                                   less: (K, K) -> bool)
    requires Total(less) && Walk(cursor, walk, less)
    requires Beyond(cursor, key, less) && forall i :: 0 <= i < |walk| ==> key in walk[i].store
    ensures key in Returned(walk)
    decreases |walk|
  {
    OnThePageOrLater(cursor, walk[0].store, walk[0].size, key, less);
    if key !in walk[0].page {
      WalkIsComplete(Some(Rest(walk[0].store, cursor, less)[walk[0].size - 1]), walk[1..], key, less);
    }
  }

  lemma {:induction false} KeyIsLater<K(!new)>(rest: seq<K>, size: nat, key: K, less: (K, K) -> bool)
    requires Increasing(rest, less) && 1 <= size < |rest| && key in rest && key !in rest[..size]
    ensures less(rest[size - 1], key)
  {
    assert rest == rest[..size] + rest[size..];
    assert key in rest[size..];
    var i :| size <= i < |rest| && rest[i] == key;
  }

  lemma {:induction false} IncreasingOnce<K(!new)>(keys: seq<K>, key: K, less: (K, K) -> bool)
    requires Strict(less) && Increasing(keys, less)
    ensures multiset(keys)[key] == if key in keys then 1 else 0
    decreases |keys|
  {
    if keys != [] {
      var init, last := keys[..|keys| - 1], keys[|keys| - 1];
      IncreasingOnce(init, key, less);
      assert keys == init + [last];
      assert forall i :: 0 <= i < |init| ==> less(keys[i], last);
    }
  }

  // ------------------------------------------------------------------ fixed store

  /** One page for nothing, otherwise as many as it takes. */
  function PageCount(n: nat, size: nat): (k: nat)
    requires size >= 1
    decreases n
  {
    if n <= size then 1 else 1 + PageCount(n - size, size)
  }

  /** The page count is the quotient rounded up. */
  lemma {:induction false} PageCountRoundsUp(n: nat, size: nat)
    requires size >= 1
    ensures n == 0 ==> PageCount(n, size) == 1
    ensures n > 0 ==> (PageCount(n, size) - 1) * size < n <= PageCount(n, size) * size
    decreases n
  {
    if n > size {
      PageCountRoundsUp(n - size, size);
      var k := PageCount(n - size, size);
      assert (k + 1) * size == k * size + size && k * size == (k - 1) * size + size;
    } else {
      assert 1 * size == size && 0 * size == 0;
    }
  }

  /** Every request of the walk finds this store and asks for this size. */
  predicate OnStore<K(==)>(walk: seq<Request<K>>, keys: seq<K>, size: nat) {
    forall i :: 0 <= i < |walk| ==> walk[i].store == keys && walk[i].size == size
  }

  lemma OnStoreLater<K>(walk: seq<Request<K>>, keys: seq<K>, size: nat)
    requires walk != [] && OnStore(walk, keys, size)
    ensures walk[0].store == keys && walk[0].size == size && OnStore(walk[1..], keys, size)
  {
  }

  /** On a store that does not change, the pages are the sorted keys cut into pieces of the page size. */
  lemma {:induction false} FixedStorePages<K(!new)>(cursor: Option<K>, keys: seq<K>, size: nat, walk: seq<Request<K>>,
                                                    less: (K, K) -> bool)
    requires Total(less) && Walk(cursor, walk, less) && size >= 1 && OnStore(walk, keys, size)
    ensures Returned(walk) == Rest(keys, cursor, less)
    ensures |walk| == PageCount(|Rest(keys, cursor, less)|, size)
    decreases |walk|
  {
    var rest := Rest(keys, cursor, less);
    OnStoreLater(walk, keys, size);
    if |rest| > size {
      RestOfRest(keys, cursor, size, less);
      FixedStorePages(Some(rest[size - 1]), keys, size, walk[1..], less);
      CutOff(rest, size, walk);
    } else {
      OnePage(walk);
    }
  }

  lemma {:induction false} CutOff<K>(rest: seq<K>, size: nat, walk: seq<Request<K>>)
    requires walk != [] && 1 <= size < |rest| && walk[0].page == rest[..size]
    requires Returned(walk[1..]) == rest[size..] && |walk| - 1 == PageCount(|rest[size..]|, size)
    ensures Returned(walk) == rest && |walk| == PageCount(|rest|, size)
  {
    assert rest == rest[..size] + rest[size..];
  }

  lemma {:induction false} RestOfRest<K(!new)>(keys: seq<K>, cursor: Option<K>, size: nat, less: (K, K) -> bool)
    requires Total(less) && Distinct(keys) && 1 <= size < |Rest(keys, cursor, less)|
    ensures Rest(keys, Some(Rest(keys, cursor, less)[size - 1]), less) == Rest(keys, cursor, less)[size..]
  {
    SortedKeys(keys, less);
    var sorted := Sort(keys, less);
    var k := FirstAfter(sorted, cursor, less);
    AfterAnElement(sorted, k + size - 1, less);
    assert sorted[k..][size..] == sorted[k + size..];
    assert sorted[k..][size - 1] == sorted[k + size - 1];
  }

  /** What comes after an element of an increasing list is the list from the next one on. */
  lemma {:induction false} AfterAnElement<K(!new)>(sorted: seq<K>, i: nat, less: (K, K) -> bool)
    requires Strict(less) && Increasing(sorted, less) && i < |sorted|
    ensures FirstAfter(sorted, Some(sorted[i]), less) == i + 1
  {
    forall j | 0 <= j <= i ensures !less(sorted[i], sorted[j]) {
      if j < i {
        assert less(sorted[j], sorted[i]);
      }
    }
    FirstAfterUnique(sorted, Some(sorted[i]), less, i + 1);
  }
}
