/** Sorting by a strict order, and why the result depends on the elements only. */
module Ordering {

  ghost predicate Strict<T(!new)>(before: (T, T) -> bool) {
    && (forall a :: !before(a, a))
    && (forall a, b, c :: before(a, b) && before(b, c) ==> before(a, c))
  }

  predicate Increasing<T>(xs: seq<T>, before: (T, T) -> bool) {
    forall i, j :: 0 <= i < j < |xs| ==> before(xs[i], xs[j])
  }

  /** Any two elements are ordered one way or the other. */
  predicate Comparable<T>(xs: seq<T>, before: (T, T) -> bool) {
    forall i, j :: 0 <= i < j < |xs| ==> before(xs[i], xs[j]) || before(xs[j], xs[i])
  }

  function Insert<T>(xs: seq<T>, x: T, before: (T, T) -> bool): seq<T> {
    if xs == [] then [x]
    else if before(x, xs[0]) then [x] + xs
    else [xs[0]] + Insert(xs[1..], x, before)
  }

  function Sort<T>(xs: seq<T>, before: (T, T) -> bool): seq<T> {
    if xs == [] then [] else Insert(Sort(xs[..|xs| - 1], before), xs[|xs| - 1], before)
  }

  lemma {:induction false} InsertAdds<T>(xs: seq<T>, x: T, before: (T, T) -> bool)
    ensures multiset(Insert(xs, x, before)) == multiset(xs) + multiset{x}
  {
    if xs != [] {
      assert xs == [xs[0]] + xs[1..];
      if !before(x, xs[0]) {
        InsertAdds(xs[1..], x, before);
      }
    }
  }

  lemma {:induction false} SortPermutes<T>(xs: seq<T>, before: (T, T) -> bool)
    ensures multiset(Sort(xs, before)) == multiset(xs)
    ensures |Sort(xs, before)| == |xs|
  {
    if xs != [] {
      var n := |xs| - 1;
      SortPermutes(xs[..n], before);
      InsertAdds(Sort(xs[..n], before), xs[n], before);
      assert xs == xs[..n] + [xs[n]];
    }
    assert |multiset(Sort(xs, before))| == |multiset(xs)|;
  }

  lemma {:induction false} InsertIncreases<T(!new)>(xs: seq<T>, x: T, before: (T, T) -> bool)
    requires Strict(before) && Increasing(xs, before)
    requires forall i :: 0 <= i < |xs| ==> before(xs[i], x) || before(x, xs[i])
    ensures Increasing(Insert(xs, x, before), before)
  {
    if xs != [] && !before(x, xs[0]) {
      InsertIncreases(xs[1..], x, before);
      var rest := Insert(xs[1..], x, before);
      InsertAdds(xs[1..], x, before);
      forall j | 0 <= j < |rest| ensures before(xs[0], rest[j]) {
        assert rest[j] in multiset(rest);
        if rest[j] != x {
          assert rest[j] in xs[1..];
        }
      }
    }
  }

  lemma {:induction false} SortIncreases<T(!new)>(xs: seq<T>, before: (T, T) -> bool)
    requires Strict(before) && Comparable(xs, before)
    ensures Increasing(Sort(xs, before), before)
  {
    if xs != [] {
      var n := |xs| - 1;
      SortIncreases(xs[..n], before);
      SortPermutes(xs[..n], before);
      var sorted := Sort(xs[..n], before);
      forall i | 0 <= i < |sorted| ensures before(sorted[i], xs[n]) || before(xs[n], sorted[i]) {
        assert sorted[i] in multiset(xs[..n]);
        var j :| 0 <= j < n && xs[j] == sorted[i];
      }
      InsertIncreases(sorted, xs[n], before);
    }
  }

  /** There is one increasing arrangement of given elements. */
  lemma {:induction false} IncreasingUnique<T(!new)>(a: seq<T>, b: seq<T>, before: (T, T) -> bool)
    requires Strict(before) && Increasing(a, before) && Increasing(b, before)
    requires multiset(a) == multiset(b)
    ensures a == b
    decreases |a|
  {
    if a != [] {
      SameLeast(a, b, before);
      SameTails(a, b);
      IncreasingUnique(a[1..], b[1..], before);
      assert a == [a[0]] + a[1..] && b == [b[0]] + b[1..];
    } else {
      assert |multiset(b)| == |b|;
    }
  }

  /** Increasing arrangements of the same elements begin alike. */
  lemma {:induction false} SameLeast<T(!new)>(a: seq<T>, b: seq<T>, before: (T, T) -> bool)
    requires Strict(before) && Increasing(a, before) && Increasing(b, before)
    requires multiset(a) == multiset(b) && a != []
    ensures b != [] && a[0] == b[0]
  {
    assert a[0] in multiset(b);
    var i :| 0 <= i < |b| && b[i] == a[0];
    assert b[0] in multiset(a);
    var j :| 0 <= j < |a| && a[j] == b[0];
  }

  lemma {:induction false} SameTails<T>(a: seq<T>, b: seq<T>)
    requires a != [] && b != [] && a[0] == b[0] && multiset(a) == multiset(b)
    ensures multiset(a[1..]) == multiset(b[1..])
  {
    assert a == [a[0]] + a[1..] && b == [b[0]] + b[1..];
    assert multiset(a[1..]) == multiset(a) - multiset{a[0]};
    assert multiset(b[1..]) == multiset(b) - multiset{b[0]};
  }

  /** Sorting forgets the order the elements came in. */
  lemma SortIgnoresOrder<T(!new)>(a: seq<T>, b: seq<T>, before: (T, T) -> bool)
    requires Strict(before) && Comparable(a, before) && Comparable(b, before)
    requires multiset(a) == multiset(b)
    ensures Sort(a, before) == Sort(b, before)
  {
    SortIncreases(a, before);
    SortIncreases(b, before);
    SortPermutes(a, before);
    SortPermutes(b, before);
    IncreasingUnique(Sort(a, before), Sort(b, before), before);
  }
}
