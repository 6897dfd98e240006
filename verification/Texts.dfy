/**
 * The text primitives the components share: trimming, decimal numerals and the
 * character order used by every sort. A character is a Unicode scalar value, so
 * the length of a text is its rune count.
 */
module Texts {
  import opened Wrappers

  // ---------------------------------------------------------------- trimming

  /** White space both languages' trim functions agree on. */
  predicate CommonSpace(c: char) {
    || '\t' <= c <= '\r' || c == ' ' || c == '\U{00A0}' || c == '\U{1680}'
    || '\U{2000}' <= c <= '\U{200A}' || c == '\U{2028}' || c == '\U{2029}'
    || c == '\U{202F}' || c == '\U{205F}' || c == '\U{3000}'
  }

  /** The trim functions: String.prototype.trim and strings.TrimSpace. */
  datatype Trimmer = JsTrim | GoTrim

  predicate Strips(trimmer: Trimmer, c: char) {
    CommonSpace(c) || c == match trimmer case JsTrim => '\U{FEFF}' case GoTrim => '\U{0085}'
  }

  /** Where the text begins, from `i` on: the first character that stays. */
  function Lead(s: string, trimmer: Trimmer, i: nat): (k: nat)
    requires i <= |s|
    ensures i <= k <= |s| && (k < |s| ==> !Strips(trimmer, s[k]))
    ensures forall j :: i <= j < k ==> Strips(trimmer, s[j])
    decreases |s| - i
  {
    if i == |s| || !Strips(trimmer, s[i]) then i else Lead(s, trimmer, i + 1)
  }

  /** Where the text ends, up to `i`: after the last character that stays. */
  function Tail(s: string, trimmer: Trimmer, i: nat): (k: nat)
    requires i <= |s|
    ensures k <= i && (k > 0 ==> !Strips(trimmer, s[k - 1]))
    ensures forall j :: k <= j < i ==> Strips(trimmer, s[j])
  {
    if i == 0 || !Strips(trimmer, s[i - 1]) then i else Tail(s, trimmer, i - 1)
  }

  function Trim(s: string, trimmer: Trimmer): (t: string)
    ensures t != "" ==> !Strips(trimmer, t[0]) && !Strips(trimmer, t[|t| - 1])
  {
    var first, last := Lead(s, trimmer, 0), Tail(s, trimmer, |s|);
    if first < last then s[first..last] else ""
  }

  /** A text that neither begins nor ends with white space is left alone. */
  lemma {:induction false} TrimKeeps(s: string, trimmer: Trimmer)
    requires s == "" || (!Strips(trimmer, s[0]) && !Strips(trimmer, s[|s| - 1]))
    ensures Trim(s, trimmer) == s
  {
    assert s[0..|s|] == s;
  }

  /** Nothing but white space. */
  predicate Blank(s: string, trimmer: Trimmer) {
    forall i :: 0 <= i < |s| ==> Strips(trimmer, s[i])
  }

  /** White space around a text that has none at its ends is what trimming takes away. */
  lemma {:induction false} TrimPadded(before: string, s: string, after: string, trimmer: Trimmer)
    requires Blank(before, trimmer) && Blank(after, trimmer)
    requires s != "" && !Strips(trimmer, s[0]) && !Strips(trimmer, s[|s| - 1])
    ensures Trim(before + s + after, trimmer) == s
  {
    var all := before + s + after;
    assert all[|before|] == s[0] && all[|before| + |s| - 1] == s[|s| - 1];
    var first, last := Lead(all, trimmer, 0), Tail(all, trimmer, |all|);
    assert forall i :: 0 <= i < |before| ==> all[i] == before[i] && Strips(trimmer, all[i]);
    assert forall i :: |before| + |s| <= i < |all| ==>
        all[i] == after[i - |before| - |s|] && Strips(trimmer, all[i]);
    assert first == |before| && last == |before| + |s|;
    assert all[|before|..|before| + |s|] == s;
  }

  /** Nothing is left exactly when there was nothing but white space. */
  lemma {:induction false} TrimsToNothing(s: string, trimmer: Trimmer)
    ensures Trim(s, trimmer) == "" <==> Blank(s, trimmer)
  {
    var first, last := Lead(s, trimmer, 0), Tail(s, trimmer, |s|);
    assert first < |s| ==> !Strips(trimmer, s[first]);
    if first >= last {
      forall i | 0 <= i < |s| ensures Strips(trimmer, s[i]) {
        assert i < first || last <= i;
      }
    }
  }

  predicate IncludesAt(s: string, part: string, i: nat) {
    i + |part| <= |s| && s[i..i + |part|] == part
  }

  predicate Includes(s: string, part: string) {
    exists i | 0 <= i <= |s| :: IncludesAt(s, part, i)
  }

  function FindFrom(s: string, c: char, i: nat): (k: nat)
    requires i <= |s|
    ensures i <= k <= |s| && (k < |s| ==> s[k] == c)
    ensures forall j :: i <= j < k ==> s[j] != c
    decreases |s| - i
  {
    if i == |s| || s[i] == c then i else FindFrom(s, c, i + 1)
  }

  /** Where `c` first occurs, or the length. */
  function Find(s: string, c: char): (k: nat)
    ensures k <= |s| && (k < |s| ==> s[k] == c)
    ensures forall j :: 0 <= j < k ==> s[j] != c
  {
    FindFrom(s, c, 0)
  }

  lemma {:induction false} FindFirst(s: string, c: char)
    ensures c !in s[..Find(s, c)]
  {
  }

  lemma {:induction false} FindUnique(s: string, c: char, k: nat)
    requires k <= |s| && (k < |s| ==> s[k] == c) && c !in s[..k]
    ensures Find(s, c) == k
  {
    forall j | 0 <= j < k ensures s[j] != c {
      assert s[j] in s[..k];
    }
  }

  // ---------------------------------------------------------------- numerals

  function Digit(d: nat): char
    requires d < 10
  {
    "0123456789"[d]
  }

  predicate IsDigit(c: char) {
    '0' <= c <= '9'
  }

  function Decimal(n: nat): (s: string)
    ensures s != "" && forall i :: 0 <= i < |s| ==> IsDigit(s[i])
    ensures n > 0 ==> s[0] != '0'
    ensures s == "0" <==> n == 0
  {
    if n < 10 then [Digit(n)] else Decimal(n / 10) + [Digit(n % 10)]
  }

  function Numeral(s: string): (n: nat)
    requires forall i :: 0 <= i < |s| ==> IsDigit(s[i])
  {
    if s == "" then 0
    else
      var last := s[|s| - 1];
      assert IsDigit(last);
      10 * Numeral(s[..|s| - 1]) + (last as int - '0' as int)
  }

  lemma {:induction false} NumeralOfDecimal(n: nat)
    ensures Numeral(Decimal(n)) == n
  {
    var s := Decimal(n);
    if n >= 10 {
      NumeralOfDecimal(n / 10);
      assert s[..|s| - 1] == Decimal(n / 10);
      assert s[|s| - 1] == Digit(n % 10);
    } else {
      assert s[..|s| - 1] == "";
    }
  }

  /** strconv.Itoa. */
  function Itoa(n: int): string {
    if n < 0 then "-" + Decimal(-n) else Decimal(n)
  }

  // ------------------------------------------------------------------- order

  /** The strict order of texts: first differing character decides, a proper prefix comes first. */
  predicate Before(a: string, b: string) {
    b != "" && (a == "" || a[0] < b[0] || (a[0] == b[0] && Before(a[1..], b[1..])))
  }

  /** `a` and `b` first differ at `k`: there `a` ends or has the smaller character. */
  predicate SmallerAt(a: string, b: string, k: nat) {
    && k <= |a| && k < |b| && a[..k] == b[..k]
    && (k == |a| || a[k] < b[k])
  }

  lemma {:induction false} BeforeIff(a: string, b: string)
    ensures Before(a, b) <==> exists k: nat :: SmallerAt(a, b, k)
    decreases |a|
  {
    if b != [] {
      if a == "" {
        assert SmallerAt(a, b, 0);
      } else if a[0] != b[0] {
        assert SmallerAt(a, b, 0) <==> a[0] < b[0];
        forall k: nat | k > 0 ensures !SmallerAt(a, b, k) {
          if k <= |a| && k < |b| {
            assert a[..k][0] == a[0] && b[..k][0] == b[0];
          }
        }
      } else {
        BeforeIff(a[1..], b[1..]);
        forall k: nat ensures SmallerAt(a, b, k + 1) <==> SmallerAt(a[1..], b[1..], k) {
          SmallerLater(a, b, k);
        }
        assert !SmallerAt(a, b, 0);
        if k: nat :| SmallerAt(a, b, k) {
          assert SmallerAt(a[1..], b[1..], k - 1);
        }
      }
    }
  }

  lemma {:induction false} SmallerLater(a: string, b: string, k: nat)
    requires a != "" && b != "" && a[0] == b[0]
    ensures SmallerAt(a, b, k + 1) <==> SmallerAt(a[1..], b[1..], k)
  {
    if k + 1 <= |a| && k + 1 < |b| {
      assert a[..k + 1] == [a[0]] + a[1..][..k] && b[..k + 1] == [b[0]] + b[1..][..k];
      assert a[..k + 1][1..] == a[1..][..k] && b[..k + 1][1..] == b[1..][..k];
    }
  }

  lemma {:induction false} BeforeIrreflexive(a: string)
    ensures !Before(a, a)
  {
    if a != "" {
      BeforeIrreflexive(a[1..]);
    }
  }

  lemma {:induction false} BeforeTotal(a: string, b: string)
    ensures a == b || Before(a, b) || Before(b, a)
  {
    if a != "" && b != "" && a[0] == b[0] {
      BeforeTotal(a[1..], b[1..]);
      assert a == [a[0]] + a[1..] && b == [b[0]] + b[1..];
    }
  }

  lemma {:induction false} BeforeTransitive(a: string, b: string, c: string)
    requires Before(a, b) && Before(b, c)
    ensures Before(a, c)
  {
    if a != "" && a[0] == b[0] == c[0] {
      BeforeTransitive(a[1..], b[1..], c[1..]);
    }
  }
}
