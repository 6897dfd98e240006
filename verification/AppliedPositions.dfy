/**
 * The position list a batch that stopped mid-commit reports: consecutive
 * positions are compressed into runs, and the text reads back as the positions.
 */
module AppliedPositions {
  import opened Texts

  /** A block of consecutive positions, written `first` or `first-last`. */
  datatype Run = Run(first: nat, last: nat)

  function Range(first: nat, last: nat): (r: seq<nat>)
    requires first <= last
    ensures |r| == last - first + 1 && forall i :: 0 <= i < |r| ==> r[i] == first + i
  {
    seq(last - first + 1, i => first + i)
  }

  ghost predicate Proper(runs: seq<Run>) {
    forall i :: 0 <= i < |runs| ==> runs[i].first <= runs[i].last
  }

  /** No run could be joined to the next one. */
  ghost predicate Maximal(runs: seq<Run>) {
    forall i :: 0 <= i < |runs| - 1 ==> runs[i + 1].first != runs[i].last + 1
  }

  ghost function Expanded(runs: seq<Run>): seq<nat>
    requires Proper(runs)
  {
    if runs == [] then [] else Expanded(runs[..|runs| - 1]) + Range(runs[|runs| - 1].first, runs[|runs| - 1].last)
  }

  function RunText(first: nat, last: nat): string {
    if first == last then Decimal(first) else Decimal(first) + "-" + Decimal(last)
  }

  function Join(parts: seq<string>): string {
    if parts == [] then ""
    else if |parts| == 1 then parts[0]
    else Join(parts[..|parts| - 1]) + ", " + parts[|parts| - 1]
  }

  ghost function Rendered(runs: seq<Run>): seq<string> {
    seq(|runs|, i requires 0 <= i < |runs| => RunText(runs[i].first, runs[i].last))
  }

  // ----------------------------------------------------------------- reading

  predicate AllDigits(s: string) {
    forall i :: 0 <= i < |s| ==> IsDigit(s[i])
  }

  /** The positions a part stands for. */
  function ReadPart(part: string): seq<nat> {
    var k := Find(part, '-');
    if k == |part| then if AllDigits(part) then [Numeral(part)] else []
    else if AllDigits(part[..k]) && AllDigits(part[k + 1..]) && Numeral(part[..k]) <= Numeral(part[k + 1..]) then
      Range(Numeral(part[..k]), Numeral(part[k + 1..]))
    else []
  }

  /** The positions a whole list stands for: its parts are set apart by a comma and a space. */
  function Read(text: string): seq<nat>
    decreases |text|
  {
    var k := Find(text, ',');
    if k + 2 > |text| then ReadPart(text[..k]) else ReadPart(text[..k]) + Read(text[k + 2..])
  }

  lemma {:induction false} ReadRunText(first: nat, last: nat)
    requires first <= last
    ensures ReadPart(RunText(first, last)) == Range(first, last)
    ensures forall i :: 0 <= i < |RunText(first, last)| ==> RunText(first, last)[i] != ','
  {
    NumeralOfDecimal(first);
    NumeralOfDecimal(last);
    if first == last {
      FindUnique(Decimal(first), '-', |Decimal(first)|);
      assert Range(first, last) == [first];
    } else {
      ReadSpan(Decimal(first), Decimal(last));
    }
  }

  lemma {:induction false} SpanParts(from: string, to: string)
    ensures var part := from + "-" + to;
            && |part| == |from| + 1 + |to|
            && part[..|from|] == from && part[|from|] == '-' && part[|from| + 1..] == to
  {
    var part := from + "-" + to;
    assert |part| == |from| + 1 + |to|;
    assert part[|from|] == '-';
    forall i | 0 <= i < |to| ensures part[|from| + 1 + i] == to[i] {
    }
  }

  lemma {:induction false} ReadSpan(from: string, to: string)
    requires AllDigits(from) && AllDigits(to) && Numeral(from) <= Numeral(to)
    ensures ReadPart(from + "-" + to) == Range(Numeral(from), Numeral(to))
    ensures forall i :: 0 <= i < |from + "-" + to| ==> (from + "-" + to)[i] != ','
  {
    var part := from + "-" + to;
    SpanParts(from, to);
    assert forall i :: 0 <= i < |from| ==> part[i] == from[i] && IsDigit(from[i]);
    assert forall i :: |from| < i < |part| ==> part[i] == to[i - |from| - 1] && IsDigit(part[i]);
    FindUnique(part, '-', |from|);
  }

  /** Reading a list with one more part at its front. */
  lemma ReadCons(part: string, rest: string)
    requires forall i :: 0 <= i < |part| ==> part[i] != ','
    ensures Read(part) == ReadPart(part)
    ensures Read(part + ", " + rest) == ReadPart(part) + Read(rest)
  {
    FindUnique(part, ',', |part|);
    assert part[..|part|] == part;
    var text := part + ", " + rest;
    FindUnique(text, ',', |part|);
    assert text[..|part|] == part && text[|part| + 2..] == rest;
  }

  lemma {:induction false} JoinOfSnoc(runs: seq<Run>)
    requires |runs| > 1
    ensures var n := |runs| - 1;
            Join(Rendered(runs)) == Join(Rendered(runs[..n])) + ", " + RunText(runs[n].first, runs[n].last)
  {
    assert Rendered(runs)[..|runs| - 1] == Rendered(runs[..|runs| - 1]);
  }

  /** Reading two lists joined by the separator reads both, part by part. */
  lemma {:induction false} ReadJoined(runs: seq<Run>, rest: string)
    requires Proper(runs) && runs != []
    ensures Read(Join(Rendered(runs)) + ", " + rest) == Expanded(runs) + Read(rest)
    decreases |runs|
  {
    var n := |runs| - 1;
    var last := RunText(runs[n].first, runs[n].last);
    ReadRunText(runs[n].first, runs[n].last);
    ReadCons(last, rest);
    if n == 0 {
      JoinOfOne(runs);
    } else {
      ReadJoined(runs[..n], last + ", " + rest);
      JoinOfSnoc(runs);
      Regroup(Join(Rendered(runs[..n])), last, rest, Expanded(runs[..n]), Range(runs[n].first, runs[n].last));
    }
  }

  lemma {:induction false} JoinOfOne(runs: seq<Run>)
    requires |runs| == 1 && Proper(runs)
    ensures Join(Rendered(runs)) == RunText(runs[0].first, runs[0].last)
    ensures Expanded(runs) == Range(runs[0].first, runs[0].last)
  {
    assert runs[..0] == [];
  }

  lemma {:induction false} Regroup(front: string, last: string, rest: string, a: seq<nat>, b: seq<nat>)
    requires Read(front + ", " + (last + ", " + rest)) == a + Read(last + ", " + rest)
    requires Read(last + ", " + rest) == b + Read(rest)
    ensures Read((front + ", " + last) + ", " + rest) == (a + b) + Read(rest)
  {
    assert (front + ", " + last) + ", " + rest == front + ", " + (last + ", " + rest);
    assert a + (b + Read(rest)) == (a + b) + Read(rest);
  }

  /** The text of a list of runs reads back as the positions in them. */
  lemma {:induction false} ReadRendered(runs: seq<Run>)
    requires Proper(runs) && runs != []
    ensures Read(Join(Rendered(runs))) == Expanded(runs)
  {
    var n := |runs| - 1;
    var init, last := runs[..n], RunText(runs[n].first, runs[n].last);
    ReadRunText(runs[n].first, runs[n].last);
    ReadCons(last, "");
    if n == 0 {
      JoinOfOne(runs);
    } else {
      ReadJoined(init, last);
      JoinOfSnoc(runs);
    }
  }

  // -------------------------------------------------------------- formatting

  /** The closed runs and the open one `start`..`end` are the maximal runs of `prefix`. */
  ghost predicate Covers(runs: seq<Run>, start: nat, end: nat, prefix: seq<nat>) {
    var all := runs + [Run(start, end)];
    Proper(all) && Maximal(all) && Expanded(all) == prefix
  }

  lemma {:induction false} Opened(position: nat)
    ensures Covers([], position, position, [position])
  {
    var all := [] + [Run(position, position)];
    assert all[..0] == [];
    assert Range(position, position) == [position];
  }

  lemma {:induction false} Lengthen(runs: seq<Run>, start: nat, end: nat, prefix: seq<nat>)
    requires Covers(runs, start, end, prefix)
    ensures Covers(runs, start, end + 1, prefix + [end + 1])
  {
    var short, long := runs + [Run(start, end)], runs + [Run(start, end + 1)];
    assert short[|runs|] == Run(start, end);
    assert short[..|runs|] == runs == long[..|runs|];
    assert forall i :: 0 <= i < |runs| ==> long[i] == short[i];
    assert Range(start, end + 1) == Range(start, end) + [end + 1];
    assert forall i :: 0 <= i < |runs| ==> short[i + 1].first != short[i].last + 1;
  }

  lemma {:induction false} Close(runs: seq<Run>, start: nat, end: nat, position: nat, prefix: seq<nat>)
    requires Covers(runs, start, end, prefix) && position != end + 1
    ensures Covers(runs + [Run(start, end)], position, position, prefix + [position])
  {
    var closed := runs + [Run(start, end)];
    var next := closed + [Run(position, position)];
    assert closed[|runs|] == Run(start, end);
    assert next[..|closed|] == closed;
    assert forall i :: 0 <= i < |closed| ==> next[i] == closed[i];
    assert Range(position, position) == [position];
    assert forall i :: 0 <= i < |closed| - 1 ==> closed[i + 1].first != closed[i].last + 1;
  }

  lemma {:induction false} RenderedSnoc(runs: seq<Run>, start: nat, end: nat)
    ensures Rendered(runs + [Run(start, end)]) == Rendered(runs) + [RunText(start, end)]
  {
  }

  /** What the list of the parts says about `positions`. */
  ghost predicate Describes(text: string, positions: seq<nat>) {
    exists runs :: Proper(runs) && Maximal(runs) && Expanded(runs) == positions && text == Join(Rendered(runs))
  }

  lemma {:induction false} Finished(runs: seq<Run>, start: nat, end: nat, positions: seq<nat>)
    requires Covers(runs, start, end, positions)
    ensures var text := Join(Rendered(runs) + [RunText(start, end)]);
            Read(text) == positions && Describes(text, positions)
  {
    RenderedSnoc(runs, start, end);
    ReadRendered(runs + [Run(start, end)]);
  }

  /** The parts of all runs but the last, and the last run, still open. */
  method Compress(positions: seq<nat>) returns (parts: seq<string>, start: nat, end: nat, ghost runs: seq<Run>)
    requires positions != []
    ensures Covers(runs, start, end, positions) && parts == Rendered(runs)
  {
    parts, runs := [], [];
    start := positions[0];
    end := start;
    Opened(start);
    assert positions[..1] == [start];
    var i := 1;
    while i < |positions|
      invariant 1 <= i <= |positions|
      invariant Covers(runs, start, end, positions[..i])
      invariant parts == Rendered(runs)
    {
      var position := positions[i];
      assert positions[..i + 1] == positions[..i] + [position];
      if position == end + 1 {
        Lengthen(runs, start, end, positions[..i]);
        end := position;
      } else {
        Close(runs, start, end, position, positions[..i]);
        RenderedSnoc(runs, start, end);
        parts := parts + [RunText(start, end)];
        runs := runs + [Run(start, end)];
        start, end := position, position;
      }
      i := i + 1;
    }
    assert positions[..i] == positions;
  }

  /** The text of the applied positions: it reads back as the positions, in runs that cannot be joined. */
  method FormatAppliedPositions(positions: seq<nat>) returns (text: string)
    requires positions != []
    ensures Read(text) == positions && Describes(text, positions)
  {
    ghost var runs;
    var parts, start, end;
    parts, start, end, runs := Compress(positions);
    Finished(runs, start, end, positions);
    text := Join(parts + [RunText(start, end)]);
  }
}
