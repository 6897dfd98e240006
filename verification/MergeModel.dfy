/**
 * Deep merge on values: objects merge key by key, everything else is replaced
 * wholesale. A leaf stands for a scalar, an array or null.
 */
module MergeModel {
  import opened Wrappers

  datatype Value =
    | Leaf(text: string)
    | Undefined
    | Obj(fields: Fields)

  type Fields = map<string, Value>

  predicate Polluting(key: string) {
    key == "__proto__" || key == "constructor" || key == "prototype"
  }

  /** The source has something to say about this key. */
  predicate Effective(s: Fields, key: string) {
    key in s && !Polluting(key) && !s[key].Undefined?
  }

  // --------------------------------------------------------------- JavaScript

  function Get(fields: Fields, key: string): Option<Value> {
    if key in fields then Some(fields[key]) else None
  }

  /** common/js/config: what an effective source value becomes, facing what the target has. */
  function Merged(mine: Option<Value>, theirs: Value): Value
    decreases theirs, 2
  {
    if theirs.Obj? && mine.Some? && mine.value.Obj? then Merge(mine.value, theirs) else theirs
  }

  function Merge(d: Value, s: Value): (r: Value)
    requires d.Obj? && s.Obj?
    ensures r.Obj?
    decreases s, 1
  {
    Obj(map key | key in d.fields.Keys + s.fields.Keys && (key in d.fields || Effective(s.fields, key)) ::
          if Effective(s.fields, key) then Merged(Get(d.fields, key), s.fields[key]) else d.fields[key])
  }

  /** The merged value of one key of the source. */
  function MergedAt(d: Value, s: Value, key: string): Value
    requires d.Obj? && s.Obj? && key in s.fields
  {
    Merged(Get(d.fields, key), s.fields[key])
  }

  // ----------------------------------------------------------------------- Go

  /** common/gopkg/config: no key is skipped and there is no undefined. */
  function GoMerge(d: Value, s: Value): (r: Value)
    requires d.Obj? && s.Obj?
    ensures r.Obj?
    decreases s, 1
  {
    Obj(map key | key in d.fields.Keys + s.fields.Keys ::
          if key in s.fields then GoMerged(Get(d.fields, key), s.fields[key]) else d.fields[key])
  }

  function GoMerged(mine: Option<Value>, theirs: Value): Value
    decreases theirs, 2
  {
    if mine.Some? && theirs.Obj? && mine.value.Obj? then GoMerge(mine.value, theirs) else theirs
  }

  // ------------------------------------------------------------------ the laws

  /** Nothing in the tree is skipped: what YAML parses to, without the polluting keys. */
  ghost predicate Clean(s: Value) {
    match s
    case Leaf(_) => true
    case Undefined => false
    case Obj(fields) => forall key :: key in fields ==> !Polluting(key) && Clean(fields[key])
  }

  /** `x` already holds all that `v` says: every key of an object, anything else itself. */
  predicate Holds(x: Value, v: Value)
    decreases v
  {
    if x.Obj? && v.Obj? then
      forall key :: key in v.fields ==> key in x.fields && Holds(x.fields[key], v.fields[key])
    else
      x == v
  }

  /** Every key javascript skips, where objects meet, brings nothing the target does not hold. */
  predicate Agree(d: Value, s: Value)
    requires d.Obj? && s.Obj?
    decreases s
  {
    forall key :: key in s.fields ==>
      if Effective(s.fields, key) then
        key in d.fields && d.fields[key].Obj? && s.fields[key].Obj? ==> Agree(d.fields[key], s.fields[key])
      else
        key in d.fields && Holds(d.fields[key], s.fields[key])
  }

  /** Go's merge leaves a value alone exactly when it holds all the source says. */
  lemma {:induction false} GoChangesNothingIff(x: Value, v: Value)
    ensures GoMerged(Some(x), v) == x <==> Holds(x, v)
    decreases v
  {
    if x.Obj? && v.Obj? {
      var m := GoMerge(x, v);
      forall key | key in v.fields
        ensures (key in x.fields && m.fields[key] == x.fields[key])
           <==> (key in x.fields && Holds(x.fields[key], v.fields[key]))
      {
        if key in x.fields {
          GoChangesNothingIff(x.fields[key], v.fields[key]);
        }
      }
      assert m == x ==> forall key :: key in v.fields ==> key in m.fields;
    }
  }

  /** The two merges agree about this key of the source. */
  predicate SameAt(d: Value, s: Value, key: string)
    requires d.Obj? && s.Obj? && key in s.fields
  {
    if Effective(s.fields, key) then
      Merged(Get(d.fields, key), s.fields[key]) == GoMerged(Get(d.fields, key), s.fields[key])
    else
      key in d.fields && d.fields[key] == GoMerged(Get(d.fields, key), s.fields[key])
  }

  lemma {:induction false} SameByKey(d: Value, s: Value)
    requires d.Obj? && s.Obj?
    ensures Merge(d, s) == GoMerge(d, s) <==> forall key :: key in s.fields ==> SameAt(d, s, key)
  {
    var js, go := Merge(d, s), GoMerge(d, s);
    if js == go {
      forall key | key in s.fields ensures SameAt(d, s, key) {
        assert key in go.fields;
        assert js.fields[key] == go.fields[key];
      }
    }
  }

  /** The two languages build the same tree exactly when what javascript skips was already there. */
  lemma {:induction false} SameTreeIff(d: Value, s: Value)
    requires d.Obj? && s.Obj?
    ensures Merge(d, s) == GoMerge(d, s) <==> Agree(d, s)
    decreases s
  {
    SameByKey(d, s);
    forall key | key in s.fields
      ensures SameAt(d, s, key) <==>
              if Effective(s.fields, key) then
                key in d.fields && d.fields[key].Obj? && s.fields[key].Obj? ==> Agree(d.fields[key], s.fields[key])
              else
                key in d.fields && Holds(d.fields[key], s.fields[key])
    {
      if key in d.fields {
        if !Effective(s.fields, key) {
          GoChangesNothingIff(d.fields[key], s.fields[key]);
        } else if d.fields[key].Obj? && s.fields[key].Obj? {
          SameTreeIff(d.fields[key], s.fields[key]);
        }
      }
    }
  }

  lemma {:induction false} CleanAgrees(d: Value, s: Value)
    requires d.Obj? && s.Obj? && Clean(s)
    ensures Agree(d, s)
    decreases s
  {
    forall key | key in s.fields && key in d.fields && d.fields[key].Obj? && s.fields[key].Obj?
      ensures Agree(d.fields[key], s.fields[key])
    {
      assert Clean(s.fields[key]);
      CleanAgrees(d.fields[key], s.fields[key]);
    }
    assert forall key :: key in s.fields ==> Clean(s.fields[key]);
  }

  /** In particular on clean sources, whatever the defaults hold. */
  lemma SameTree(d: Value, s: Value)
    requires d.Obj? && s.Obj? && Clean(s)
    ensures Merge(d, s) == GoMerge(d, s)
  {
    CleanAgrees(d, s);
    SameTreeIff(d, s);
  }

  lemma EmptySourceIsIdentity(d: Value)
    requires d.Obj?
    ensures Merge(d, Obj(map[])) == d
  {
  }

  /** Into the empty map, the source arrives without its skipped top-level keys, and whole if there are none. */
  lemma EmptyTargetTakesTheSource(s: Value)
    requires s.Obj?
    ensures Merge(Obj(map[]), s) == Obj(map key | key in s.fields && Effective(s.fields, key) :: s.fields[key])
    ensures Merge(Obj(map[]), s) == s <==> forall key :: key in s.fields ==> Effective(s.fields, key)
  {
    var m := Merge(Obj(map[]), s);
    if m == s {
      forall key | key in s.fields ensures Effective(s.fields, key) {
        assert key in m.fields;
      }
    }
  }

  /** The keys that are skipped, named. */
  predicate Skipped(s: Fields, key: string) {
    key in ["__proto__", "constructor", "prototype"] || (key in s && s[key] == Undefined)
  }

  /** Skipped keys leave the default as it was, present or not; so do absent ones. */
  lemma SkippedKeysSurvive(d: Value, s: Value, key: string)
    requires d.Obj? && s.Obj? && (key !in s.fields || Skipped(s.fields, key))
    ensures key in Merge(d, s).fields <==> key in d.fields
    ensures key in d.fields ==> Merge(d, s).fields[key] == d.fields[key]
  {
  }

  /** Every other key arrives: merged where two objects meet, as the source has it otherwise. */
  lemma OtherKeysArrive(d: Value, s: Value, key: string)
    requires d.Obj? && s.Obj? && key in s.fields && !Skipped(s.fields, key)
    ensures key in Merge(d, s).fields
    ensures Merge(d, s).fields[key] ==
            if key in d.fields && d.fields[key].Obj? && s.fields[key].Obj? then Merge(d.fields[key], s.fields[key])
            else s.fields[key]
  {
  }

  lemma {:induction false} MergeWithItself(x: Value)
    requires x.Obj?
    ensures Merge(x, x) == x
    decreases x
  {
    forall key | key in x.fields && Effective(x.fields, key) ensures MergedAt(x, x, key) == x.fields[key] {
      if x.fields[key].Obj? {
        MergeWithItself(x.fields[key]);
      }
    }
  }

  /** Merging the same source again changes nothing. */
  lemma {:induction false} MergeIsIdempotent(d: Value, s: Value)
    requires d.Obj? && s.Obj?
    ensures Merge(Merge(d, s), s) == Merge(d, s)
    decreases s
  {
    var m := Merge(d, s);
    forall key | key in s.fields && Effective(s.fields, key) ensures MergedAt(m, s, key) == MergedAt(d, s, key) {
      assert m.fields[key] == MergedAt(d, s, key);
      var v := s.fields[key];
      if v.Obj? {
        if key in d.fields && d.fields[key].Obj? {
          MergeIsIdempotent(d.fields[key], v);
        } else {
          MergeWithItself(v);
        }
      }
    }
  }

  // ---------------------------------------------------------------- path lookup

  /** The value at a path of keys, if the path leads anywhere. */
  function Lookup(v: Value, path: seq<string>): Option<Value> {
    if path == [] then Some(v)
    else if v.Obj? && path[0] in v.fields then Lookup(v.fields[path[0]], path[1..])
    else None
  }

  predicate IsObject(v: Option<Value>) {
    v.Some? && v.value.Obj?
  }

  /**
   * What the source says at a path: nothing below a key the merge skips, and
   * keys are skipped where an object of the source meets one of the target.
   */
  function Said(d: Value, s: Value, path: seq<string>): Option<Value> {
    if path == [] then Some(s)
    else if !(d.Obj? && s.Obj?) then Lookup(s, path)
    else if !Effective(s.fields, path[0]) then None
    else if path[0] in d.fields then Said(d.fields[path[0]], s.fields[path[0]], path[1..])
    else Lookup(s.fields[path[0]], path[1..])
  }

  /** A clean source says all it holds. */
  lemma {:induction false} CleanSaysAll(d: Value, s: Value, path: seq<string>)
    requires Clean(s)
    ensures Said(d, s, path) == Lookup(s, path)
    decreases |path|
  {
    if path != [] && d.Obj? && s.Obj? && path[0] in s.fields {
      assert Clean(s.fields[path[0]]);
      if path[0] in d.fields {
        CleanSaysAll(d.fields[path[0]], s.fields[path[0]], path[1..]);
      }
    }
  }

  /** At a prefix of the path the source says a value that does not merge: not an object, or facing none. */
  predicate SourceDecidesAt(d: Value, s: Value, path: seq<string>, n: nat)
    requires n <= |path|
  {
    var theirs := Said(d, s, path[..n]);
    theirs.Some? && !(IsObject(theirs) && IsObject(Lookup(d, path[..n])))
  }

  predicate SourceDecides(d: Value, s: Value, path: seq<string>) {
    exists n :: 0 <= n <= |path| && SourceDecidesAt(d, s, path, n)
  }

  lemma {:induction false} DecidesBelow(d: Value, s: Value, path: seq<string>)
    requires d.Obj? && s.Obj? && path != []
    requires Effective(s.fields, path[0]) && s.fields[path[0]].Obj?
    requires path[0] in d.fields && d.fields[path[0]].Obj?
    ensures SourceDecides(d, s, path) <==> SourceDecides(d.fields[path[0]], s.fields[path[0]], path[1..])
  {
    var dd, ss, rest := d.fields[path[0]], s.fields[path[0]], path[1..];
    forall n | 0 <= n <= |rest| ensures SourceDecidesAt(dd, ss, rest, n) <==> SourceDecidesAt(d, s, path, n + 1) {
      assert path[..n + 1][0] == path[0] && path[..n + 1][1..] == rest[..n];
    }
    assert !SourceDecidesAt(d, s, path, 0);
    if SourceDecides(d, s, path) {
      var n :| 0 <= n <= |path| && SourceDecidesAt(d, s, path, n);
      assert SourceDecidesAt(dd, ss, rest, n - 1);
    }
    if SourceDecides(dd, ss, rest) {
      var n :| 0 <= n <= |rest| && SourceDecidesAt(dd, ss, rest, n);
      assert SourceDecidesAt(d, s, path, n + 1);
    }
  }

  /**
   * The path law, for every target and every source: where the source decides,
   * the merge shows what the source says; where the source says nothing, the
   * default; where both have an object, their merge.
   */
  lemma {:induction false} PathLaw(d: Value, s: Value, path: seq<string>)
    requires d.Obj? && s.Obj?
    ensures SourceDecides(d, s, path) ==> Lookup(Merge(d, s), path) == Said(d, s, path)
    ensures !SourceDecides(d, s, path) && Said(d, s, path).None? ==> Lookup(Merge(d, s), path) == Lookup(d, path)
    ensures !SourceDecides(d, s, path) && Said(d, s, path).Some? ==>
              && IsObject(Lookup(d, path)) && IsObject(Said(d, s, path))
              && Lookup(Merge(d, s), path) == Some(Merge(Lookup(d, path).value, Said(d, s, path).value))
    decreases |path|
  {
    if path == [] {
      assert forall n :: 0 <= n <= |path| ==> path[..n] == [];
    } else {
      var key, rest := path[0], path[1..];
      if !Effective(s.fields, key) {
        SilentSource(d, s, path);
      } else if s.fields[key].Obj? && key in d.fields && d.fields[key].Obj? {
        DecidesBelow(d, s, path);
        PathLaw(d.fields[key], s.fields[key], rest);
      } else {
        assert path[..1][0] == key && path[..1][1..] == [];
        assert SourceDecidesAt(d, s, path, 1);
      }
    }
  }

  /** A source that is silent about the first key decides nowhere along the path. */
  lemma {:induction false} SilentSource(d: Value, s: Value, path: seq<string>)
    requires d.Obj? && s.Obj? && path != [] && !Effective(s.fields, path[0])
    ensures !SourceDecides(d, s, path) && Said(d, s, path).None?
    ensures Lookup(Merge(d, s), path) == Lookup(d, path)
  {
    forall n | 0 <= n <= |path| ensures !SourceDecidesAt(d, s, path, n) {
      if n > 0 {
        assert path[..n][0] == path[0];
      } else {
        assert path[..0] == [];
      }
    }
  }
}
