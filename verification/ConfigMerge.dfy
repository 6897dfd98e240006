/**
 * The JavaScript merge on the heap: the target is changed in place, the source
 * is not, and the two share no object afterwards.
 */
module ConfigMerge {
  import opened Wrappers
  import opened MergeModel

  /** A property: a value without identity, or a plain object. */
  datatype Prop = Plain(text: string) | Missing | Ref(node: Node)

  /** A plain object. `repr` is every object reachable from it; the graph is a tree. */
  class Node {
    var fields: map<string, Prop>
    ghost var repr: set<Node>

    constructor ()
      ensures Valid() && fresh(repr) && fields == map[] && repr == {this}
    {
      fields, repr := map[], {this};
    }

    ghost predicate Valid()
      reads this, repr
      decreases repr
    {
      && this in repr
      && (forall k :: k in fields && fields[k].Ref? ==>
            && fields[k].node in repr && fields[k].node.repr < repr && this !in fields[k].node.repr
            && fields[k].node.Valid())
      && (forall k, l :: k in fields && l in fields && k != l && fields[k].Ref? && fields[l].Ref? ==>
            fields[k].node.repr !! fields[l].node.repr)
    }

    /** The value one property stands for. */
    ghost function At(k: string): Value
      requires Valid() && k in fields
      reads this, repr
      decreases repr, 0
    {
      match fields[k]
      case Plain(text) => Leaf(text)
      case Missing => Undefined
      case Ref(node) => node.Contents()
    }

    /** The tree this object stands for. */
    ghost function Contents(): (v: Value)
      requires Valid()
      reads this, repr
      ensures v.Obj? && v.fields.Keys == fields.Keys
      decreases repr, 1
    {
      Obj(map k | k in fields :: At(k))
    }
  }

  /** Give `target` an object of its own under `key`. */
  method SetObject(target: Node, key: string, node: Node)
    requires target.Valid() && node.Valid() && target.repr !! node.repr
    modifies target
    ensures target.Valid() && target.repr == old(target.repr) + node.repr
    ensures target.fields == old(target.fields)[key := Ref(node)]
    ensures target.Contents() == Obj(old(target.Contents()).fields[key := node.Contents()])
  {
    target.fields := target.fields[key := Ref(node)];
    target.repr := target.repr + node.repr;
    assert target.Valid();
    forall k | k in old(target.fields) && k != key ensures target.At(k) == old(target.At(k)) {
    }
  }

  /** Give `target` a value without identity under `key`. */
  method SetPlain(target: Node, key: string, prop: Prop)
    requires target.Valid() && !prop.Ref?
    modifies target
    ensures target.Valid() && target.repr == old(target.repr) && target.fields == old(target.fields)[key := prop]
    ensures target.Contents() ==
            Obj(old(target.Contents()).fields[key := if prop.Plain? then Leaf(prop.text) else Undefined])
  {
    target.fields := target.fields[key := prop];
    assert target.Valid();
    forall k | k in old(target.fields) && k != key ensures target.At(k) == old(target.At(k)) {
    }
  }

  /** The properties outside `rest`. */
  function Without(fields: Fields, rest: set<string>): Fields {
    map k | k in fields && k !in rest :: fields[k]
  }

  lemma WithoutLess(fields: Fields, rest: set<string>, key: string)
    requires key in rest && key in fields
    ensures Without(fields, rest - {key}) == Without(fields, rest)[key := fields[key]]
  {
  }

  /** Give `target` a copy of its own of one property of `source`. */
  method CopyKey(source: Node, key: string, target: Node)
    requires source.Valid() && key in source.fields && target.Valid() && source.repr !! target.repr
    modifies target
    ensures target.Valid() && fresh(target.repr - old(target.repr)) && old(target.repr) <= target.repr
    ensures target.Contents() == Obj(old(target.Contents()).fields[key := old(source.Contents()).fields[key]])
    decreases source.repr, 0
  {
    ghost var theirs := source.Contents().fields[key];
    assert theirs == source.At(key);
    var prop := source.fields[key];
    if prop.Ref? {
      var node := Clone(prop.node);
      SetObject(target, key, node);
    } else {
      SetPlain(target, key, prop);
    }
  }

  /** structuredClone of a plain object. */
  method Clone(source: Node) returns (copy: Node)
    requires source.Valid()
    ensures copy.Valid() && fresh(copy.repr) && copy.Contents() == source.Contents()
    decreases source.repr, 1
  {
    copy := new Node();
    ghost var all := source.Contents().fields;
    var rest := source.fields.Keys;
    while rest != {}
      invariant rest <= source.fields.Keys
      invariant copy.Valid() && fresh(copy.repr)
      invariant source.Valid() && source.Contents().fields == all
      invariant copy.Contents() == Obj(Without(all, rest))
      decreases |rest|
    {
      var key :| key in rest;
      WithoutLess(all, rest, key);
      CopyKey(source, key, copy);
      rest := rest - {key};
    }
    assert Without(all, {}) == all;
  }

  // ---------------------------------------------------------------- the merge

  /** The merge with the source keys in `rest` still to come. */
  ghost function Partly(d: Value, s: Value, rest: set<string>): Value
    requires d.Obj? && s.Obj?
  {
    Merge(d, Obj(Without(s.fields, rest)))
  }

  lemma OneMoreKey(d: Value, s: Value, rest: set<string>, key: string)
    requires d.Obj? && s.Obj? && key in rest && key in s.fields
    ensures var m := Partly(d, s, rest);
            Partly(d, s, rest - {key}) ==
              if Effective(s.fields, key) then Obj(m.fields[key := MergedAt(m, s, key)]) else m
  {
    WithoutLess(s.fields, rest, key);
    MergeOneMore(d, s, Without(s.fields, rest), key);
  }

  /** One entry of a merge. */
  lemma {:induction false} Entry(d: Value, s: Fields, k: string)
    requires d.Obj?
    ensures Get(Merge(d, Obj(s)).fields, k) ==
            if Effective(s, k) then Some(Merged(Get(d.fields, k), s[k])) else Get(d.fields, k)
  {
  }

  lemma {:induction false} SameFields(a: Fields, b: Fields)
    requires forall k :: Get(a, k) == Get(b, k)
    ensures a == b
  {
    forall k ensures k in a <==> k in b {
      assert Get(a, k) == Get(b, k);
    }
    forall k | k in a ensures a[k] == b[k] {
      assert Get(a, k) == Get(b, k);
    }
  }

  lemma {:induction false} MergeOneMore(d: Value, s: Value, some: Fields, key: string)
    requires d.Obj? && s.Obj? && key !in some && key in s.fields
    ensures var m := Merge(d, Obj(some));
            Merge(d, Obj(some[key := s.fields[key]])) ==
              if Effective(s.fields, key) then Obj(m.fields[key := MergedAt(m, s, key)]) else m
  {
    var more := some[key := s.fields[key]];
    var m, n := Merge(d, Obj(some)), Merge(d, Obj(more));
    Entry(d, some, key);
    var expected := if Effective(s.fields, key) then m.fields[key := MergedAt(m, s, key)] else m.fields;
    forall k ensures Get(n.fields, k) == Get(expected, k) {
      Entry(d, some, k);
      Entry(d, more, k);
    }
    SameFields(n.fields, expected);
  }

  /** Merge an object into the object `target` has under `key`; the other properties stand for what they did. */
  method MergeUnder(target: Node, key: string, source: Node)
    requires target.Valid() && source.Valid() && target.repr !! source.repr
    requires key in target.fields && target.fields[key].Ref?
    modifies target.fields[key].node.repr
    ensures var child := target.fields[key].node;
            && child.Valid() && target !in child.repr && fresh(child.repr - old(child.repr))
            && child.Contents() == Merge(old(child.Contents()), old(source.Contents()))
    ensures source.Valid() && source.Contents() == old(source.Contents())
    ensures forall k :: k in target.fields && k != key ==> Stands(target, key, k, old(target.Contents()).fields[k])
    decreases source.repr, 3
  {
    var child := target.fields[key].node;
    ghost var was := target.Contents();
    DeepMerge(child, source);
    forall k | k in target.fields && k != key ensures Stands(target, key, k, was.fields[k]) {
      assert was.fields[k] == old(target.At(k));
      assert target.fields[k].Ref? ==> old(target.fields[k].node.repr) !! old(child.repr);
    }
  }

  /** Merge an object into the object `target` has under `key`. */
  method MergeChild(target: Node, key: string, source: Node)
    requires target.Valid() && source.Valid() && target.repr !! source.repr
    requires key in target.fields && target.fields[key].Ref?
    modifies target.repr
    ensures target.Valid() && fresh(target.repr - old(target.repr))
    ensures source.Valid() && source.Contents() == old(source.Contents())
    ensures var d := old(target.Contents()).fields;
            d[key].Obj? && target.Contents() == Obj(d[key := Merge(d[key], old(source.Contents()))])
    decreases source.repr, 4
  {
    ghost var was := target.Contents();
    assert was.fields[key] == target.At(key);
    MergeUnder(target, key, source);
    Regrow(target, key, was.fields);
  }

  /** The property `k` of `target` still stands for `v`, apart from the object under `key`. */
  ghost predicate Stands(target: Node, key: string, k: string, v: Value)
    requires key in target.fields && target.fields[key].Ref? && k in target.fields
    reads target, target.fields[key].node
    reads if target.fields[k].Ref? then {target.fields[k].node} + target.fields[k].node.repr else {}
  {
    match target.fields[k]
    case Plain(text) => v == Leaf(text)
    case Missing => v == Undefined
    case Ref(node) =>
      && node in target.repr && node.repr < target.repr && target !in node.repr
      && node.repr !! target.fields[key].node.repr && node.Valid() && v == node.Contents()
  }

  /** Once the object under `key` has changed, `target` reaches what that object reaches. */
  ghost method Regrow(target: Node, key: string, was: Fields)
    requires key in target.fields && target.fields[key].Ref? && target in target.repr
    requires target.fields[key].node.Valid() && target !in target.fields[key].node.repr
    requires was.Keys == target.fields.Keys
    requires forall k :: k in target.fields && k != key ==> Stands(target, key, k, was[k])
    requires forall k, l :: k in target.fields - {key} && l in target.fields - {key} && k != l ==>
               target.fields[k].Ref? && target.fields[l].Ref? ==> target.fields[k].node.repr !! target.fields[l].node.repr
    modifies target`repr
    ensures target.Valid() && target.repr == old(target.repr) + target.fields[key].node.repr
    ensures target.Contents() == Obj(was[key := target.fields[key].node.Contents()])
  {
    var child := target.fields[key].node;
    target.repr := target.repr + child.repr;
    assert forall k :: k in target.fields && k != key && target.fields[k].Ref? ==>
        target.fields[k].node.Valid() && target.fields[k].node.Contents() == was[k];
    assert target.Valid();
    assert target.At(key) == child.Contents();
  }

  /**
   * Merge `source` into `target` in place. The source keeps its tree, the target
   * holds the merge, and the two share no object.
   */
  method DeepMerge(target: Node, source: Node)
    requires target.Valid() && source.Valid() && target.repr !! source.repr
    modifies target.repr
    ensures target.Valid() && fresh(target.repr - old(target.repr))
    ensures source.Valid() && source.repr == old(source.repr) && source.Contents() == old(source.Contents())
    ensures target.repr !! source.repr
    ensures target.Contents() == Merge(old(target.Contents()), old(source.Contents()))
    decreases source.repr, 2
  {
    ghost var d, s := target.Contents(), source.Contents();
    var rest := source.fields.Keys;
    assert Partly(d, s, s.fields.Keys) == d;
    while rest != {}
      invariant rest <= source.fields.Keys
      invariant target.Valid() && fresh(target.repr - old(target.repr))
      invariant source.Valid() && source.repr == old(source.repr) && source.Contents() == s
      invariant target.Contents() == Partly(d, s, rest)
      decreases |rest|
    {
      var key :| key in rest;
      OneMoreKey(d, s, rest, key);
      MergeKey(target, source, key);
      rest := rest - {key};
    }
    assert Without(s.fields, {}) == s.fields;
  }

  /** One key of the source's own. */
  method MergeKey(target: Node, source: Node, key: string)
    requires target.Valid() && source.Valid() && target.repr !! source.repr && key in source.fields
    modifies target.repr
    ensures target.Valid() && fresh(target.repr - old(target.repr))
    ensures source.Valid() && source.repr == old(source.repr) && source.Contents() == old(source.Contents())
    ensures source.fields == old(source.fields)
    ensures var d, s := old(target.Contents()), old(source.Contents());
            target.Contents() == if Effective(s.fields, key) then Obj(d.fields[key := MergedAt(d, s, key)]) else d
    decreases source.repr, 1
  {
    if Polluting(key) {
      return;
    }
    var prop := source.fields[key];
    assert source.Contents().fields[key] == source.At(key);
    if prop.Missing? {
      return;
    }
    if prop.Ref? && key in target.fields && target.fields[key].Ref? {
      assert target.Contents().fields[key] == target.At(key);
      MergeChild(target, key, prop.node);
    } else {
      assert key in target.fields ==> target.Contents().fields[key] == target.At(key);
      CopyKey(source, key, target);
    }
  }
}
