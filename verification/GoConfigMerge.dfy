/**
 * The Go merge on the heap: the destination map is changed in place and takes
 * over the source's values by reference, so the two share submaps afterwards.
 */
module GoConfigMerge {
  import opened Wrappers
  import opened MergeModel
  import opened ConfigMerge

  lemma {:induction false} GoEntry(d: Value, s: Fields, k: string)
    requires d.Obj?
    ensures Get(GoMerge(d, Obj(s)).fields, k) ==
            if k in s then Some(GoMerged(Get(d.fields, k), s[k])) else Get(d.fields, k)
  {
  }

  lemma {:induction false} GoOneMore(d: Value, s: Value, rest: set<string>, key: string)
    requires d.Obj? && s.Obj? && key in rest && key in s.fields
    ensures var m := GoMerge(d, Obj(Without(s.fields, rest)));
            && Get(m.fields, key) == Get(d.fields, key)
            && GoMerge(d, Obj(Without(s.fields, rest - {key}))) ==
               Obj(m.fields[key := GoMerged(Get(m.fields, key), s.fields[key])])
  {
    var some, more := Without(s.fields, rest), Without(s.fields, rest - {key});
    WithoutLess(s.fields, rest, key);
    var m, n := GoMerge(d, Obj(some)), GoMerge(d, Obj(more));
    GoEntry(d, some, key);
    var expected := m.fields[key := GoMerged(Get(m.fields, key), s.fields[key])];
    forall k ensures Get(n.fields, k) == Get(expected, k) {
      GoEntry(d, some, k);
      GoEntry(d, more, k);
    }
    SameFields(n.fields, expected);
  }

  /** Merge a submap of the source into the submap `dst` has under `key`; the other properties stand for what they did. */
  method MergeUnder(dst: Node, key: string, src: Node)
    requires dst.Valid() && src.Valid() && dst.repr !! src.repr
    requires key in dst.fields && dst.fields[key].Ref?
    modifies dst.fields[key].node.repr
    ensures var child := dst.fields[key].node;
            && child.Valid() && dst !in child.repr && child.repr <= old(child.repr) + src.repr
            && child.Contents() == GoMerge(old(child.Contents()), old(src.Contents()))
    ensures src.Valid() && src.repr == old(src.repr) && src.Contents() == old(src.Contents())
    ensures forall k :: k in dst.fields && k != key ==> Stands(dst, key, k, old(dst.Contents()).fields[k])
    ensures forall k :: k in dst.fields && k != key && dst.fields[k].Ref? ==>
              dst.fields[k].node.repr == old(dst.fields[k].node.repr)
    decreases src.repr, 3
  {
    var child := dst.fields[key].node;
    ghost var was := dst.Contents();
    MergeInto(child, src);
    forall k | k in dst.fields && k != key ensures Stands(dst, key, k, was.fields[k]) {
      assert was.fields[k] == old(dst.At(k));
      assert dst.fields[k].Ref? ==> old(dst.fields[k].node.repr) !! old(child.repr);
    }
  }

  /** Merge a submap of the source into the submap `dst` has under `key`. */
  method MergeSubmap(dst: Node, key: string, src: Node)
    requires dst.Valid() && src.Valid() && dst.repr !! src.repr
    requires key in dst.fields && dst.fields[key].Ref?
    modifies {dst} + dst.fields[key].node.repr
    ensures dst.Valid() && dst.fields == old(dst.fields) && dst.repr <= old(dst.repr) + src.repr
    ensures src.Valid() && src.repr == old(src.repr) && src.Contents() == old(src.Contents())
    ensures var d := old(dst.Contents()).fields;
            d[key].Obj? && dst.Contents() == Obj(d[key := GoMerge(d[key], old(src.Contents()))])
    ensures forall k :: k in dst.fields && k != key && dst.fields[k].Ref? ==>
              dst.fields[k].node.repr == old(dst.fields[k].node.repr)
    decreases src.repr, 4
  {
    ghost var was := dst.Contents();
    assert was.fields[key] == dst.At(key);
    MergeUnder(dst, key, src);
    Regrow(dst, key, was.fields);
  }

  /**
   * Between two keys of the loop: the source is as it was, `dst` reaches nothing
   * of the source's properties still to come, and its own for those are `own`.
   */
  ghost predicate Apart(dst: Node, src: Node, rest: set<string>, own: set<Node>)
    reads dst, dst.repr, src, src.repr
  {
    && dst.Valid() && src.Valid() && rest <= src.fields.Keys && src !in dst.repr && dst !in src.repr
    && dst.repr <= own + src.repr
    && (forall k :: k in rest && src.fields[k].Ref? ==> src.fields[k].node.repr !! dst.repr)
    && (forall k :: k in rest && k in dst.fields && dst.fields[k].Ref? ==> dst.fields[k].node.repr <= own)
  }

  /** One key of the range loop. */
  method MergeKey(dst: Node, src: Node, rest: set<string>, key: string, ghost own: set<Node>)
    requires Apart(dst, src, rest, own) && key in rest && dst in own && own !! src.repr
    modifies own
    ensures Apart(dst, src, rest - {key}, own)
    ensures src.repr == old(src.repr) && src.fields == old(src.fields) && src.Contents() == old(src.Contents())
    ensures var d, s := old(dst.Contents()).fields, old(src.Contents()).fields;
            dst.Contents() == Obj(d[key := GoMerged(Get(d, key), s[key])])
    decreases src.repr, 0
  {
    ghost var d, s := dst.Contents().fields, src.Contents().fields;
    assert s[key] == src.At(key) && (key in d ==> d[key] == dst.At(key));
    var prop := src.fields[key];
    if key in dst.fields && prop.Ref? && dst.fields[key].Ref? {
      MergeSubmap(dst, key, prop.node);
    } else if prop.Ref? {
      SetObject(dst, key, prop.node);
    } else {
      SetPlain(dst, key, prop);
    }
  }

  /** Merge `src` into `dst` in place: the same tree on values, built by taking over the source's submaps. */
  method MergeInto(dst: Node, src: Node)
    requires dst.Valid() && src.Valid() && dst.repr !! src.repr
    modifies dst.repr
    ensures dst.Valid() && dst.repr <= old(dst.repr) + src.repr
    ensures src.Valid() && src.repr == old(src.repr) && src.Contents() == old(src.Contents())
    ensures dst.Contents() == GoMerge(old(dst.Contents()), old(src.Contents()))
    decreases src.repr, 2
  {
    ghost var d, s, own := dst.Contents(), src.Contents(), dst.repr;
    var rest := src.fields.Keys;
    assert GoMerge(d, Obj(Without(s.fields, s.fields.Keys))) == d;
    while rest != {}
      invariant Apart(dst, src, rest, own)
      invariant src.repr == old(src.repr) && src.Contents() == s
      invariant dst.Contents() == GoMerge(d, Obj(Without(s.fields, rest)))
      decreases |rest|
    {
      var key :| key in rest;
      GoOneMore(d, s, rest, key);
      MergeKey(dst, src, rest, key, own);
      rest := rest - {key};
    }
    assert Without(s.fields, {}) == s.fields;
  }
}
