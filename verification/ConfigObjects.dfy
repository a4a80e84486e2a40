/**
 Patching a config that is a tree of mutable dicts: the patch works on a deep copy, so the dicts of the base config
 are never written. Lists hold no dict that a patch path can reach and count as leaves.
 */
module ConfigObjects {
  import opened Text
  import opened Json
  import opened FlowConfig

  datatype Value = Leaf(json: Json) | Ref(dict: Dict)

  class Dict {
    var entries: map<string, Value>
    ghost var Repr: set<Dict>

    /** A tree: no dict is below itself or below two keys. */
    ghost predicate Valid()
      reads this, Repr
      decreases Repr
    {
      && this in Repr
      && (forall k :: k in entries && entries[k].Ref? ==>
            entries[k].dict in Repr && entries[k].dict.Repr <= Repr && this !in entries[k].dict.Repr
            && entries[k].dict.Valid())
      && (forall k :: k in entries && entries[k].Leaf? ==> !entries[k].json.Obj?)
      && (forall k, l :: k in entries && l in entries && k != l && entries[k].Ref? && entries[l].Ref? ==>
            entries[k].dict.Repr !! entries[l].dict.Repr)
    }

    /** The config value the tree stands for. */
    ghost function Contents(): map<string, Json>
      requires Valid()
      reads this, Repr
      decreases Repr
    {
      map k | k in entries ::
        match entries[k] case Leaf(json) => json case Ref(dict) => Obj(dict.Contents())
    }

    constructor ()
      ensures Valid() && entries == map[] && Repr == {this} && Contents() == map[]
    {
      entries, Repr := map[], {this};
    }
  }

  /** The entry at `k` is a leaf, or a tree inside `d`, with the content of the snapshot. */
  ghost predicate EntryIs(d: Dict, k: string, fields: map<string, Json>)
    requires k in d.entries
    reads *
  {
    k in fields &&
    match d.entries[k]
    case Leaf(json) => !json.Obj? && fields[k] == json
    case Ref(dict) =>
      && dict in d.Repr && dict in dict.Repr && dict.Repr <= d.Repr && d !in dict.Repr
      && dict.Valid() && fields[k] == Obj(dict.Contents())
  }

  /** No dict is below two keys. */
  ghost predicate Apart(d: Dict)
    reads *
  {
    forall k, l :: k in d.entries && l in d.entries && k != l && d.entries[k].Ref? && d.entries[l].Ref? ==>
      d.entries[k].dict.Repr !! d.entries[l].dict.Repr
  }

  /** A tree, entry by entry. */
  lemma EntriesOf(d: Dict)
    requires d.Valid()
    ensures d in d.Repr && d.Contents().Keys == d.entries.Keys && Apart(d)
    ensures forall k :: k in d.entries ==> EntryIs(d, k, d.Contents())
  {
  }

  /** A tree put together from its entries. */
  lemma Rebuilt(d: Dict, fields: map<string, Json>)
    requires d in d.Repr && d.entries.Keys == fields.Keys && Apart(d)
    requires forall k :: k in d.entries ==> EntryIs(d, k, fields)
    ensures d.Valid() && d.Contents() == fields
  {
  }

  /** `_deep_copy_dict` */
  method DeepCopy(d: Dict) returns (c: Dict)
    requires d.Valid()
    ensures c.Valid() && fresh(c.Repr) && c.Contents() == d.Contents()
    decreases d.Repr, 1
  {
    hide Dict.Valid, Dict.Contents;
    EntriesOf(d);
    c := new Dict();
    var todo := d.entries.Keys;
    ghost var fields := d.Contents();
    while todo != {}
      invariant todo <= d.entries.Keys == fields.Keys
      invariant c.Valid() && fresh(c.Repr) && d.Valid() && d.Contents() == fields
      invariant c.Contents() == fields - todo
    {
      var k :| k in todo;
      OneLess(fields, todo, k);
      CopyEntry(d, c, k);
      todo := todo - {k};
    }
    assert fields - {} == fields;
  }

  lemma OneLess(fields: map<string, Json>, todo: set<string>, k: string)
    requires todo <= fields.Keys && k in todo
    ensures fields - (todo - {k}) == (fields - todo)[k := fields[k]]
  {
  }

  /** One entry: a nested dict is copied, anything else is taken over. */
  method CopyEntry(d: Dict, c: Dict, k: string)
    requires d.Valid() && c.Valid() && d.Repr !! c.Repr && k in d.entries
    modifies c
    ensures c.Valid() && fresh(c.Repr - old(c.Repr))
    ensures c.Contents() == old(c.Contents())[k := d.Contents()[k]]
    decreases d.Repr, 0
  {
    hide Dict.Valid, Dict.Contents;
    EntriesOf(d);
    EntriesOf(c);
    assert EntryIs(d, k, d.Contents());
    match d.entries[k] {
      case Leaf(json) =>
        SetLeaf(c, k, json);
      case Ref(dict) =>
        var copied := DeepCopy(dict);
        EntriesOf(copied);
        Attach(c, k, copied);
    }
  }

  /** `d[k] = v` for a value that is no dict. */
  method SetLeaf(d: Dict, k: string, json: Json)
    requires d.Valid() && !json.Obj?
    modifies d
    ensures d.Valid() && d.Repr == old(d.Repr) && d.entries == old(d.entries)[k := Leaf(json)]
    ensures d.Contents() == old(d.Contents())[k := json]
  {
    hide Dict.Valid, Dict.Contents;
    EntriesOf(d);
    ghost var fields := d.Contents();
    d.entries := d.entries[k := Leaf(json)];
    Rebuilt(d, fields[k := json]);
  }

  /** `d[k] = child` for a tree that is apart from `d`. */
  method Attach(d: Dict, k: string, child: Dict)
    requires d.Valid() && child.Valid() && d.Repr !! child.Repr
    modifies d
    ensures d.Valid() && d.Repr == old(d.Repr) + child.Repr && d.entries == old(d.entries)[k := Ref(child)]
    ensures d.Contents() == old(d.Contents())[k := Obj(child.Contents())]
  {
    hide Dict.Valid, Dict.Contents;
    EntriesOf(d);
    EntriesOf(child);
    ghost var fields := d.Contents();
    d.entries := d.entries[k := Ref(child)];
    d.Repr := d.Repr + child.Repr;
    Rebuilt(d, fields[k := Obj(child.Contents())]);
  }

  /** The dict at a key; a missing or other value is replaced by an empty dict. */
  method ChildAt(d: Dict, k: string) returns (child: Dict)
    requires d.Valid()
    modifies d
    ensures d.Valid() && fresh(d.Repr - old(d.Repr))
    ensures k in d.entries && d.entries[k] == Ref(child)
    ensures d.Contents() == old(d.Contents())[k := Obj(ChildFields(old(d.Contents()), k))]
  {
    if k in d.entries && d.entries[k].Ref? {
      child := d.entries[k].dict;
    } else {
      child := new Dict();
      Attach(d, k, child);
    }
  }

  function ChildFields(fields: map<string, Json>, k: string): map<string, Json> {
    if k in fields && fields[k].Obj? then fields[k].fields else map[]
  }

  /** The recursive step: below one key, leaving the trees below the others as they were. */
  method ApplyBelow(root: Dict, k: string, segs: seq<string>, value: Json)
    requires root.Valid() && segs != [] && !value.Obj? && k in root.entries && root.entries[k].Ref?
    modifies root.entries[k].dict.Repr
    ensures root.entries == old(root.entries) && root.Repr == old(root.Repr)
    ensures var child := root.entries[k].dict;
            && child.Valid() && fresh(child.Repr - old(child.Repr))
            && child.Contents() == SetAt(old(child.Contents()), segs, value)
    ensures forall l :: l in root.entries && l != k ==> EntryIs(root, l, old(root.Contents()))
    ensures forall l :: l in root.entries && l != k && root.entries[l].Ref? ==>
              root.entries[l].dict.Repr == old(root.entries[l].dict.Repr)
    decreases |segs|, 2
  {
    hide Dict.Valid, Dict.Contents, SetAt;
    EntriesOf(root);
    assert EntryIs(root, k, root.Contents());
    ApplySet(root.entries[k].dict, segs, value);
  }

  /** The same, with the tree put together again. */
  method ApplyInside(root: Dict, k: string, segs: seq<string>, value: Json)
    requires root.Valid() && segs != [] && !value.Obj? && k in root.entries && root.entries[k].Ref?
    modifies root.Repr
    ensures root.Valid() && fresh(root.Repr - old(root.Repr))
    ensures root.Contents()
         == old(root.Contents())[k := Obj(SetAt(ChildFields(old(root.Contents()), k), segs, value))]
    decreases |segs|, 3
  {
    hide Dict.Valid, Dict.Contents, SetAt;
    EntriesOf(root);
    ghost var fields := root.Contents();
    assert EntryIs(root, k, fields) && ChildFields(fields, k) == root.entries[k].dict.Contents();
    ApplyBelow(root, k, segs, value);
    var child := root.entries[k].dict;
    EntriesOf(child);
    assert Apart(root) && root !in child.Repr;
    root.Repr := root.Repr + child.Repr;
    Rebuilt(root, fields[k := Obj(child.Contents())]);
  }

  lemma SetAtStep(fields: map<string, Json>, segs: seq<string>, value: Json)
    requires |segs| > 1
    ensures var k := segs[0];
            var made := fields[k := Obj(ChildFields(fields, k))];
            SetAt(fields, segs, value) == made[k := Obj(SetAt(ChildFields(made, k), segs[1..], value))]
  {
  }

  /** `_apply_set`: walk to the last dict, creating dicts on the way, and write the value there. */
  method ApplySet(root: Dict, segs: seq<string>, value: Json)
    requires root.Valid() && segs != [] && !value.Obj?
    modifies root.Repr
    ensures root.Valid() && fresh(root.Repr - old(root.Repr))
    ensures root.Contents() == SetAt(old(root.Contents()), segs, value)
    decreases |segs|, 1
  {
    if |segs| == 1 {
      SetLeaf(root, segs[0], value);
      return;
    }
    SetAtStep(root.Contents(), segs, value);
    var _ := ChildAt(root, segs[0]);
    ApplyInside(root, segs[0], segs[1..], value);
  }

  method PatchOne(copied: Dict, op: PatchOp)
    requires copied.Valid() && Segments(op.path) != [] && !op.value.Obj?
    modifies copied.Repr
    ensures copied.Valid() && fresh(copied.Repr - old(copied.Repr))
    ensures copied.Contents() == ApplyOp(old(copied.Contents()), op)
  {
    ApplySet(copied, Segments(op.path), op.value);
  }

  /** `apply_ops`: the base config is left as it was, dict by dict; only new dicts are written. */
  method PatchCopy(base: Dict, ops: seq<PatchOp>) returns (out: Option<Dict>)
    requires base.Valid() && forall i :: 0 <= i < |ops| ==> !ops[i].value.Obj?
    ensures out == None <==> exists i :: 0 <= i < |ops| && Segments(ops[i].path) == []
    ensures out.Some? ==> out.value.Valid() && fresh(out.value.Repr)
                          && out.value.Contents() == Patched(base.Contents(), ops)
  {
    hide Dict.Valid, Dict.Contents;
    var copied := DeepCopy(base);
    ghost var fields := base.Contents();
    assert ops[..0] == [];
    for i := 0 to |ops|
      invariant copied.Valid() && fresh(copied.Repr)
      invariant copied.Contents() == Patched(fields, ops[..i])
      invariant forall k | 0 <= k < i :: Segments(ops[k].path) != []
    {
      if Segments(ops[i].path) == [] {
        return None;
      }
      PatchOne(copied, ops[i]);
      assert ops[..i + 1][..i] == ops[..i];
    }
    assert ops[..|ops|] == ops;
    out := Some(copied);
  }
}
