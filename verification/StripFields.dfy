/** stripNoisyFields: removal of bulky Kubernetes metadata from a decoded JSON
    object, in place on the heap. */
module StripFields {
  import opened Json

  // ---- Meaning, for any set of noisy annotation keys ------------------------

  /** What an object is to the object that holds it. */
  datatype Role = Plain | Metadata | Annotations

  function ChildRole(role: Role, key: string): Role {
    if key == "metadata" then Metadata
    else if role == Metadata && key == "annotations" then Annotations
    else Plain
  }

  predicate Dropped<L>(noisy: set<string>, role: Role, key: string, v: Tree<L>) {
    match role
    case Plain => false
    case Metadata => key == "managedFields" || (key == "annotations" && v.Object? && v.kids.Keys <= noisy)
    case Annotations => key in noisy
  }

  /** The stripped tree. Lists are searched for objects, but not for lists. */
  function Strip<L>(noisy: set<string>, role: Role, t: Tree<L>): (r: Tree<L>)
    ensures t.Object? <==> r.Object?
    ensures t.Object? ==> r.loc == t.loc
    decreases t
  {
    match t
    case Scalar(_) => t
    case List(items) => List(seq(|items|, i requires 0 <= i < |items| => StripItem(noisy, t, i)))
    case Object(l, kids) =>
      Object(l, map k | k in kids && !Dropped(noisy, role, k, kids[k]) :: Strip(noisy, ChildRole(role, k), kids[k]))
  }

  function StripItem<L>(noisy: set<string>, list: Tree<L>, i: nat): (r: Tree<L>)
    requires list.List? && i < |list.items|
    decreases list, 0
  {
    if list.items[i].Object? then Strip(noisy, Plain, list.items[i]) else list.items[i]
  }

  // ---- In place ------------------------------------------------------------

  function TrimAnnotations<L>(noisy: set<string>, ann: Tree<L>): Tree<L>
    requires ann.Object?
  {
    Object(ann.loc, ann.kids - noisy)
  }

  function TrimMetadata<L>(noisy: set<string>, meta: Tree<L>): Tree<L>
    requires meta.Object?
  {
    var kids := meta.kids - {"managedFields"};
    Object(meta.loc,
           if "annotations" !in kids || !kids["annotations"].Object? then kids
           else if kids["annotations"].kids.Keys <= noisy then kids - {"annotations"}
           else kids["annotations" := TrimAnnotations(noisy, kids["annotations"])])
  }

  /** The object after the first half of the body, before the recursion. */
  function TrimObject<L>(noisy: set<string>, t: Tree<L>): Tree<L>
    requires t.Object?
  {
    if "metadata" in t.kids && t.kids["metadata"].Object?
    then Object(t.loc, t.kids["metadata" := TrimMetadata(noisy, t.kids["metadata"])])
    else t
  }

  lemma TrimThenStripAnnotations<L>(noisy: set<string>, ann: Tree<L>)
    requires ann.Object?
    ensures Strip(noisy, Plain, TrimAnnotations(noisy, ann)) == Strip(noisy, Annotations, ann)
  {
    assert Strip(noisy, Plain, TrimAnnotations(noisy, ann)).kids == Strip(noisy, Annotations, ann).kids;
  }

  lemma TrimThenStripMetadata<L>(noisy: set<string>, meta: Tree<L>)
    requires meta.Object?
    ensures Strip(noisy, Plain, TrimMetadata(noisy, meta)) == Strip(noisy, Metadata, meta)
  {
    var a, b := Strip(noisy, Plain, TrimMetadata(noisy, meta)), Strip(noisy, Metadata, meta);
    forall k
      ensures k in a.kids <==> k in b.kids
      ensures k in a.kids ==> a.kids[k] == b.kids[k]
    {
      if k == "annotations" && k in meta.kids {
        if meta.kids[k].Object? {
          TrimThenStripAnnotations(noisy, meta.kids[k]);
        } else {
          RoleIsForObjects(noisy, Annotations, Plain, meta.kids[k]);
        }
      }
    }
    assert a.kids == b.kids;
  }

  lemma RoleIsForObjects<L>(noisy: set<string>, r: Role, s: Role, t: Tree<L>)
    requires !t.Object?
    ensures Strip(noisy, r, t) == Strip(noisy, s, t)
  {
  }

  /** The recursion sees every child of the trimmed object as a plain object. */
  lemma TrimThenStripKid<L>(noisy: set<string>, t: Tree<L>, k: string)
    requires t.Object? && k in t.kids
    ensures TrimObject(noisy, t).kids.Keys == t.kids.Keys
    ensures Strip(noisy, Plain, TrimObject(noisy, t).kids[k]) == Strip(noisy, Plain, t).kids[k]
  {
    if k == "metadata" {
      if t.kids[k].Object? {
        TrimThenStripMetadata(noisy, t.kids[k]);
      } else {
        RoleIsForObjects(noisy, Metadata, Plain, t.kids[k]);
      }
    }
  }

  lemma StripKeepsValue(noisy: set<string>, role: Role, t: Tree<Node>)
    ensures ValueOf(Strip(noisy, role, t)) == ValueOf(t)
    decreases t
  {
    if t.List? {
      forall i | 0 <= i < |t.items| ensures ValueOf(StripItem(noisy, t, i)) == ValueOf(t.items[i]) {
        if t.items[i].Object? { StripKeepsValue(noisy, Plain, t.items[i]); }
      }
      assert ValueOf(Strip(noisy, role, t)).elements == ValueOf(t).elements;
    }
  }

  lemma {:induction false} LocsOfStrip(noisy: set<string>, role: Role, t: Tree<Node>)
    ensures Locs(Strip(noisy, role, t)) <= Locs(t)
    decreases t
  {
    var r := Strip(noisy, role, t);
    match t
    case Scalar(_) =>
    case List(items) =>
      forall i | 0 <= i < |items| ensures Locs(r.items[i]) <= Locs(t) {
        if items[i].Object? { LocsOfStrip(noisy, Plain, items[i]); }
        assert r.items[i] == StripItem(noisy, t, i);
      }
    case Object(l, kids) =>
      forall k | k in r.kids ensures Locs(r.kids[k]) <= Locs(t) {
        LocsOfStrip(noisy, ChildRole(role, k), kids[k]);
      }
  }

  lemma TrimAnnotationsSeparate(noisy: set<string>, ann: Tree<Node>)
    requires ann.Object? && Separate(ann)
    ensures Separate(TrimAnnotations(noisy, ann)) && Locs(TrimAnnotations(noisy, ann)) <= Locs(ann)
  {
  }

  lemma TrimMetadataSeparate(noisy: set<string>, meta: Tree<Node>)
    requires meta.Object? && Separate(meta)
    ensures Separate(TrimMetadata(noisy, meta)) && Locs(TrimMetadata(noisy, meta)) <= Locs(meta)
  {
    var m := TrimMetadata(noisy, meta);
    forall k | k in m.kids
      ensures Separate(m.kids[k]) && Locs(m.kids[k]) <= Locs(meta.kids[k])
    {
      if meta.kids[k].Object? { TrimAnnotationsSeparate(noisy, meta.kids[k]); }
    }
    KidsShrink(meta, m);
  }

  lemma TrimObjectSeparate(noisy: set<string>, t: Tree<Node>)
    requires t.Object? && Separate(t)
    ensures Separate(TrimObject(noisy, t)) && Locs(TrimObject(noisy, t)) <= Locs(t)
  {
    var m := TrimObject(noisy, t);
    forall k | k in m.kids
      ensures Separate(m.kids[k]) && Locs(m.kids[k]) <= Locs(t.kids[k])
    {
      if t.kids[k].Object? { TrimMetadataSeparate(noisy, t.kids[k]); }
    }
    KidsShrink(t, m);
  }

  lemma KidsShrink(t: Tree<Node>, m: Tree<Node>)
    requires t.Object? && m.Object? && t.loc == m.loc && Separate(t) && m.kids.Keys <= t.kids.Keys
    requires forall k :: k in m.kids ==> Separate(m.kids[k]) && Locs(m.kids[k]) <= Locs(t.kids[k])
    ensures Separate(m) && Locs(m) <= Locs(t)
  {
    forall j, k | j in m.kids && k in m.kids && j != k ensures Locs(m.kids[j]) !! Locs(m.kids[k]) {
      assert Locs(t.kids[j]) !! Locs(t.kids[k]);
    }
  }

  function KeysIn(keys: seq<string>): set<string> {
    set k | k in keys
  }

  method DeleteKeys(n: Node, keys: seq<string>)
    modifies n
    ensures n.entries == old(n.entries) - KeysIn(keys)
  {
    for i := 0 to |keys|
      invariant n.entries == old(n.entries) - KeysIn(keys[..i])
    {
      n.entries := n.entries - {keys[i]};
      assert KeysIn(keys[..i + 1]) == KeysIn(keys[..i]) + {keys[i]};
    }
    assert keys[..|keys|] == keys;
  }

  /** Drop managedFields, the noisy annotations and an annotations map that is
      left empty. */
  method TrimMetadataInPlace(meta: Node, keys: seq<string>, ghost t: Tree<Node>)
    requires t.Object? && t.loc == meta && Matches(t) && Separate(t)
    modifies Locs(t)
    ensures Matches(TrimMetadata(KeysIn(keys), t))
  {
    meta.entries := meta.entries - {"managedFields"};
    ghost var kids := t.kids - {"managedFields"};
    assert HoldsKids(meta, kids) by { KidsUnwritten(kids); }
    if "annotations" in meta.entries && meta.entries["annotations"].VMap? {
      var ann := meta.entries["annotations"].node;
      DropAnnotationsInPlace(meta, "annotations", ann, keys, kids);
    }
  }

  method DropAnnotationsInPlace(meta: Node, k: string, ann: Node, keys: seq<string>, ghost kids: map<string, Tree<Node>>)
    requires k in kids && kids[k].Object? && kids[k].loc == ann
    requires HoldsKids(meta, kids) && Separate(Object(meta, kids))
    modifies meta, ann
    ensures kids[k].kids.Keys <= KeysIn(keys) ==> HoldsKids(meta, kids - {k})
    ensures !(kids[k].kids.Keys <= KeysIn(keys)) ==> HoldsKids(meta, kids[k := TrimAnnotations(KeysIn(keys), kids[k])])
  {
    ghost var left := TrimAnnotations(KeysIn(keys), kids[k]);
    KidIsSeparate(meta, kids, k);
    assert ann in Locs(kids[k]) && meta != ann;
    DeleteAnnotations(ann, keys, kids[k]);
    KidsUnwritten(kids - {k});
    if |ann.entries| == 0 {
      RemoveEmptied(meta, k, kids);
    } else {
      HoldsReplaced(meta, kids, k, left);
    }
  }

  method DeleteAnnotations(ann: Node, keys: seq<string>, ghost a: Tree<Node>)
    requires a.Object? && a.loc == ann && Matches(a) && Separate(a)
    modifies ann
    ensures Matches(TrimAnnotations(KeysIn(keys), a))
    ensures |ann.entries| == 0 <==> a.kids.Keys <= KeysIn(keys)
  {
    DeleteKeys(ann, keys);
    ghost var left := TrimAnnotations(KeysIn(keys), a);
    assert ann !in LocsOfAll(left.kids);
    KidsUnwritten(left.kids);
    assert ann.entries == EntriesOf(left.kids);
    NothingLeft(ann.entries, a.kids.Keys, KeysIn(keys));
  }

  lemma NothingLeft<T>(m: map<string, T>, keys: set<string>, dropped: set<string>)
    requires m.Keys == keys - dropped
    ensures |m| == 0 <==> keys <= dropped
  {
    if |m| == 0 {
      assert m.Keys == {};
      forall k | k in keys ensures k in dropped {
        assert k !in m.Keys;
      }
    } else {
      var k :| k in m.Keys;
      assert k in keys && k !in dropped;
    }
  }

  method RemoveEmptied(meta: Node, k: string, ghost kids: map<string, Tree<Node>>)
    requires meta.entries == EntriesOf(kids) && meta !in LocsOfAll(kids)
    requires forall j :: j in kids - {k} ==> Matches(kids[j])
    modifies meta
    ensures HoldsKids(meta, kids - {k})
  {
    meta.entries := meta.entries - {k};
    KidsUnwritten(kids - {k});
  }

  method TrimObjectInPlace(obj: Node, keys: seq<string>, ghost t: Tree<Node>)
    requires t.Object? && t.loc == obj && Matches(t) && Separate(t)
    modifies Locs(t)
    ensures Matches(TrimObject(KeysIn(keys), t))
  {
    if "metadata" in obj.entries && obj.entries["metadata"].VMap? {
      TrimKidInPlace(obj, "metadata", keys, t.kids);
    }
  }

  method TrimKidInPlace(obj: Node, k: string, keys: seq<string>, ghost kids: map<string, Tree<Node>>)
    requires HoldsKids(obj, kids) && Separate(Object(obj, kids)) && k in kids && kids[k].Object?
    modifies Locs(kids[k])
    ensures HoldsKids(obj, kids[k := TrimMetadata(KeysIn(keys), kids[k])])
  {
    KidIsSeparate(obj, kids, k);
    TrimMetadataInPlace(obj.entries[k].node, keys, kids[k]);
    KidsUnwritten(kids - {k});
    HoldsReplaced(obj, kids, k, TrimMetadata(KeysIn(keys), kids[k]));
  }

  // ---- The recursion -------------------------------------------------------

  /** stripNoisyFields. Whatever order each map is ranged over, the object ends
      up holding the stripped tree, at the same heap locations. */
  method StripNoisyFields(obj: Node, keys: seq<string>, ghost t: Tree<Node>)
    requires t.Object? && t.loc == obj && Matches(t) && Separate(t)
    modifies Locs(t)
    ensures Matches(Strip(KeysIn(keys), Plain, t))
    decreases Locs(t), 1
  {
    ghost var noisy := KeysIn(keys);
    ghost var trimmed := TrimObject(noisy, t);
    TrimObjectSeparate(noisy, t);
    TrimObjectInPlace(obj, keys, t);
    StripEntries(obj, keys, trimmed.kids);
    TrimThenStrip(noisy, t);
  }

  lemma TrimThenStrip(noisy: set<string>, t: Tree<Node>)
    requires t.Object?
    ensures Partial(noisy, TrimObject(noisy, t).kids, {}) == Strip(noisy, Plain, t).kids
  {
    var trimmed := TrimObject(noisy, t);
    assert trimmed.kids.Keys == t.kids.Keys;
    forall k | k in t.kids
      ensures Strip(noisy, Plain, trimmed.kids[k]) == Strip(noisy, Plain, t).kids[k]
    {
      TrimThenStripKid(noisy, t, k);
    }
  }

  /** The entries while those in `todo` are still to be visited. */
  ghost function Partial(noisy: set<string>, kids: map<string, Tree<Node>>, todo: set<string>): map<string, Tree<Node>> {
    map k | k in kids :: if k in todo then kids[k] else Strip(noisy, Plain, kids[k])
  }

  lemma PartialSeparate(noisy: set<string>, obj: Node, kids: map<string, Tree<Node>>, todo: set<string>, k: string)
    requires Separate(Object(obj, kids)) && k in todo && todo <= kids.Keys
    ensures var now := Partial(noisy, kids, todo);
            && obj !in LocsOfAll(now) && now[k] == kids[k] && Separate(kids[k]) && obj !in Locs(kids[k])
            && Locs(kids[k]) !! LocsOfAll(now - {k}) && Locs(kids[k]) <= Locs(Object(obj, kids))
            && Partial(noisy, kids, todo - {k}) == now[k := Strip(noisy, Plain, kids[k])]
  {
    KidIsSeparate(obj, kids, k);
    var now := Partial(noisy, kids, todo);
    forall j | j in now ensures Locs(now[j]) <= Locs(kids[j]) {
      LocsOfStrip(noisy, Plain, kids[j]);
    }
    LocsOfAllShrink(now - {k}, kids - {k});
    LocsOfAllShrink(now, kids);
    assert Partial(noisy, kids, todo - {k}) == now[k := Strip(noisy, Plain, kids[k])];
  }

  method StripEntries(obj: Node, keys: seq<string>, ghost kids: map<string, Tree<Node>>)
    requires HoldsKids(obj, kids) && Separate(Object(obj, kids))
    modifies LocsOfAll(kids)
    ensures HoldsKids(obj, Partial(KeysIn(keys), kids, {}))
    decreases Locs(Object(obj, kids)), 0
  {
    ghost var noisy := KeysIn(keys);
    var todo := obj.entries.Keys;
    assert Partial(noisy, kids, todo) == kids;
    while todo != {}
      invariant todo <= kids.Keys && HoldsKids(obj, Partial(noisy, kids, todo))
    {
      var k :| k in todo;
      PartialSeparate(noisy, obj, kids, todo, k);
      StripEntry(obj, k, keys, Partial(noisy, kids, todo));
      todo := todo - {k};
    }
  }

  method StripEntry(obj: Node, k: string, keys: seq<string>, ghost kids: map<string, Tree<Node>>)
    requires HoldsKids(obj, kids) && k in kids && Separate(kids[k]) && obj !in Locs(kids[k])
    requires Locs(kids[k]) !! LocsOfAll(kids - {k})
    modifies Locs(kids[k])
    ensures HoldsKids(obj, kids[k := Strip(KeysIn(keys), Plain, kids[k])])
    decreases Locs(kids[k]), 4
  {
    StripValue(obj.entries[k], keys, kids[k]);
    KidsUnwritten(kids - {k});
    StripKeepsValue(KeysIn(keys), Plain, kids[k]);
    HoldsReplaced(obj, kids, k, Strip(KeysIn(keys), Plain, kids[k]));
  }

  method StripValue(v: Value, keys: seq<string>, ghost t: Tree<Node>)
    requires v == ValueOf(t) && Matches(t) && Separate(t)
    modifies Locs(t)
    ensures Matches(Strip(KeysIn(keys), Plain, t))
    decreases Locs(t), 3
  {
    match v
    case VScalar(_) =>
    case VMap(n) => StripNoisyFields(n, keys, t);
    case VList(elements) =>
      for i := 0 to |elements|
        invariant HoldsItems(PartialItems(KeysIn(keys), t, i))
      {
        ItemIsSeparate(KeysIn(keys), t, i);
        StripElement(elements[i], i, keys, t);
      }
      assert PartialItems(KeysIn(keys), t, |elements|) == Strip(KeysIn(keys), Plain, t).items;
  }

  ghost function PartialItems(noisy: set<string>, list: Tree<Node>, n: nat): (r: seq<Tree<Node>>)
    requires list.List? && n <= |list.items|
    ensures |r| == |list.items|
  {
    seq(|list.items|, i requires 0 <= i < |list.items| => if i < n then StripItem(noisy, list, i) else list.items[i])
  }

  lemma ItemIsSeparate(noisy: set<string>, list: Tree<Node>, i: nat)
    requires list.List? && i < |list.items| && Separate(list)
    ensures var now, next := PartialItems(noisy, list, i), PartialItems(noisy, list, i + 1);
            && now[i] == list.items[i] && next[i] == StripItem(noisy, list, i) && Separate(list.items[i])
            && now[..i] == next[..i] && now[i + 1..] == next[i + 1..] && Locs(list.items[i]) <= Locs(list)
            && Locs(list.items[i]) !! LocsOfItems(now[..i]) && Locs(list.items[i]) !! LocsOfItems(now[i + 1..])
  {
    var now := PartialItems(noisy, list, i);
    forall j | 0 <= j < |now| && j != i ensures Locs(now[j]) !! Locs(list.items[i]) {
      if j < i && list.items[j].Object? { LocsOfStrip(noisy, Plain, list.items[j]); }
    }
  }

  method StripElement(v: Value, i: nat, keys: seq<string>, ghost list: Tree<Node>)
    requires list.List? && i < |list.items| && v == ValueOf(list.items[i]) && Separate(list)
    requires HoldsItems(PartialItems(KeysIn(keys), list, i))
    modifies Locs(list.items[i])
    ensures HoldsItems(PartialItems(KeysIn(keys), list, i + 1))
    decreases Locs(list.items[i]), 2
  {
    ghost var noisy := KeysIn(keys);
    ItemIsSeparate(noisy, list, i);
    ghost var now, next := PartialItems(noisy, list, i), PartialItems(noisy, list, i + 1);
    if v.VMap? {
      StripNoisyFields(v.node, keys, list.items[i]);
      ItemsUnwritten(now[..i]);
      ItemsUnwritten(now[i + 1..]);
    }
    ItemsReassembled(now, next, i);
  }

  lemma ItemsReassembled(now: seq<Tree<Node>>, next: seq<Tree<Node>>, i: nat)
    requires i < |now| == |next| && now[..i] == next[..i] && now[i + 1..] == next[i + 1..]
    requires HoldsItems(now[..i]) && HoldsItems(now[i + 1..]) && Matches(next[i])
    ensures HoldsItems(next)
  {
    forall j | 0 <= j < |next| ensures Matches(next[j]) {
      if j < i { assert next[j] == now[..i][j]; }
      if j > i { assert next[j] == now[i + 1..][j - i - 1]; }
    }
  }
}
