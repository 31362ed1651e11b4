/** MergeInlineValues: inline values deep-merged over the values read from
    files, in place on the heap. */
module Values {
  import opened Json

  /** What the merge makes of two maps. A non-map, lists included, replaces
      whatever was there; a map over a non-map replaces it too. */
  function MergeTree<L>(base: Tree<L>, inline: Tree<L>): (m: Tree<L>)
    requires base.Object? && inline.Object?
    ensures m.Object? && m.loc == base.loc && m.kids.Keys == base.kids.Keys + inline.kids.Keys
    decreases inline
  {
    Object(base.loc, map k | k in base.kids.Keys + inline.kids.Keys :: MergeKey(base, inline, k))
  }

  function MergeKey<L>(base: Tree<L>, inline: Tree<L>, k: string): Tree<L>
    requires base.Object? && inline.Object? && k in base.kids.Keys + inline.kids.Keys
    decreases inline, 0
  {
    if k !in inline.kids then base.kids[k]
    else if k in base.kids && base.kids[k].Object? && inline.kids[k].Object?
      then MergeTree(base.kids[k], inline.kids[k])
    else inline.kids[k]
  }

  // ---- The method ----------------------------------------------------------

  lemma {:induction false} LocsOfMerge(base: Tree<Node>, inline: Tree<Node>)
    requires base.Object? && inline.Object?
    ensures Locs(MergeTree(base, inline)) <= Locs(base) + Locs(inline)
    decreases inline
  {
    var m := MergeTree(base, inline);
    forall k | k in m.kids
      ensures Locs(m.kids[k]) <= Locs(base) + Locs(inline)
    {
      LocsOfMergeKey(base, inline, k);
    }
  }

  lemma {:induction false} LocsOfMergeKey(base: Tree<Node>, inline: Tree<Node>, k: string)
    requires base.Object? && inline.Object? && k in base.kids.Keys + inline.kids.Keys
    ensures Locs(MergeKey(base, inline, k)) <= (if k in base.kids then Locs(base.kids[k]) else {})
                                             + (if k in inline.kids then Locs(inline.kids[k]) else {})
    decreases inline, 0
  {
    if k in base.kids && k in inline.kids && base.kids[k].Object? && inline.kids[k].Object? {
      LocsOfMerge(base.kids[k], inline.kids[k]);
    }
  }

  /** The map while the keys in `todo` are still to be merged. */
  ghost function Partial(base: Tree<Node>, inline: Tree<Node>, todo: set<string>): map<string, Tree<Node>>
    requires base.Object? && inline.Object?
  {
    map k | k in base.kids.Keys + (inline.kids.Keys - todo) ::
      if k in todo then base.kids[k] else MergeKey(base, inline, k)
  }

  /** What merging key `k` may write is reachable from no other key. */
  lemma KeysDoNotInterfere(base: Tree<Node>, inline: Tree<Node>, todo: set<string>, k: string)
    requires base.Object? && inline.Object? && Separate(base) && Locs(base) !! Locs(inline)
    requires k in todo && todo <= inline.kids.Keys
    ensures var kids := Partial(base, inline, todo);
            && base.loc !in LocsOfAll(kids) && base.loc !in Locs(inline)
            && (k in kids <==> k in base.kids)
            && (k in kids ==> kids[k] == base.kids[k] && Separate(kids[k]) && Locs(kids[k]) <= Locs(base)
                              && Locs(kids[k]) !! Locs(inline) && Locs(kids[k]) !! LocsOfAll(kids - {k}))
  {
    var kids := Partial(base, inline, todo);
    assert Locs(inline.kids[k]) <= Locs(inline);
    forall j | j in kids
      ensures base.loc !in Locs(kids[j])
      ensures j != k && k in kids ==> Locs(kids[j]) !! Locs(base.kids[k])
    {
      LocsOfMergeKey(base, inline, j);
      assert j in inline.kids ==> Locs(inline.kids[j]) <= Locs(inline);
      assert k in base.kids ==> Locs(base.kids[k]) <= Locs(base);
    }
  }

  lemma PartialNext(base: Tree<Node>, inline: Tree<Node>, todo: set<string>, k: string)
    requires base.Object? && inline.Object? && k in todo && todo <= inline.kids.Keys
    ensures Partial(base, inline, todo - {k}) == Partial(base, inline, todo)[k := MergeKey(base, inline, k)]
  {
  }

  lemma PartialEnds(base: Tree<Node>, inline: Tree<Node>)
    requires base.Object? && inline.Object?
    ensures Partial(base, inline, inline.kids.Keys) == base.kids
    ensures Partial(base, inline, {}) == MergeTree(base, inline).kids
  {
  }

  /** `base` is updated in place and returned; a nil `base` stands for an empty
      map, and a nil `inline` adds nothing. The ghost trees say what the two
      values are. Only nodes of `base` are written, so a disjoint `inline` keeps
      its contents, although the result may share its nodes. */
  method MergeInlineValues(base: Node?, inline: Node?, ghost tb: Tree<Node>, ghost ti: Tree<Node>)
    returns (r: Node)
    requires inline != null ==> ti.Object? && ti.loc == inline && Matches(ti)
    requires base != null ==> tb.Object? && tb.loc == base && Matches(tb) && Separate(tb)
    requires base != null && inline != null ==> Locs(tb) !! Locs(ti)
    modifies if base == null then {} else Locs(tb)
    ensures if base == null then fresh(r) else r == base
    ensures var from := if base == null then Object(r, map[]) else tb;
            Matches(if inline == null then from else MergeTree(from, ti))
    ensures inline != null ==> Matches(ti)
    decreases ti, 1
  {
    ghost var from := tb;
    if base == null {
      ghost var used := Locs(ti);
      LocsAreAllocated(ti);
      r := new Node();
      assert r !in used;
      from := Object(r, map[]);
      assert Locs(from) == {r} && EntriesOf(from.kids) == map[];
    } else {
      r := base;
    }
    if inline != null {
      MergeInto(r, inline, from, ti);
    }
  }

  /** The loop over the keys of `inline`, in any order. */
  method MergeInto(base: Node, inline: Node, ghost tb: Tree<Node>, ghost ti: Tree<Node>)
    requires tb.Object? && tb.loc == base && Matches(tb) && Separate(tb)
    requires ti.Object? && ti.loc == inline && Matches(ti) && Locs(tb) !! Locs(ti)
    modifies Locs(tb)
    ensures Matches(MergeTree(tb, ti)) && Matches(ti)
    decreases ti, 0, 1
  {
    var todo := inline.entries.Keys;
    PartialEnds(tb, ti);
    while todo != {}
      invariant todo <= ti.kids.Keys && Matches(ti)
      invariant HoldsKids(base, Partial(tb, ti, todo))
    {
      var k :| k in todo;
      KeysDoNotInterfere(tb, ti, todo, k);
      PartialNext(tb, ti, todo, k);
      MergeKeyInto(base, k, inline.entries[k], Partial(tb, ti, todo), ti);
      todo := todo - {k};
    }
  }

  /** The body of the loop: the entry `v` of `ti` is merged in under `k`. */
  method MergeKeyInto(base: Node, k: string, v: Value, ghost kids: map<string, Tree<Node>>, ghost ti: Tree<Node>)
    requires HoldsKids(base, kids) && base !in LocsOfAll(kids)
    requires ti.Object? && k in ti.kids && v == ValueOf(ti.kids[k]) && Matches(ti) && base !in Locs(ti)
    requires k in kids ==> Separate(kids[k]) && Locs(kids[k]) !! Locs(ti) && Locs(kids[k]) !! LocsOfAll(kids - {k})
    modifies base, if k in kids then Locs(kids[k]) else {}
    ensures var both := k in kids && kids[k].Object? && ti.kids[k].Object?;
            HoldsKids(base, kids[k := if both then MergeTree(kids[k], ti.kids[k]) else ti.kids[k]])
    ensures Matches(ti)
    decreases ti, 0, 0
  {
    ghost var tv := ti.kids[k];
    assert Locs(tv) <= Locs(ti);
    if v.VMap? && k in base.entries && base.entries[k].VMap? {
      ghost var tm := MergeTree(kids[k], tv);
      LocsOfMerge(kids[k], tv);
      assert base !in Locs(tm);
      var merged := MergeInlineValues(base.entries[k].node, v.node, kids[k], tv);
      KidsUnwritten(kids - {k});
      Unwritten(ti);
      assert VMap(merged) == ValueOf(tm) && Matches(tm);
      assert base.entries == EntriesOf(kids);
      assert forall j :: j in kids && j != k ==> j in kids - {k};
      StoreKey(base, k, VMap(merged), kids, tm, ti);
    } else {
      StoreKey(base, k, v, kids, tv, ti);
    }
  }

  /** base[k] = v, where the new value is described by `tv`; `ti` stays as it is. */
  method StoreKey(base: Node, k: string, v: Value, ghost kids: map<string, Tree<Node>>, ghost tv: Tree<Node>, ghost ti: Tree<Node>)
    requires base.entries == EntriesOf(kids) && v == ValueOf(tv) && base !in Locs(tv) && Matches(tv)
    requires forall j :: j in kids && j != k ==> base !in Locs(kids[j]) && Matches(kids[j])
    requires Matches(ti) && base !in Locs(ti)
    modifies base
    ensures HoldsKids(base, kids[k := tv]) && Matches(ti)
  {
    base.entries := base.entries[k := v];
    KidsUnwritten(kids[k := tv]);
    Unwritten(ti);
  }
}
