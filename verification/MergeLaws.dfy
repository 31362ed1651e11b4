/** What the deep merge means path by path, and the algebra of layering values. */
module MergeLaws {
  import opened Json
  import opened Values

  type Path = seq<string>

  /** What a tree has at a path of map keys. Lists count as leaves. */
  datatype Kind<L> = Absent | Map | Leaf(value: Tree<L>)

  function KindAt<L>(t: Tree<L>, p: Path): Kind<L>
    decreases |p|
  {
    if !t.Object? then (if p == [] then Leaf(t) else Absent)
    else if p == [] then Map
    else if p[0] in t.kids then KindAt(t.kids[p[0]], p[1..])
    else Absent
  }

  lemma KindBelow<L>(t: Tree<L>, k: string, p: Path)
    requires t.Object? && k in t.kids
    ensures KindAt(t, [k] + p) == KindAt(t.kids[k], p)
  {
    assert ([k] + p)[0] == k && ([k] + p)[1..] == p;
  }

  /** A non-map sits at a proper prefix of the path. */
  ghost predicate Blocked<L>(t: Tree<L>, p: Path) {
    exists n :: 0 <= n < |p| && KindAt(t, p[..n]).Leaf?
  }

  lemma BlockedStep<L>(t: Tree<L>, p: Path)
    ensures Blocked(t, p) <==> p != [] && (!t.Object? || (p[0] in t.kids && Blocked(t.kids[p[0]], p[1..])))
  {
    if p != [] {
      if !t.Object? {
        assert KindAt(t, p[..0]).Leaf?;
      } else {
        assert forall n :: 0 < n < |p| ==> p[..n][0] == p[0] && p[..n][1..] == p[1..][..n - 1];
        if p[0] in t.kids && Blocked(t.kids[p[0]], p[1..]) {
          var n :| 0 <= n < |p[1..]| && KindAt(t.kids[p[0]], p[1..][..n]).Leaf?;
          assert p[..n + 1][1..] == p[1..][..n];
          assert KindAt(t, p[..n + 1]).Leaf?;
        }
      }
    }
  }

  /** Main result: the inline layer decides wherever it has anything; elsewhere
      the base shows through, except beneath a non-map of the inline layer. */
  lemma {:induction false} PathMeaning<L>(base: Tree<L>, inline: Tree<L>, p: Path)
    requires base.Object? && inline.Object?
    ensures KindAt(MergeTree(base, inline), p) ==
            if KindAt(inline, p) != Absent then KindAt(inline, p)
            else if Blocked(inline, p) then Absent
            else KindAt(base, p)
    decreases |p|
  {
    BlockedStep(inline, p);
    if p != [] && p[0] in inline.kids { BlockedStep(inline.kids[p[0]], p[1..]); }
    if p != [] && p[0] in base.kids && p[0] in inline.kids {
      var b, i, rest := base.kids[p[0]], inline.kids[p[0]], p[1..];
      if b.Object? && i.Object? {
        PathMeaning(b, i, rest);
      } else if i.Object? {
        NothingBelow(b, i, rest);
      } else {
        assert Blocked(i, rest) || rest == [];
      }
    } else if p != [] && p[0] in inline.kids && inline.kids[p[0]].Object? {
      assert KindAt(base, p) == Absent;
      assert MergeTree(base, inline).kids[p[0]] == inline.kids[p[0]];
    }
  }

  lemma NothingBelow<L>(b: Tree<L>, i: Tree<L>, p: Path)
    requires !b.Object? && i.Object?
    ensures p != [] ==> KindAt(b, p) == Absent
    ensures p == [] ==> KindAt(i, p) == Map
  {
  }

  /** The path meaning says everything: trees that agree at all paths are equal. */
  lemma {:induction false} PathsDetermineTree(t: Tree<()>, u: Tree<()>)
    requires forall p: Path :: KindAt(t, p) == KindAt(u, p)
    ensures t == u
    decreases t
  {
    assert KindAt(t, []) == KindAt(u, []);
    if t.Object? {
      assert u.Object?;
      forall k
        ensures k in t.kids <==> k in u.kids
        ensures k in t.kids ==> t.kids[k] == u.kids[k]
      {
        assert [k] + [] == [k] && KindAt(t, [k]) == KindAt(u, [k]);
        if k in t.kids { KindBelow(t, k, []); }
        if k in u.kids { KindBelow(u, k, []); }
        if k in t.kids && k in u.kids {
          forall p: Path
            ensures KindAt(t.kids[k], p) == KindAt(u.kids[k], p)
          {
            KindBelow(t, k, p);
            KindBelow(u, k, p);
          }
          PathsDetermineTree(t.kids[k], u.kids[k]);
        }
      }
      assert t.kids == u.kids && t.loc == u.loc;
    }
  }

  /** So any tree with the path meaning of the merge is the merge. */
  lemma MergeIsDetermined(base: Tree<()>, inline: Tree<()>, m: Tree<()>)
    requires base.Object? && inline.Object?
    requires forall p: Path ::
      KindAt(m, p) == if KindAt(inline, p) != Absent then KindAt(inline, p)
                      else if Blocked(inline, p) then Absent else KindAt(base, p)
    ensures m == MergeTree(base, inline)
  {
    forall p: Path ensures KindAt(m, p) == KindAt(MergeTree(base, inline), p) {
      PathMeaning(base, inline, p);
    }
    PathsDetermineTree(m, MergeTree(base, inline));
  }

  // ---- Algebra -------------------------------------------------------------

  /** Merging the same layer again changes nothing. */
  lemma {:induction false} MergeIsIdempotent<L>(a: Tree<L>, b: Tree<L>)
    requires a.Object? && b.Object?
    ensures MergeTree(MergeTree(a, b), b) == MergeTree(a, b)
    decreases b
  {
    var m := MergeTree(a, b);
    forall k | k in m.kids
      ensures MergeKey(m, b, k) == m.kids[k]
    {
      assert m.kids[k] == MergeKey(a, b, k);
      if k in b.kids && b.kids[k].Object? {
        if k in a.kids && a.kids[k].Object? {
          MergeIsIdempotent(a.kids[k], b.kids[k]);
        } else {
          SelfMerge(b.kids[k]);
        }
      }
    }
    assert MergeTree(m, b).kids == m.kids;
  }

  lemma {:induction false} SelfMerge<L>(t: Tree<L>)
    requires t.Object?
    ensures MergeTree(t, t) == t
    decreases t
  {
    forall k | k in t.kids
      ensures MergeKey(t, t, k) == t.kids[k]
    {
      if t.kids[k].Object? { SelfMerge(t.kids[k]); }
    }
    assert MergeTree(t, t).kids == t.kids;
  }

  /** `c` has an entry wherever `a` has one, map for map. */
  predicate Covers<L>(c: Tree<L>, a: Tree<L>)
    requires c.Object? && a.Object?
    decreases a
  {
    forall k :: k in a.kids ==>
      k in c.kids && (a.kids[k].Object? && c.kids[k].Object? ==> Covers(c.kids[k], a.kids[k]))
  }

  lemma {:induction false} CoversIffAbsorbs(a: Tree<()>, c: Tree<()>)
    requires a.Object? && c.Object?
    ensures MergeTree(a, c) == c <==> Covers(c, a)
    decreases a
  {
    var m := MergeTree(a, c);
    forall k | k in a.kids && k in c.kids && a.kids[k].Object? && c.kids[k].Object?
      ensures m.kids[k] == c.kids[k] <==> Covers(c.kids[k], a.kids[k])
    {
      CoversIffAbsorbs(a.kids[k], c.kids[k]);
      assert m.kids[k] == MergeKey(a, c, k);
    }
    if Covers(c, a) {
      assert m.kids.Keys == c.kids.Keys;
      assert forall k :: k in m.kids ==> MergeKey(a, c, k) == c.kids[k];
      assert m.kids == c.kids && m.loc == c.loc;
    } else {
      var k :| k in a.kids && !(k in c.kids && (a.kids[k].Object? && c.kids[k].Object? ==> Covers(c.kids[k], a.kids[k])));
      assert k in m.kids;
    }
  }

  /** Where the middle layer hides a map of the first under a non-map and the
      last puts a map there again, the last must cover the first. */
  predicate Layered<L>(a: Tree<L>, b: Tree<L>, c: Tree<L>)
    requires a.Object? && b.Object? && c.Object?
    decreases a, 1
  {
    forall k :: k in a.kids ==> LayeredAt(a, b, c, k)
  }

  predicate LayeredAt<L>(a: Tree<L>, b: Tree<L>, c: Tree<L>, k: string)
    requires a.Object? && b.Object? && c.Object?
    decreases a, 0
  {
    if k in a.kids && k in b.kids && k in c.kids && a.kids[k].Object? && c.kids[k].Object?
    then (if b.kids[k].Object? then Layered(a.kids[k], b.kids[k], c.kids[k]) else Covers(c.kids[k], a.kids[k]))
    else true
  }

  lemma {:induction false} AssociativeAtKey(a: Tree<()>, b: Tree<()>, c: Tree<()>, k: string)
    requires a.Object? && b.Object? && c.Object?
    requires k in a.kids.Keys + b.kids.Keys + c.kids.Keys
    ensures MergeKey(MergeTree(a, b), c, k) == MergeKey(a, MergeTree(b, c), k) <==> LayeredAt(a, b, c, k)
    decreases a, 0
  {
    if k in a.kids && k in b.kids && k in c.kids && a.kids[k].Object? && c.kids[k].Object? {
      if b.kids[k].Object? {
        AssociativeIffLayered(a.kids[k], b.kids[k], c.kids[k]);
      } else {
        CoversIffAbsorbs(a.kids[k], c.kids[k]);
      }
    }
  }

  /** Main result: layering is associative exactly for layered values; in
      general it is not. */
  lemma {:induction false} AssociativeIffLayered(a: Tree<()>, b: Tree<()>, c: Tree<()>)
    requires a.Object? && b.Object? && c.Object?
    ensures MergeTree(MergeTree(a, b), c) == MergeTree(a, MergeTree(b, c)) <==> Layered(a, b, c)
    decreases a, 1
  {
    var l, r := MergeTree(MergeTree(a, b), c), MergeTree(a, MergeTree(b, c));
    assert l.kids.Keys == r.kids.Keys == a.kids.Keys + b.kids.Keys + c.kids.Keys;
    forall k | k in l.kids
      ensures l.kids[k] == r.kids[k] <==> LayeredAt(a, b, c, k)
    {
      AssociativeAtKey(a, b, c, k);
    }
    if Layered(a, b, c) {
      assert l.kids == r.kids;
    } else {
      var k :| k in a.kids && !LayeredAt(a, b, c, k);
      assert l.kids[k] != r.kids[k];
    }
  }

  /** A middle layer that never puts a non-map where both its neighbours have
      maps is harmless. */
  ghost predicate HidesNothing(a: Tree<()>, b: Tree<()>, c: Tree<()>) {
    forall p: Path :: KindAt(a, p) == Map && KindAt(c, p) == Map ==> !KindAt(b, p).Leaf?
  }

  lemma {:induction false} HidesNothingBelow(a: Tree<()>, b: Tree<()>, c: Tree<()>, k: string)
    requires a.Object? && b.Object? && c.Object? && HidesNothing(a, b, c)
    requires k in a.kids && k in b.kids && k in c.kids && a.kids[k].Object? && c.kids[k].Object?
    ensures b.kids[k].Object? && HidesNothing(a.kids[k], b.kids[k], c.kids[k])
  {
    KindBelow(a, k, []);
    KindBelow(b, k, []);
    KindBelow(c, k, []);
    assert [k] + [] == [k] && !KindAt(b, [k]).Leaf?;
    forall p: Path | KindAt(a.kids[k], p) == Map && KindAt(c.kids[k], p) == Map
      ensures !KindAt(b.kids[k], p).Leaf?
    {
      KindBelow(a, k, p);
      KindBelow(b, k, p);
      KindBelow(c, k, p);
    }
  }

  lemma {:induction false} HidingNothingIsLayered(a: Tree<()>, b: Tree<()>, c: Tree<()>)
    requires a.Object? && b.Object? && c.Object? && HidesNothing(a, b, c)
    ensures Layered(a, b, c)
    ensures MergeTree(MergeTree(a, b), c) == MergeTree(a, MergeTree(b, c))
    decreases a
  {
    forall k | k in a.kids
      ensures LayeredAt(a, b, c, k)
    {
      if k in b.kids && k in c.kids && a.kids[k].Object? && c.kids[k].Object? {
        HidesNothingBelow(a, b, c, k);
        HidingNothingIsLayered(a.kids[k], b.kids[k], c.kids[k]);
      }
    }
    AssociativeIffLayered(a, b, c);
  }

  /** `{x: {y: 1}}`, `{x: 2}`, `{x: {}}`: grouping decides whether y survives. */
  lemma NotAssociative() returns (a: Tree<()>, b: Tree<()>, c: Tree<()>)
    ensures a.Object? && b.Object? && c.Object?
    ensures MergeTree(MergeTree(a, b), c) != MergeTree(a, MergeTree(b, c))
  {
    var y := Scalar("1");
    a := Object((), map["x" := Object((), map["y" := y])]);
    b := Object((), map["x" := Scalar("2")]);
    c := Object((), map["x" := Object((), map[])]);
    assert !Covers(c.kids["x"], a.kids["x"]) by { assert "y" in a.kids["x"].kids; }
    AssociativeIffLayered(a, b, c);
  }

  /** Separate layers stay separate, so further layers can be merged in place. */
  lemma {:induction false} MergeStaysSeparate(base: Tree<Node>, inline: Tree<Node>)
    requires base.Object? && inline.Object?
    requires Separate(base) && Separate(inline) && Locs(base) !! Locs(inline)
    ensures Separate(MergeTree(base, inline))
    decreases inline
  {
    var m := MergeTree(base, inline);
    forall k | k in m.kids
      ensures Separate(m.kids[k]) && m.loc !in Locs(m.kids[k])
      ensures Locs(m.kids[k]) <= LocsAtKey(base, k) + LocsAtKey(inline, k)
    {
      LocsOfMergeKey(base, inline, k);
      assert k in base.kids ==> Locs(base.kids[k]) <= Locs(base);
      assert k in inline.kids ==> Locs(inline.kids[k]) <= Locs(inline);
      if k in base.kids && k in inline.kids && base.kids[k].Object? && inline.kids[k].Object? {
        MergeStaysSeparate(base.kids[k], inline.kids[k]);
      }
    }
    forall j, k | j in m.kids && k in m.kids && j != k
      ensures Locs(m.kids[j]) !! Locs(m.kids[k])
    {
      KeysAreSeparate(base, j, k);
      KeysAreSeparate(inline, j, k);
    }
  }

  lemma KeysAreSeparate(t: Tree<Node>, j: string, k: string)
    requires t.Object? && Separate(t) && j != k
    ensures LocsAtKey(t, j) !! LocsAtKey(t, k) && LocsAtKey(t, j) <= Locs(t) && LocsAtKey(t, k) <= Locs(t)
  {
    if j in t.kids && k in t.kids {
      assert Locs(t.kids[j]) !! Locs(t.kids[k]);
    }
  }

  ghost function LocsAtKey(t: Tree<Node>, k: string): set<Node>
    requires t.Object?
  {
    if k in t.kids then Locs(t.kids[k]) else {}
  }
}
