/** What stripping removes, path by path, and what it leaves. */
module StripLaws {
  import opened Json
  import opened StripFields

  datatype Hop = Key(key: string) | Index(i: nat)

  type Path = seq<Hop>

  datatype Kind = Absent | IsScalar(text: string) | IsList(length: nat) | IsObject

  /** What a tree has at a path of map keys and list positions. */
  function KindAt<L>(t: Tree<L>, p: Path): Kind
    decreases |p|
  {
    if p == [] then
      match t
      case Scalar(text) => IsScalar(text)
      case List(items) => IsList(|items|)
      case Object(_, _) => IsObject
    else if t.Object? && p[0].Key? && p[0].key in t.kids then KindAt(t.kids[p[0].key], p[1..])
    else if t.List? && p[0].Index? && p[0].i < |t.items| then KindAt(t.items[p[0].i], p[1..])
    else Absent
  }

  /** Some hop of the path enters a field that is dropped. Only objects that are
      reached through objects and through lists of objects are searched. */
  predicate Removed<L>(noisy: set<string>, role: Role, t: Tree<L>, p: Path)
    decreases |p|
  {
    p != [] &&
    if t.Object? && p[0].Key? && p[0].key in t.kids then
      var k := p[0].key;
      Dropped(noisy, role, k, t.kids[k]) || Removed(noisy, ChildRole(role, k), t.kids[k], p[1..])
    else
      t.List? && p[0].Index? && p[0].i < |t.items| && t.items[p[0].i].Object?
      && Removed(noisy, Plain, t.items[p[0].i], p[1..])
  }

  /** Main result: exactly the dropped fields disappear; every other path keeps
      its value. */
  lemma {:induction false} StripPathwise<L>(noisy: set<string>, role: Role, t: Tree<L>, p: Path)
    ensures KindAt(Strip(noisy, role, t), p) == if Removed(noisy, role, t, p) then Absent else KindAt(t, p)
    decreases |p|
  {
    var r := Strip(noisy, role, t);
    if p != [] {
      if t.Object? && p[0].Key? && p[0].key in t.kids {
        var k := p[0].key;
        if !Dropped(noisy, role, k, t.kids[k]) {
          StripPathwise(noisy, ChildRole(role, k), t.kids[k], p[1..]);
        }
      } else if t.List? && p[0].Index? && p[0].i < |t.items| {
        assert r.items[p[0].i] == StripItem(noisy, t, p[0].i);
        if t.items[p[0].i].Object? {
          StripPathwise(noisy, Plain, t.items[p[0].i], p[1..]);
        }
      }
    }
  }

  // ---- The same by what the path says -----------------------------------------

  /** Every list position on the way holds an object. */
  predicate Searched<L>(t: Tree<L>, p: Path, n: nat)
    requires n <= |p|
  {
    forall j :: 0 <= j < n && p[j].Index? ==> KindAt(t, p[..j + 1]) == IsObject
  }

  ghost predicate AllNoisy<L>(noisy: set<string>, t: Tree<L>, p: Path) {
    forall k :: KindAt(t, p + [Key(k)]) != Absent ==> k in noisy
  }

  /** The path goes on from the metadata map at `q` to managedFields, to a noisy
      annotation, or into an annotations map that holds nothing else. */
  ghost predicate EntersNoise<L>(noisy: set<string>, t: Tree<L>, q: Path, rest: Path) {
    && rest != [] && KindAt(t, q) == IsObject
    && (rest[0] == Key("managedFields")
        || (rest[0] == Key("annotations") && KindAt(t, q + [rest[0]]) == IsObject
            && ((|rest| > 1 && rest[1].Key? && rest[1].key in noisy) || AllNoisy(noisy, t, q + [rest[0]]))))
  }

  ghost predicate NoiseAt<L>(noisy: set<string>, t: Tree<L>, p: Path, i: nat)
    requires i < |p|
  {
    Searched(t, p, i) && KindAt(t, p[..i]) == IsObject && p[i] == Key("metadata")
    && EntersNoise(noisy, t, p[..i + 1], p[i + 1..])
  }

  /** Noise lies on the path. */
  ghost predicate Noise<L>(noisy: set<string>, t: Tree<L>, p: Path) {
    exists i: nat :: i < |p| && NoiseAt(noisy, t, p, i)
  }

  /** `c` is what `t` has at the hop. */
  ghost predicate IsChild<L>(t: Tree<L>, h: Hop, c: Tree<L>) {
    match h
    case Key(k) => t.Object? && k in t.kids && t.kids[k] == c
    case Index(i) => t.List? && i < |t.items| && t.items[i] == c
  }

  lemma KindOfChild<L>(t: Tree<L>, h: Hop, c: Tree<L>, p: Path)
    requires IsChild(t, h, c)
    ensures KindAt(t, [h] + p) == KindAt(c, p)
  {
    assert ([h] + p)[0] == h && ([h] + p)[1..] == p;
  }

  lemma EntersNoiseBelow<L>(noisy: set<string>, t: Tree<L>, h: Hop, c: Tree<L>, q: Path, rest: Path)
    requires IsChild(t, h, c)
    ensures EntersNoise(noisy, t, [h] + q, rest) <==> EntersNoise(noisy, c, q, rest)
  {
    KindOfChild(t, h, c, q);
    if rest != [] {
      var deeper := q + [rest[0]];
      assert [h] + q + [rest[0]] == [h] + deeper;
      KindOfChild(t, h, c, deeper);
      forall k ensures KindAt(t, [h] + deeper + [Key(k)]) == KindAt(c, deeper + [Key(k)]) {
        assert [h] + deeper + [Key(k)] == [h] + (deeper + [Key(k)]);
        KindOfChild(t, h, c, deeper + [Key(k)]);
      }
    }
  }

  lemma SearchedBelow<L>(t: Tree<L>, c: Tree<L>, p: Path, n: nat)
    requires 0 < n <= |p| && IsChild(t, p[0], c)
    ensures Searched(t, p, n) <==> (p[0].Index? ==> c.Object?) && Searched(c, p[1..], n - 1)
  {
    assert p[..1] == [p[0]] + [];
    KindOfChild(t, p[0], c, []);
    forall j | 0 < j < n ensures KindAt(t, p[..j + 1]) == KindAt(c, p[1..][..j]) {
      assert p[..j + 1] == [p[0]] + p[1..][..j];
      KindOfChild(t, p[0], c, p[1..][..j]);
    }
    if Searched(t, p, n) {
      forall j | 0 <= j < n - 1 && p[1..][j].Index? ensures KindAt(c, p[1..][..j + 1]) == IsObject {
        assert p[j + 1].Index?;
      }
    }
  }

  lemma NoiseBelow<L>(noisy: set<string>, t: Tree<L>, c: Tree<L>, p: Path, i: nat)
    requires i + 1 < |p| && IsChild(t, p[0], c)
    ensures NoiseAt(noisy, t, p, i + 1) <==> (p[0].Index? ==> c.Object?) && NoiseAt(noisy, c, p[1..], i)
  {
    var h, q := p[0], p[1..];
    SearchedBelow(t, c, p, i + 1);
    assert p[..i + 1] == [h] + q[..i] && p[..i + 2] == [h] + q[..i + 1] && p[i + 2..] == q[i + 1..];
    KindOfChild(t, h, c, q[..i]);
    EntersNoiseBelow(noisy, t, h, c, q[..i + 1], q[i + 1..]);
  }

  /** Noise lies on the first hops or further down. */
  lemma NoiseStep<L>(noisy: set<string>, t: Tree<L>, c: Tree<L>, p: Path)
    requires p != [] && IsChild(t, p[0], c)
    ensures Noise(noisy, t, p) <==>
      (p[0] == Key("metadata") && EntersNoise(noisy, c, [], p[1..]))
      || ((p[0].Index? ==> c.Object?) && Noise(noisy, c, p[1..]))
  {
    NoiseFirst(noisy, t, c, p);
    if i: nat :| i < |p| && NoiseAt(noisy, t, p, i) {
      if i > 0 {
        NoiseBelow(noisy, t, c, p, i - 1);
      }
    }
    if i: nat :| i < |p[1..]| && NoiseAt(noisy, c, p[1..], i) {
      NoiseBelow(noisy, t, c, p, i);
    }
  }

  lemma NoiseFirst<L>(noisy: set<string>, t: Tree<L>, c: Tree<L>, p: Path)
    requires p != [] && IsChild(t, p[0], c)
    ensures NoiseAt(noisy, t, p, 0) <==> p[0] == Key("metadata") && EntersNoise(noisy, c, [], p[1..])
  {
    assert p[..0] == [] && p[..1] == [p[0]] + [];
    EntersNoiseBelow(noisy, t, p[0], c, [], p[1..]);
  }

  /** What an object's role adds. */
  ghost predicate RoleNoise<L>(noisy: set<string>, role: Role, t: Tree<L>, p: Path) {
    match role
    case Plain => false
    case Metadata => EntersNoise(noisy, t, [], p)
    case Annotations => t.Object? && p != [] && p[0].Key? && p[0].key in noisy
  }

  lemma AllNoisyMeans<L>(noisy: set<string>, t: Tree<L>)
    requires t.Object?
    ensures AllNoisy(noisy, t, []) <==> t.kids.Keys <= noisy
  {
    forall k ensures KindAt(t, [] + [Key(k)]) != Absent <==> k in t.kids {
      assert [] + [Key(k)] == [Key(k)] && [Key(k)][1..] == [];
      if k in t.kids { assert KindAt(t.kids[k], []) != Absent; }
    }
  }

  lemma MetadataDrops<L>(noisy: set<string>, t: Tree<L>, p: Path)
    requires t.Object? && p != [] && p[0].Key? && p[0].key in t.kids
    ensures var k := p[0].key;
            EntersNoise(noisy, t, [], p) <==>
              Dropped(noisy, Metadata, k, t.kids[k])
              || (k == "annotations" && RoleNoise(noisy, Annotations, t.kids[k], p[1..]))
  {
    var c := t.kids[p[0].key];
    assert [] + [p[0]] == [p[0]] + [];
    KindOfChild(t, p[0], c, []);
    if c.Object? {
      AllNoisyMeans(noisy, c);
      forall k ensures KindAt(t, [p[0]] + [Key(k)]) == KindAt(c, [] + [Key(k)]) {
        assert [] + [Key(k)] == [Key(k)];
        KindOfChild(t, p[0], c, [Key(k)]);
      }
    }
  }

  lemma {:induction false} RemovedIsNoise<L>(noisy: set<string>, role: Role, t: Tree<L>, p: Path)
    requires KindAt(t, p) != Absent
    ensures Removed(noisy, role, t, p) <==> (t.Object? && RoleNoise(noisy, role, t, p)) || Noise(noisy, t, p)
    decreases |p|
  {
    if p != [] {
      if t.Object? {
        var k := p[0].key;
        var c := t.kids[k];
        RemovedIsNoise(noisy, ChildRole(role, k), c, p[1..]);
        NoiseStep(noisy, t, c, p);
        MetadataDrops(noisy, t, p);
      } else {
        var c := t.items[p[0].i];
        NoiseStep(noisy, t, c, p);
        if c.Object? { RemovedIsNoise(noisy, Plain, c, p[1..]); }
      }
    }
  }

  /** Main result: a path disappears exactly when, from the metadata of an object
      reached through objects and lists of objects, it goes on to managedFields,
      to a noisy annotation, or into annotations that are all noisy; every other
      path keeps what it has. */
  lemma StripRemovesNoise<L>(noisy: set<string>, t: Tree<L>, p: Path)
    ensures KindAt(Strip(noisy, Plain, t), p) == if Noise(noisy, t, p) then Absent else KindAt(t, p)
  {
    StripPathwise(noisy, Plain, t, p);
    if KindAt(t, p) != Absent {
      RemovedIsNoise(noisy, Plain, t, p);
    }
  }

  /** An object's own metadata is free of what stripping removes. */
  predicate MetadataClean<L>(noisy: set<string>, t: Tree<L>)
    requires t.Object?
  {
    "metadata" in t.kids && t.kids["metadata"].Object? ==>
      var meta := t.kids["metadata"];
      && "managedFields" !in meta.kids
      && ("annotations" in meta.kids && meta.kids["annotations"].Object? ==>
            meta.kids["annotations"].kids.Keys !! noisy && meta.kids["annotations"].kids != map[])
  }

  /** The same for every object reachable through objects and lists of objects. */
  predicate Clean<L>(noisy: set<string>, t: Tree<L>)
    decreases t
  {
    match t
    case Scalar(_) => true
    case List(items) => forall i :: 0 <= i < |items| && items[i].Object? ==> Clean(noisy, items[i])
    case Object(_, kids) => MetadataClean(noisy, t) && forall k :: k in kids ==> Clean(noisy, kids[k])
  }

  /** Nothing in the tree, seen in its role, would be dropped. */
  predicate Settled<L>(noisy: set<string>, role: Role, t: Tree<L>)
    decreases t
  {
    match t
    case Scalar(_) => true
    case List(items) => forall i :: 0 <= i < |items| && items[i].Object? ==> Settled(noisy, Plain, items[i])
    case Object(_, kids) =>
      forall k :: k in kids ==> !Dropped(noisy, role, k, kids[k]) && Settled(noisy, ChildRole(role, k), kids[k])
  }

  lemma {:induction false} SettledIffFixed<L>(noisy: set<string>, role: Role, t: Tree<L>)
    ensures Settled(noisy, role, t) <==> Strip(noisy, role, t) == t
    decreases t
  {
    var r := Strip(noisy, role, t);
    match t
    case Scalar(_) =>
    case List(items) =>
      forall i | 0 <= i < |items| && items[i].Object?
        ensures Settled(noisy, Plain, items[i]) <==> r.items[i] == items[i]
      {
        assert r.items[i] == StripItem(noisy, t, i);
        SettledIffFixed(noisy, Plain, items[i]);
      }
      if Settled(noisy, role, t) {
        assert forall i :: 0 <= i < |items| ==> StripItem(noisy, t, i) == items[i];
        assert r.items == items;
      }
    case Object(l, kids) =>
      forall k | k in kids
        ensures k in r.kids <==> !Dropped(noisy, role, k, kids[k])
        ensures k in r.kids ==> (Settled(noisy, ChildRole(role, k), kids[k]) <==> r.kids[k] == kids[k])
      {
        SettledIffFixed(noisy, ChildRole(role, k), kids[k]);
      }
      if Settled(noisy, role, t) {
        assert r.kids == kids;
      }
  }

  /** Stripping leaves nothing to strip. */
  lemma {:induction false} StripSettles<L>(noisy: set<string>, role: Role, t: Tree<L>)
    ensures Settled(noisy, role, Strip(noisy, role, t))
    decreases t
  {
    var r := Strip(noisy, role, t);
    match t
    case Scalar(_) =>
    case List(items) =>
      forall i | 0 <= i < |items| && r.items[i].Object?
        ensures Settled(noisy, Plain, r.items[i])
      {
        assert r.items[i] == StripItem(noisy, t, i);
        StripSettles(noisy, Plain, items[i]);
      }
    case Object(_, kids) =>
      forall k | k in r.kids
        ensures !Dropped(noisy, role, k, r.kids[k]) && Settled(noisy, ChildRole(role, k), r.kids[k])
      {
        StripSettles(noisy, ChildRole(role, k), kids[k]);
        if role == Metadata && k == "annotations" && kids[k].Object? {
          var other :| other in kids[k].kids && other !in noisy;
          assert other in r.kids[k].kids;
        }
      }
  }

  /** For an object that is not itself metadata, settled means clean; for one
      that is, its holder's cleanliness adds the rest. */
  lemma {:induction false} SettledIffClean<L>(noisy: set<string>, role: Role, t: Tree<L>)
    ensures Settled(noisy, role, t) <==> Clean(noisy, t) && (t.Object? ==> RoleSettled(noisy, role, t))
    decreases t
  {
    match t
    case Scalar(_) =>
    case List(items) =>
      forall i | 0 <= i < |items| && items[i].Object?
        ensures Settled(noisy, Plain, items[i]) <==> Clean(noisy, items[i])
      {
        SettledIffClean(noisy, Plain, items[i]);
      }
    case Object(_, kids) =>
      forall k | k in kids
        ensures Settled(noisy, ChildRole(role, k), kids[k]) <==>
                Clean(noisy, kids[k]) && (kids[k].Object? ==> RoleSettled(noisy, ChildRole(role, k), kids[k]))
      {
        SettledIffClean(noisy, ChildRole(role, k), kids[k]);
      }
      MetadataRole(noisy, role, t);
  }

  /** What the holder of an object requires of it. */
  predicate RoleSettled<L>(noisy: set<string>, role: Role, t: Tree<L>)
    requires t.Object?
  {
    match role
    case Plain => true
    case Annotations => t.kids.Keys !! noisy
    case Metadata =>
      && "managedFields" !in t.kids
      && ("annotations" in t.kids && t.kids["annotations"].Object? ==>
            t.kids["annotations"].kids.Keys !! noisy && t.kids["annotations"].kids != map[])
  }

  lemma MetadataRole<L>(noisy: set<string>, role: Role, t: Tree<L>)
    requires t.Object?
    ensures (forall k :: k in t.kids ==>
               !Dropped(noisy, role, k, t.kids[k])
               && (t.kids[k].Object? ==> RoleSettled(noisy, ChildRole(role, k), t.kids[k])))
       <==> MetadataClean(noisy, t) && RoleSettled(noisy, role, t)
  {
  }

  /** Main result: the stripped object is clean, and stripping changes nothing
      exactly when the object already is; so stripping twice is stripping once. */
  lemma StripCleans<L>(noisy: set<string>, t: Tree<L>)
    ensures Clean(noisy, Strip(noisy, Plain, t))
    ensures Strip(noisy, Plain, t) == t <==> Clean(noisy, t)
    ensures Strip(noisy, Plain, Strip(noisy, Plain, t)) == Strip(noisy, Plain, t)
  {
    var r := Strip(noisy, Plain, t);
    StripSettles(noisy, Plain, t);
    SettledIffClean(noisy, Plain, r);
    SettledIffClean(noisy, Plain, t);
    SettledIffFixed(noisy, Plain, t);
    SettledIffFixed(noisy, Plain, r);
  }
}
