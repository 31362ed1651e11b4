/** ValidatePath: the symlink check on a path, against a model of a file system
    in which looking a path up follows symlinks as the kernel does. */
module Paths {
  import opened Options
  import opened PathText

  /** What a symlink points to; its names may include "..". */
  datatype Target = Target(absolute: bool, names: seq<Name>)

  datatype Inode = Directory(searchable: bool) | File | Link(target: Target)

  /** The real tree: every inode by the path of directories that contains it. */
  type FileSystem = map<Path, Inode>

  datatype Error = NotExist | Other

  function Parent(p: Path): Path {
    if p == [] then [] else p[..|p| - 1]
  }

  /** Walk `rest` from the directory `at`, following every symlink met on the
      way and, if `follow`, one in last place too, but at most `budget` of them.
      The result is the real location reached. */
  function Walk(fs: FileSystem, at: Path, rest: seq<Name>, follow: bool, budget: nat): Result<Path, Error>
    decreases budget, |rest|
  {
    if rest == [] then Ok(at)
    else if at !in fs then Err(NotExist)
    else if !fs[at].Directory? || !fs[at].searchable then Err(Other)
    else if rest[0] == DOTDOT then Walk(fs, Parent(at), rest[1..], follow, budget)
    else
      var child := at + [rest[0]];
      if child !in fs then Err(NotExist)
      else if fs[child].Link? && (follow || |rest| > 1) then
        if budget == 0 then Err(Other)
        else Walk(fs, if fs[child].target.absolute then [] else at, fs[child].target.names + rest[1..], follow, budget - 1)
      else Walk(fs, child, rest[1..], follow, budget)
  }

  /** The kernel gives up after 40 symlinks. */
  const MAX_LINKS: nat := 40

  function Lookup(fs: FileSystem, p: Path, follow: bool): Result<Path, Error> {
    Walk(fs, [], p, follow, MAX_LINKS)
  }

  datatype Stat = Missing | Fails | IsLink | IsOther

  /** os.Lstat: parents are resolved, the last name is not followed. */
  function Lstat(fs: FileSystem, p: Path): Stat {
    match Lookup(fs, p, false)
    case Err(NotExist) => Missing
    case Err(Other) => Fails
    case Ok(q) => if q !in fs then Missing else if fs[q].Link? then IsLink else IsOther
  }

  // ---- The check -----------------------------------------------------------

  datatype Verdict = Accepted | DotDot | Inaccessible | LastIsLink | TraversesLink(dir: Path)

  const SYSTEM_ALIASES: set<Path> :=
    {["tmp"], ["var"], ["etc"], ["bin"], ["sbin"], ["lib"], ["lib32"], ["lib64"]}

  predicate BadParent(fs: FileSystem, aliases: set<Path>, dir: Path) {
    Lstat(fs, dir) == IsLink && dir !in aliases
  }

  /** `dir` is the deepest ancestor that is a link and no alias. */
  ghost predicate DeepestBad(fs: FileSystem, aliases: set<Path>, p: Path, dir: Path) {
    && 0 < |dir| < |p| && dir == p[..|dir|] && BadParent(fs, aliases, dir)
    && forall j :: |dir| < j < |p| ==> !BadParent(fs, aliases, p[..j])
  }

  /** The loop over the ancestors, from the leaf's directory up, the root left
      out. A directory that cannot be examined is passed over. */
  method RejectSymlinkedParents(fs: FileSystem, aliases: set<Path>, cleanPath: Path) returns (v: Verdict)
    ensures v == Accepted <==> forall k :: 0 < k < |cleanPath| ==> !BadParent(fs, aliases, cleanPath[..k])
    ensures v != Accepted ==> v.TraversesLink? && DeepestBad(fs, aliases, cleanPath, v.dir)
  {
    var dir := Parent(cleanPath);
    while dir != Parent(dir)
      invariant |dir| < |cleanPath| || cleanPath == []
      invariant dir == cleanPath[..|dir|]
      invariant forall k :: |dir| < k < |cleanPath| ==> !BadParent(fs, aliases, cleanPath[..k])
      decreases |dir|
    {
      assert |dir| > 0;
      if Lstat(fs, dir) == IsLink && dir !in aliases {
        return TraversesLink(dir);
      }
      dir := Parent(dir);
    }
    assert |dir| == 0;
    return Accepted;
  }

  /** The verdict on a cleaned path: which check fails first, if one does. */
  ghost predicate Judged(fs: FileSystem, aliases: set<Path>, p: Path, v: Verdict) {
    match v
    case Accepted => Passes(fs, aliases, p)
    case TraversesLink(dir) => DeepestBad(fs, aliases, p, dir)
    case Inaccessible => Lstat(fs, p) == Fails && forall k :: 0 < k < |p| ==> !BadParent(fs, aliases, p[..k])
    case LastIsLink => Lstat(fs, p) == IsLink && forall k :: 0 < k < |p| ==> !BadParent(fs, aliases, p[..k])
    case DotDot => false
  }

  /** The text of a path may say it with "//", "/./" or a slash at the end; the
      verdict is on the names it means. */
  method ValidatePath(fs: FileSystem, aliases: set<Path>, cwd: Path, path: string) returns (v: Verdict)
    ensures path == "" ==> v == Accepted
    ensures v == DotDot <==> ContainsDotDot(path)
    ensures path != "" && v != DotDot ==> Judged(fs, aliases, CleanAbs(cwd, path), v)
    ensures forall p :: p != [] && Neat(p) && path == Written(p) ==> Judged(fs, aliases, p, v)
    ensures forall p :: p != [] && Neat(p) && path == Written(p)[1..] ==> Judged(fs, aliases, cwd + p, v)
  {
    if path == "" {
      EmptyIsNotWritten();
      return Accepted;
    }
    forall p | p != [] && Neat(p) && path == Written(p) { WrittenIsClean(cwd, p); }
    forall p | p != [] && Neat(p) && path == Written(p)[1..] { RelativeIsClean(cwd, p); }
    if ContainsDotDot(path) {
      return DotDot;
    }
    var cleanPath := CleanAbs(cwd, path);
    v := RejectSymlinkedParents(fs, aliases, cleanPath);
    if v != Accepted {
      return;
    }
    match Lstat(fs, cleanPath)
    case Missing => return Accepted;
    case Fails => return Inaccessible;
    case IsLink => return LastIsLink;
    case IsOther => return Accepted;
  }

  /** What ValidatePath checks of a cleaned path. */
  ghost predicate Passes(fs: FileSystem, aliases: set<Path>, p: Path) {
    && (Lstat(fs, p) == Missing || Lstat(fs, p) == IsOther)
    && forall k :: 0 < k < |p| ==> !BadParent(fs, aliases, p[..k])
  }

  // ---- Laws ----------------------------------------------------------------

  /** Name i of p leads from a searchable directory to something not a symlink. */
  predicate StraightStep(fs: FileSystem, p: Path, i: nat)
    requires i < |p|
  {
    && p[..i] in fs && fs[p[..i]].Directory? && fs[p[..i]].searchable
    && p[..i + 1] in fs && !fs[p[..i + 1]].Link?
  }

  /** The first k names of p lead, without any symlink, to a real location. */
  ghost predicate Straight(fs: FileSystem, p: Path, k: nat)
    requires k <= |p|
  {
    forall i :: 0 <= i < k ==> StraightStep(fs, p, i)
  }

  lemma {:induction false} WalkStraight(fs: FileSystem, p: Path, k: nat, follow: bool, budget: nat)
    requires Plain(p) && k <= |p| && Straight(fs, p, k)
    ensures Walk(fs, [], p, follow, budget) == Walk(fs, p[..k], p[k..], follow, budget)
    decreases k
  {
    if k == 0 {
      assert p[0..] == p && p[..0] == [];
    } else {
      WalkStraight(fs, p, k - 1, follow, budget);
      assert StraightStep(fs, p, k - 1);
      assert p[k - 1..][0] == p[k - 1] && p[k - 1] in p && p[k - 1..][1..] == p[k..];
      assert p[..k - 1] + [p[k - 1]] == p[..k];
    }
  }

  lemma PrefixOfPrefix(p: Path, k: nat, i: nat)
    requires i <= k <= |p|
    ensures p[..k][..i] == p[..i]
  {
  }

  lemma StraightPrefix(fs: FileSystem, p: Path, k: nat, n: nat)
    requires k <= n <= |p| && Straight(fs, p, k)
    ensures Straight(fs, p[..n], k)
  {
    forall i | 0 <= i < k ensures StraightStep(fs, p[..n], i) {
      PrefixOfPrefix(p, n, i);
      PrefixOfPrefix(p, n, i + 1);
      assert StraightStep(fs, p, i);
    }
  }

  /** A straight location looks like itself. */
  lemma LookupStraight(fs: FileSystem, p: Path, k: nat)
    requires Plain(p) && k <= |p| && Straight(fs, p, k)
    ensures Lookup(fs, p[..k], true) == Lookup(fs, p[..k], false) == Ok(p[..k])
    ensures k > 0 ==> Lstat(fs, p[..k]) == IsOther
  {
    StraightPrefix(fs, p, k, k);
    WalkStraight(fs, p[..k], k, true, MAX_LINKS);
    WalkStraight(fs, p[..k], k, false, MAX_LINKS);
    assert p[..k][..k] == p[..k] && p[..k][k..] == [];
    if k > 0 { assert StraightStep(fs, p, k - 1); }
  }

  /** Where the straight part ends, Lstat of the whole path or of the next prefix
      says why. */
  lemma NextName(fs: FileSystem, p: Path, k: nat)
    requires Plain(p) && k < |p| && Straight(fs, p, k)
    ensures Straight(fs, p, k + 1)
         || (Lstat(fs, p) == Fails && Lookup(fs, p, true) == Err(Other))
         || (Lstat(fs, p) == Missing && Lookup(fs, p, true) == Lookup(fs, p[..k + 1], true) == Err(NotExist))
         || Lstat(fs, p[..k + 1]) == IsLink
  {
    WalkStraight(fs, p, k, true, MAX_LINKS);
    WalkStraight(fs, p, k, false, MAX_LINKS);
    var child := p[..k + 1];
    assert p[k..][0] == p[k] && p[k] in p && p[..k] + [p[k]] == child;
    StraightPrefix(fs, p, k, k + 1);
    WalkStraight(fs, child, k, true, MAX_LINKS);
    assert child[..k] == p[..k] && child[k..] == [p[k]] && [p[k]][1..] == [];
    if p[..k] in fs && fs[p[..k]].Directory? && fs[p[..k]].searchable && child in fs && fs[child].Link? {
      WalkStraight(fs, child, k, false, MAX_LINKS);
      assert Lookup(fs, child, false) == Ok(child);
    }
  }

  /** The loop goes from the leaf up, its meaning from the root down: with no
      symlink among the ancestors and none in last place, every prefix resolves
      to itself as far as the path exists. */
  lemma {:induction false} RootToLeaf(fs: FileSystem, p: Path, k: nat) returns (n: nat)
    requires Plain(p) && k <= |p| && Straight(fs, p, k)
    requires Lstat(fs, p) == Missing || Lstat(fs, p) == IsOther
    requires forall i :: 0 < i < |p| ==> Lstat(fs, p[..i]) != IsLink
    ensures k <= n <= |p| && Straight(fs, p, n)
    ensures n < |p| ==> Lstat(fs, p) == Missing && Lookup(fs, p, true) == Lookup(fs, p[..n + 1], true) == Err(NotExist)
    decreases |p| - k
  {
    n := k;
    if k < |p| {
      NextName(fs, p, k);
      if Straight(fs, p, k + 1) {
        n := RootToLeaf(fs, p, k + 1);
      } else {
        assert p[..|p|] == p;
      }
    }
  }

  /** Main result. An accepted path whose ancestors are no symlinks resolves to
      its own cleaned form when it exists, and otherwise not at all; then its
      first n names resolve to themselves and with one name more to nothing. */
  lemma AcceptedMeansIdentity(fs: FileSystem, aliases: set<Path>, p: Path) returns (n: nat)
    requires Plain(p) && p != [] && Passes(fs, aliases, p)
    requires forall a :: a in aliases ==> Lstat(fs, a) != IsLink
    ensures n <= |p| && forall k :: 0 <= k <= n ==> Lookup(fs, p[..k], true) == Ok(p[..k])
    ensures n < |p| ==> Lstat(fs, p) == Missing && Lookup(fs, p[..n + 1], true) == Err(NotExist)
    ensures forall k :: 0 < k <= |p| ==> Lstat(fs, p[..k]) != IsLink
    ensures Lstat(fs, p) == IsOther ==> Lookup(fs, p, true) == Ok(p)
    ensures Lstat(fs, p) == Missing ==> Lookup(fs, p, true) == Err(NotExist)
  {
    forall i | 0 < i < |p| ensures Lstat(fs, p[..i]) != IsLink {
      assert !BadParent(fs, aliases, p[..i]);
    }
    n := RootToLeaf(fs, p, 0);
    forall k | 0 <= k <= n ensures Lookup(fs, p[..k], true) == Ok(p[..k]) {
      LookupStraight(fs, p, k);
    }
    assert p[..|p|] == p;
    if n == |p| {
      LookupStraight(fs, p, n);
    }
  }

  /** Every directory above the location is real. */
  ghost predicate Real(fs: FileSystem, q: Path) {
    forall i :: 0 <= i < |q| ==> RealStep(fs, q, i)
  }

  predicate Rooted(fs: FileSystem) {
    [] in fs && fs[[]].Directory?
  }

  predicate RealStep(fs: FileSystem, q: Path, i: nat)
    requires i < |q|
  {
    q[..i] in fs && fs[q[..i]].Directory?
  }

  lemma RealParent(fs: FileSystem, at: Path)
    requires Real(fs, at)
    ensures Real(fs, Parent(at)) && (at != [] ==> Parent(at) in fs && fs[Parent(at)].Directory?)
  {
    if at != [] {
      forall i | 0 <= i < |at| - 1 ensures RealStep(fs, Parent(at), i) {
        PrefixOfPrefix(at, |at| - 1, i);
        assert RealStep(fs, at, i);
      }
      assert RealStep(fs, at, |at| - 1);
    }
  }

  lemma RealChild(fs: FileSystem, at: Path, name: Name)
    requires Real(fs, at) && at in fs && fs[at].Directory?
    ensures Real(fs, at + [name])
  {
    var child := at + [name];
    forall i | 0 <= i < |child| ensures RealStep(fs, child, i) {
      if i < |at| {
        assert child[..i] == at[..i] && RealStep(fs, at, i);
      } else {
        assert child[..i] == at;
      }
    }
  }

  /** Looking up ends at a real location, no symlink if those are followed. */
  lemma {:induction false} WalkStaysReal(fs: FileSystem, at: Path, rest: seq<Name>, follow: bool, budget: nat)
    requires Real(fs, at) && Walk(fs, at, rest, follow, budget).Ok? && Rooted(fs) && at in fs
    requires fs[at].Link? ==> rest == [] && !follow
    ensures var q := Walk(fs, at, rest, follow, budget).value;
            Real(fs, q) && q in fs && (follow ==> !fs[q].Link?)
    decreases budget, |rest|
  {
    if rest != [] {
      if rest[0] == DOTDOT {
        RealParent(fs, at);
        WalkStaysReal(fs, Parent(at), rest[1..], follow, budget);
      } else {
        var child := at + [rest[0]];
        if fs[child].Link? && (follow || |rest| > 1) {
          var target := fs[child].target;
          WalkStaysReal(fs, if target.absolute then [] else at, target.names + rest[1..], follow, budget - 1);
        } else {
          RealChild(fs, at, rest[0]);
          WalkStaysReal(fs, child, rest[1..], follow, budget);
        }
      }
    }
  }

  /** A path that resolves to itself has no symlink at any prefix. */
  lemma {:induction false} IdentityIsStraight(fs: FileSystem, p: Path, k: nat)
    requires Plain(p) && k <= |p| && Lookup(fs, p, true) == Ok(p)
    requires Rooted(fs)
    ensures Straight(fs, p, k)
    decreases k
  {
    if k > 0 {
      IdentityIsStraight(fs, p, k - 1);
      WalkStraight(fs, p, k - 1, true, MAX_LINKS);
      WalkStaysReal(fs, [], p, true, MAX_LINKS);
      assert p[k - 1..][0] == p[k - 1] && p[k - 1] in p;
      assert p[..k - 1] + [p[k - 1]] == p[..k];
      if k < |p| { assert RealStep(fs, p, k); } else { assert p[..k] == p; }
      assert StraightStep(fs, p, k - 1);
    }
  }

  /** Main result, both ways and with aliases: an accepted path to something that
      exists resolves to its own cleaned form exactly when none of its ancestors
      is a symlink, that is, when it runs through no system alias that is one. */
  lemma IdentityIffNoAliasLink(fs: FileSystem, aliases: set<Path>, p: Path)
    requires Plain(p) && p != [] && Passes(fs, aliases, p) && Lstat(fs, p) == IsOther
    requires Rooted(fs)
    ensures Lookup(fs, p, true) == Ok(p) <==> forall k :: 0 < k < |p| ==> Lstat(fs, p[..k]) != IsLink
  {
    if forall k :: 0 < k < |p| ==> Lstat(fs, p[..k]) != IsLink {
      var n := RootToLeaf(fs, p, 0);
      assert n == |p| && p[..|p|] == p;
      LookupStraight(fs, p, n);
    } else if Lookup(fs, p, true) == Ok(p) {
      IdentityIsStraight(fs, p, |p|);
      forall k | 0 < k < |p| ensures Lstat(fs, p[..k]) != IsLink {
        assert forall i :: 0 <= i < k ==> StraightStep(fs, p, i);
        LookupStraight(fs, p, k);
      }
    }
  }

  /** Conversely, a path that resolves to itself is accepted. */
  lemma IdentityIsAccepted(fs: FileSystem, aliases: set<Path>, p: Path)
    requires Plain(p) && p != [] && Lookup(fs, p, true) == Ok(p)
    requires Rooted(fs)
    ensures Passes(fs, aliases, p)
  {
    IdentityIsStraight(fs, p, |p|);
    assert p[..|p|] == p;
    LookupStraight(fs, p, |p|);
    forall k | 0 < k < |p| ensures !BadParent(fs, aliases, p[..k]) {
      assert forall i :: 0 <= i < k ==> StraightStep(fs, p, i);
      LookupStraight(fs, p, k);
    }
  }

  /** With /tmp a symlink to /private/tmp, /tmp/x is accepted and resolves to
      /private/tmp/x. */
  lemma AliasRedirects() returns (fs: FileSystem, p: Path)
    ensures Passes(fs, SYSTEM_ALIASES, p) && Lookup(fs, p, true).Ok? && Lookup(fs, p, true) != Ok(p)
  {
    var dir := Directory(true);
    fs := map[[] := dir, ["tmp"] := Link(Target(true, ["private", "tmp"])), ["private"] := dir,
              ["private", "tmp"] := dir, ["private", "tmp", "x"] := File];
    p := ["tmp", "x"];
    assert p[..1] == ["tmp"];
    AliasWalk(fs, true);
    AliasWalk(fs, false);
  }

  lemma AliasWalk(fs: FileSystem, follow: bool)
    requires fs.Keys == {[], ["tmp"], ["private"], ["private", "tmp"], ["private", "tmp", "x"]}
    requires fs[["tmp"]] == Link(Target(true, ["private", "tmp"])) && fs[["private", "tmp", "x"]] == File
    requires forall q :: q in {[], ["private"], ["private", "tmp"]} ==> fs[q] == Directory(true)
    ensures Lookup(fs, ["tmp", "x"], follow) == Ok(["private", "tmp", "x"])
  {
    var whole := ["private", "tmp", "x"];
    assert ["tmp", "x"][1..] == ["x"] && ["private", "tmp"] + ["x"] == whole && [] + ["tmp"] == ["tmp"];
    assert whole[1..] == ["tmp", "x"] && [] + ["private"] == ["private"];
    assert ["private"] + ["tmp"] == ["private", "tmp"];
    assert ["x"][1..] == [] && ["private", "tmp"] + ["x"] == whole;
    assert Walk(fs, ["private", "tmp"], ["x"], follow, MAX_LINKS - 1) == Ok(whole);
    assert Walk(fs, ["private"], ["tmp", "x"], follow, MAX_LINKS - 1) == Ok(whole);
    assert Walk(fs, [], whole, follow, MAX_LINKS - 1) == Ok(whole);
  }
}
