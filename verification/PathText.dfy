/** Paths as text, and the names they mean. */
module PathText {

  type Name = string

  /** An absolute path without "", "." or "..", as its names from the root. */
  type Path = seq<Name>

  const DOTDOT: Name := ".."

  function SplitSlash(s: string): (r: seq<Name>)
    ensures r != []
  {
    if s == "" then [""]
    else
      var rest := SplitSlash(s[1..]);
      if s[0] == '/' then [""] + rest else [[s[0]] + rest[0]] + rest[1..]
  }

  function Significant(names: seq<Name>): seq<Name> {
    if names == [] then []
    else (if names[0] == "" || names[0] == "." then [] else [names[0]]) + Significant(names[1..])
  }

  predicate DotsAt(s: string, i: nat) {
    i + 1 < |s| && s[i] == '.' && s[i + 1] == '.'
  }

  predicate ContainsDotDot(s: string) {
    exists i :: 0 <= i < |s| && DotsAt(s, i)
  }

  /** filepath.Clean(filepath.Abs(path)) for a path without "..". */
  function CleanAbs(cwd: Path, path: string): Path {
    (if path != "" && path[0] == '/' then [] else cwd) + Significant(SplitSlash(path))
  }

  predicate Plain(p: Path) {
    DOTDOT !in p
  }

  lemma {:induction false} FirstNameIsPrefix(s: string)
    ensures |SplitSlash(s)[0]| <= |s| && SplitSlash(s)[0] == s[..|SplitSlash(s)[0]|]
  {
    if s != "" && s[0] != '/' {
      FirstNameIsPrefix(s[1..]);
      var first := SplitSlash(s[1..])[0];
      assert s[..|first| + 1] == [s[0]] + s[1..][..|first|];
    }
  }

  lemma {:induction false} DotDotNameHasDots(s: string)
    requires DOTDOT in SplitSlash(s)
    ensures ContainsDotDot(s)
  {
    if SplitSlash(s)[0] == DOTDOT {
      FirstNameIsPrefix(s);
      assert s[..2] == DOTDOT && s[0] == s[..2][0] && s[1] == s[..2][1];
      assert DotsAt(s, 0);
    } else {
      DotDotNameHasDots(s[1..]);
      var i :| 0 <= i < |s[1..]| && DotsAt(s[1..], i);
      assert DotsAt(s, i + 1);
    }
  }

  lemma {:induction false} SignificantAreNames(names: seq<Name>)
    ensures forall n :: n in Significant(names) ==> n in names && n != "" && n != "."
  {
    if names != [] {
      SignificantAreNames(names[1..]);
    }
  }

  /** A path that gets past the ".." test is cleaned to a plain path. */
  lemma CleanIsPlain(cwd: Path, path: string)
    requires Plain(cwd) && !ContainsDotDot(path)
    ensures Plain(CleanAbs(cwd, path))
  {
    if DOTDOT in SplitSlash(path) {
      DotDotNameHasDots(path);
    }
    SignificantAreNames(SplitSlash(path));
  }

  // ---- What cleaning does to a text ----------------------------------------

  /** Each segment after a slash. */
  function Written(segments: seq<Name>): string {
    if segments == [] then "" else "/" + segments[0] + Written(segments[1..])
  }

  predicate Slashless(segments: seq<Name>) {
    forall i :: 0 <= i < |segments| ==> '/' !in segments[i]
  }

  /** Names that cleaning leaves alone. */
  ghost predicate Neat(p: Path) {
    Slashless(p) && forall i :: 0 <= i < |p| ==> p[i] != "" && p[i] != "." && !ContainsDotDot(p[i])
  }

  lemma {:induction false} SplitFirst(name: Name, rest: string)
    requires '/' !in name && (rest == "" || rest[0] == '/')
    ensures SplitSlash(name + rest) == [name] + SplitSlash(rest)[1..]
  {
    if name == "" {
      assert name + rest == rest;
    } else {
      SplitFirst(name[1..], rest);
      assert (name + rest)[0] == name[0] && (name + rest)[1..] == name[1..] + rest;
      assert [name[0]] + name[1..] == name;
    }
  }

  lemma WrittenCons(name: Name, segments: seq<Name>)
    ensures Written([name] + segments) == "/" + (name + Written(segments))
  {
    assert ([name] + segments)[0] == name && ([name] + segments)[1..] == segments;
    assert "/" + name + Written(segments) == "/" + (name + Written(segments));
  }

  lemma AfterSlash(s: string)
    ensures SplitSlash("/" + s) == [""] + SplitSlash(s)
  {
    assert ("/" + s)[1..] == s;
  }

  lemma {:induction false} SplitWritten(segments: seq<Name>)
    requires Slashless(segments)
    ensures SplitSlash(Written(segments)) == [""] + segments
    decreases |segments|, 1
  {
    if segments != [] {
      var name, rest := segments[0], segments[1..];
      assert segments == [name] + rest;
      WrittenCons(name, rest);
      AfterSlash(name + Written(rest));
      SplitJoined(name, rest);
    }
  }

  lemma {:induction false} SplitJoined(name: Name, segments: seq<Name>)
    requires '/' !in name && Slashless(segments)
    ensures SplitSlash(name + Written(segments)) == [name] + segments
    decreases |segments|, 2
  {
    SplitWritten(segments);
    SplitFirst(name, Written(segments));
    assert ([""] + segments)[1..] == segments;
  }

  lemma {:induction false} SignificantConcat(a: seq<Name>, b: seq<Name>)
    ensures Significant(a + b) == Significant(a) + Significant(b)
  {
    if a == [] {
      assert a + b == b;
    } else {
      assert (a + b)[1..] == a[1..] + b;
      SignificantConcat(a[1..], b);
    }
  }

  lemma {:induction false} NeatIsSignificant(p: Path)
    requires forall i :: 0 <= i < |p| ==> p[i] != "" && p[i] != "."
    ensures Significant(p) == p
  {
    if p != [] {
      NeatIsSignificant(p[1..]);
    }
  }

  lemma CleanWritten(cwd: Path, segments: seq<Name>)
    requires segments != [] && Slashless(segments)
    ensures CleanAbs(cwd, Written(segments)) == Significant(segments)
  {
    SplitWritten(segments);
    assert ([""] + segments)[1..] == segments;
  }

  /** Main result on texts: a path written out plainly means itself; from the
      working directory too. */
  lemma WrittenIsClean(cwd: Path, p: Path)
    requires p != [] && Neat(p)
    ensures CleanAbs(cwd, Written(p)) == p && !ContainsDotDot(Written(p))
  {
    CleanWritten(cwd, p);
    NeatIsSignificant(p);
    WrittenHasNoDots(p);
  }

  lemma SplitRelative(p: Path)
    requires p != [] && Slashless(p)
    ensures Written(p)[1..] == p[0] + Written(p[1..]) && SplitSlash(Written(p)[1..]) == p
  {
    assert p == [p[0]] + p[1..];
    WrittenCons(p[0], p[1..]);
    SplitJoined(p[0], p[1..]);
  }

  lemma NoDotsAfterFirst(s: string)
    requires s != "" && !ContainsDotDot(s)
    ensures !ContainsDotDot(s[1..])
  {
    forall i | 0 <= i < |s[1..]| ensures !DotsAt(s[1..], i) {
      assert !DotsAt(s, i + 1);
    }
  }

  lemma RelativeIsClean(cwd: Path, p: Path)
    requires p != [] && Neat(p)
    ensures Written(p)[1..] != "" && CleanAbs(cwd, Written(p)[1..]) == cwd + p && !ContainsDotDot(Written(p)[1..])
  {
    SplitRelative(p);
    assert Written(p)[1..][0] == p[0][0];
    NeatIsSignificant(p);
    WrittenHasNoDots(p);
    NoDotsAfterFirst(Written(p));
  }

  lemma {:induction false} WrittenConcat(a: seq<Name>, b: seq<Name>)
    ensures Written(a + b) == Written(a) + Written(b)
  {
    if a == [] {
      assert a + b == b;
    } else {
      WrittenConcat(a[1..], b);
      assert (a + b)[0] == a[0] && (a + b)[1..] == a[1..] + b;
    }
  }

  /** A doubled slash, a "/." or a slash at the end anywhere in a text changes
      nothing. */
  lemma CleanIgnores(cwd: Path, a: seq<Name>, extra: Name, b: seq<Name>)
    requires a + b != [] && Slashless(a) && Slashless(b) && (extra == "" || extra == ".")
    ensures CleanAbs(cwd, Written(a) + "/" + extra + Written(b)) == CleanAbs(cwd, Written(a) + Written(b))
  {
    var longer := a + ([extra] + b);
    WrittenWith(a, extra, b);
    WrittenConcat(a, b);
    CleanWritten(cwd, a + b);
    SlashlessWith(a, extra, b);
    CleanWritten(cwd, longer);
    SignificantWith(a, extra, b);
  }

  lemma SlashlessWith(a: seq<Name>, extra: Name, b: seq<Name>)
    requires Slashless(a) && Slashless(b) && '/' !in extra
    ensures Slashless(a + ([extra] + b))
  {
  }

  lemma SignificantWith(a: seq<Name>, extra: Name, b: seq<Name>)
    requires extra == "" || extra == "."
    ensures Significant(a + ([extra] + b)) == Significant(a + b)
  {
    SignificantConcat(a, b);
    SignificantConcat(a, [extra] + b);
    assert ([extra] + b)[1..] == b;
    assert Significant([extra] + b) == [] + Significant(b) == Significant(b);
  }

  lemma WrittenWith(a: seq<Name>, extra: Name, b: seq<Name>)
    ensures Written(a + ([extra] + b)) == Written(a) + "/" + extra + Written(b)
  {
    WrittenConcat(a, [extra] + b);
    assert ([extra] + b)[1..] == b;
    assert Written([extra] + b) == "/" + extra + Written(b);
  }

  lemma RootIsClean(cwd: Path)
    ensures CleanAbs(cwd, "/") == []
  {
    CleanWritten(cwd, [""]);
    assert Written([""]) == "/" by { assert [""][1..] == []; }
    assert [""][1..] == [];
  }

  lemma WrittenIsLong(p: Path)
    requires p != [] && Neat(p)
    ensures |Written(p)| > 1
  {
    assert p[0] != "";
  }

  lemma EmptyIsNotWritten()
    ensures forall p :: p != [] && Neat(p) ==> |Written(p)| > 1
    ensures !ContainsDotDot("")
  {
    forall p | p != [] && Neat(p) ensures |Written(p)| > 1 { WrittenIsLong(p); }
  }

  lemma {:induction false} WrittenHasNoDots(p: Path)
    requires Neat(p)
    ensures !ContainsDotDot(Written(p))
  {
    if p != [] {
      var name, rest := p[0], Written(p[1..]);
      WrittenHasNoDots(p[1..]);
      assert Written(p) == ['/'] + name + rest;
      forall i | 0 <= i < |Written(p)| ensures !DotsAt(Written(p), i) {
        if 0 < i <= |name| {
          assert !DotsAt(name, i - 1);
        } else if i > |name| {
          assert !DotsAt(rest, i - 1 - |name|);
        }
      }
    }
  }

  /** ".." occurs somewhere in the text. */
  lemma DotsOccur(s: string)
    ensures ContainsDotDot(s) <==> exists a: string, b: string :: s == a + DOTDOT + b
  {
    if i :| 0 <= i < |s| && DotsAt(s, i) {
      assert s == s[..i] + DOTDOT + s[i + 2..];
    }
    forall a: string, b: string | s == a + DOTDOT + b ensures ContainsDotDot(s) {
      assert DotsAt(s, |a|);
    }
  }
}
