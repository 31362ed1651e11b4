/** How trimming a text acts on its lines. */
module TrimLaws {
  import opened Text

  /** Blanks, tabs, line and page breaks. */
  predicate White(c: char) {
    c == ' ' || '\t' <= c <= '\r'
  }

  predicate AllSpace(s: string) {
    forall i :: 0 <= i < |s| ==> White(s[i])
  }

  /** Text that begins and ends with something else. */
  predicate Tight(s: string) {
    s != "" && !White(s[0]) && !White(s[|s| - 1])
  }

  /** Trimming takes away the space around a text, all of it and nothing else. */
  lemma {:induction false} TrimAround(a: string, core: string, b: string)
    requires AllSpace(a) && Tight(core) && AllSpace(b)
    ensures TrimSpace(a + core + b) == core
    decreases |a| + |b|
  {
    if a != "" {
      assert forall i :: 0 <= i < |a[1..]| ==> a[1..][i] == a[i + 1];
      TrimAround(a[1..], core, b);
      TrimSpaceCons(a[0], a[1..] + core + b);
      assert [a[0]] + (a[1..] + core + b) == a + core + b;
    } else if b != "" {
      TrimAround(a, core, b[..|b| - 1]);
      TrimSpaceSnoc(a + core + b[..|b| - 1], b[|b| - 1]);
      assert (a + core + b[..|b| - 1]) + [b[|b| - 1]] == a + core + b;
    } else {
      assert a + core + b == core;
    }
  }

  lemma {:induction false} TrimStartSnoc(s: string, c: char)
    ensures TrimStart(s + [c]) == if AllSpace(s) then (if IsSpace(c) then "" else [c]) else TrimStart(s) + [c]
  {
    if s == "" {
      assert s + [c] == [c] && [c][1..] == "";
    } else {
      assert (s + [c])[1..] == s[1..] + [c];
      TrimStartSnoc(s[1..], c);
      assert AllSpace(s) <==> IsSpace(s[0]) && AllSpace(s[1..]) by {
        assert forall i :: 0 < i < |s| ==> s[i] == s[1..][i - 1];
      }
    }
  }

  lemma {:induction false} TrimStartBlank(s: string)
    ensures TrimStart(s) == "" <==> AllSpace(s)
    ensures TrimStart(s) != "" ==> !IsSpace(TrimStart(s)[0])
  {
    if s != "" {
      TrimStartBlank(s[1..]);
      assert forall i :: 0 < i < |s| ==> s[i] == s[1..][i - 1];
    }
  }

  lemma {:induction false} TrimEndBlank(s: string)
    requires s != "" && !IsSpace(s[0])
    ensures TrimEnd(s) != ""
  {
    if IsSpace(s[|s| - 1]) {
      TrimEndBlank(s[..|s| - 1]);
    }
  }

  lemma BlankIffAllSpace(s: string)
    ensures TrimSpace(s) == "" <==> AllSpace(s)
  {
    TrimStartBlank(s);
    if !AllSpace(s) {
      TrimEndBlank(TrimStart(s));
    }
  }

  /** A space at either end of a line is trimmed away with the rest. */
  lemma TrimSpaceSnoc(s: string, c: char)
    requires IsSpace(c)
    ensures TrimSpace(s + [c]) == TrimSpace(s)
  {
    TrimStartSnoc(s, c);
    TrimStartBlank(s);
    assert (TrimStart(s) + [c])[..|TrimStart(s)|] == TrimStart(s);
  }

  lemma TrimSpaceCons(c: char, s: string)
    requires IsSpace(c)
    ensures TrimSpace([c] + s) == TrimSpace(s)
  {
    assert ([c] + s)[1..] == s;
  }

  function PushFront(c: char, ls: seq<string>): (r: seq<string>)
    requires ls != []
    ensures r != []
  {
    if c == '\n' then [""] + ls else [[c] + ls[0]] + ls[1..]
  }

  function PushBack(ls: seq<string>, c: char): (r: seq<string>)
    requires ls != []
    ensures r != []
  {
    if c == '\n' then ls + [""] else ls[|ls| - 1 := ls[|ls| - 1] + [c]]
  }

  lemma PushesCommute(a: char, ls: seq<string>, c: char)
    requires ls != []
    ensures PushFront(a, PushBack(ls, c)) == PushBack(PushFront(a, ls), c)
  {
    var l, r := PushFront(a, PushBack(ls, c)), PushBack(PushFront(a, ls), c);
    assert |l| == |r|;
    assert [a] + (ls[0] + [c]) == ([a] + ls[0]) + [c];
    assert forall i :: 0 <= i < |l| ==> l[i] == r[i];
  }

  lemma {:induction false} SplitSnoc(s: string, c: char)
    ensures Split(s + [c]) == PushBack(Split(s), c)
  {
    if s == "" {
      assert s + [c] == [c] && [c][1..] == "" && [c] + "" == "" + [c];
    } else {
      assert (s + [c])[1..] == s[1..] + [c];
      SplitSnoc(s[1..], c);
      PushesCommute(s[0], Split(s[1..]), c);
    }
  }

  /** Every line of `a` trims like some line of `b`. */
  ghost predicate LinesFrom(a: seq<string>, b: seq<string>) {
    forall l :: l in a ==> exists m :: m in b && TrimSpace(l) == TrimSpace(m)
  }

  lemma LinesFromTransitive(a: seq<string>, b: seq<string>, c: seq<string>)
    requires LinesFrom(a, b) && LinesFrom(b, c)
    ensures LinesFrom(a, c)
  {
  }

  lemma LinesFromFirst(c: char, rest: seq<string>)
    requires IsSpace(c) && rest != []
    ensures LinesFrom(rest, [[c] + rest[0]] + rest[1..]) && LinesFrom(rest, [""] + rest)
  {
    var b := [[c] + rest[0]] + rest[1..];
    forall l | l in rest
      ensures exists m :: m in b && TrimSpace(l) == TrimSpace(m)
    {
      var i :| 0 <= i < |rest| && rest[i] == l;
      TrimSpaceCons(c, rest[0]);
      assert b[i] in b && TrimSpace(b[i]) == TrimSpace(l);
    }
  }

  lemma {:induction false} TrimStartLines(s: string)
    ensures LinesFrom(Split(TrimStart(s)), Split(s))
  {
    if s != "" && IsSpace(s[0]) {
      TrimStartLines(s[1..]);
      LinesFromFirst(s[0], Split(s[1..]));
      LinesFromTransitive(Split(TrimStart(s)), Split(s[1..]), Split(s));
    }
  }

  lemma LinesFromLast(c: char, ls: seq<string>)
    requires IsSpace(c) && ls != []
    ensures LinesFrom(ls, PushBack(ls, c))
  {
    var b := PushBack(ls, c);
    forall l | l in ls
      ensures exists m :: m in b && TrimSpace(l) == TrimSpace(m)
    {
      var i :| 0 <= i < |ls| && ls[i] == l;
      TrimSpaceSnoc(ls[|ls| - 1], c);
      assert b[i] in b && TrimSpace(b[i]) == TrimSpace(l);
    }
  }

  lemma {:induction false} TrimEndLines(s: string)
    ensures LinesFrom(Split(TrimEnd(s)), Split(s))
  {
    if s != "" && IsSpace(s[|s| - 1]) {
      var init, c := s[..|s| - 1], s[|s| - 1];
      assert init + [c] == s;
      TrimEndLines(init);
      SplitSnoc(init, c);
      LinesFromLast(c, Split(init));
      LinesFromTransitive(Split(TrimEnd(s)), Split(init), Split(s));
    }
  }

  lemma TrimSpaceLines(s: string)
    ensures LinesFrom(Split(TrimSpace(s)), Split(s))
  {
    TrimStartLines(s);
    TrimEndLines(TrimStart(s));
    LinesFromTransitive(Split(TrimSpace(s)), Split(TrimStart(s)), Split(s));
  }

  /** A blank text has only blank lines. */
  lemma {:induction false} BlankLines(s: string)
    requires AllSpace(s)
    ensures forall l :: l in Split(s) ==> AllSpace(l)
  {
    if s != "" {
      assert forall i :: 0 <= i < |s[1..]| ==> s[1..][i] == s[i + 1];
      BlankLines(s[1..]);
      var rest := Split(s[1..]);
      assert rest[0] in rest;
      assert Split(s) == PushFront(s[0], rest);
    }
  }

  lemma {:induction false} StartAway(s: string) returns (a: string)
    ensures AllSpace(a) && s == a + TrimStart(s)
  {
    a := "";
    if s != "" && IsSpace(s[0]) {
      var rest := StartAway(s[1..]);
      a := [s[0]] + rest;
      assert s == [s[0]] + s[1..];
    }
  }

  lemma {:induction false} EndAway(s: string) returns (b: string)
    ensures AllSpace(b) && s == TrimEnd(s) + b
  {
    b := "";
    if s != "" && IsSpace(s[|s| - 1]) {
      var rest := EndAway(s[..|s| - 1]);
      b := rest + [s[|s| - 1]];
      assert s == s[..|s| - 1] + [s[|s| - 1]];
    }
  }

  /** What trimming takes away is white space at the ends. */
  lemma TrimmedAway(s: string) returns (a: string, b: string)
    ensures AllSpace(a) && AllSpace(b) && s == a + TrimSpace(s) + b
  {
    a := StartAway(s);
    b := EndAway(TrimStart(s));
    Assoc(a, TrimSpace(s), b);
  }
}
