/** Splitting text into lines and trimming it, over ASCII white space. */
module Text {

  predicate IsSpace(c: char) {
    c == ' ' || ('\t' <= c <= '\r')
  }

  function TrimStart(s: string): string {
    if s == "" || !IsSpace(s[0]) then s else TrimStart(s[1..])
  }

  function TrimEnd(s: string): string {
    if s == "" || !IsSpace(s[|s| - 1]) then s else TrimEnd(s[..|s| - 1])
  }

  function TrimSpace(s: string): string {
    TrimEnd(TrimStart(s))
  }

  function TrimNewlines(s: string): string {
    if s == "" || s[|s| - 1] != '\n' then s else TrimNewlines(s[..|s| - 1])
  }

  predicate OneLine(s: string) {
    '\n' !in s
  }

  predicate Lines(ls: seq<string>) {
    forall i :: 0 <= i < |ls| ==> OneLine(ls[i])
  }

  /** strings.Split(s, "\n"). */
  function Split(s: string): (ls: seq<string>)
    ensures ls != [] && Lines(ls)
  {
    if s == "" then [""]
    else
      var rest := Split(s[1..]);
      if s[0] == '\n' then [""] + rest else [[s[0]] + rest[0]] + rest[1..]
  }

  function Line(l: string): string {
    l + "\n"
  }

  /** Every line followed by a newline. */
  function Unlines(ls: seq<string>): string {
    if ls == [] then "" else Line(ls[0]) + Unlines(ls[1..])
  }

  lemma Assoc<T>(a: seq<T>, b: seq<T>, c: seq<T>)
    ensures (a + b) + c == a + (b + c)
  {
  }

  lemma {:induction false} UnlinesConcat(a: seq<string>, b: seq<string>)
    ensures Unlines(a + b) == Unlines(a) + Unlines(b)
  {
    if a == [] {
      assert a + b == b;
    } else {
      UnlinesConcat(a[1..], b);
      assert (a + b)[0] == a[0] && (a + b)[1..] == a[1..] + b;
      Assoc(Line(a[0]), Unlines(a[1..]), Unlines(b));
    }
  }

  lemma UnlinesSnoc(a: seq<string>, l: string)
    ensures Unlines(a + [l]) == Line(Unlines(a) + l)
  {
    UnlinesConcat(a, [l]);
    assert Unlines([l]) == Line(l) by { assert [l][1..] == []; }
    Assoc(Unlines(a), l, "\n");
  }

  lemma {:induction false} SplitLine(l: string, s: string)
    requires OneLine(l)
    ensures Split(Line(l) + s) == [l] + Split(s)
  {
    var t := Line(l) + s;
    if l == "" {
      assert t[1..] == s;
    } else {
      SplitLine(l[1..], s);
      assert t[1..] == Line(l[1..]) + s;
      assert [l[0]] + l[1..] == l;
    }
  }

  lemma {:induction false} SplitUnlines(ls: seq<string>, s: string)
    requires Lines(ls)
    ensures Split(Unlines(ls) + s) == ls + Split(s)
  {
    if ls == [] {
      assert Unlines(ls) + s == s;
    } else {
      calc {
        Split(Unlines(ls) + s);
        { Assoc(Line(ls[0]), Unlines(ls[1..]), s); }
        Split(Line(ls[0]) + (Unlines(ls[1..]) + s));
        { SplitLine(ls[0], Unlines(ls[1..]) + s); }
        [ls[0]] + Split(Unlines(ls[1..]) + s);
        { SplitUnlines(ls[1..], s); }
        [ls[0]] + (ls[1..] + Split(s));
        { Assoc([ls[0]], ls[1..], Split(s)); assert [ls[0]] + ls[1..] == ls; }
        ls + Split(s);
      }
    }
  }

  lemma UnlinesCons(l: string, rest: seq<string>)
    ensures Unlines([l] + rest) == Line(l) + Unlines(rest)
  {
    assert ([l] + rest)[0] == l && ([l] + rest)[1..] == rest;
  }

  /** A text that ends its last line is the lines it splits into. */
  lemma {:induction false} UnlinesSplit(s: string)
    ensures Unlines(Split(s)) == Line(s)
  {
    if s == "" {
      UnlinesCons("", []);
      assert [""] + [] == [""];
    } else {
      var rest := Split(s[1..]);
      UnlinesSplit(s[1..]);
      assert Line(s) == [s[0]] + Line(s[1..]);
      if s[0] == '\n' {
        UnlinesCons("", rest);
      } else {
        UnlinesCons([s[0]] + rest[0], rest[1..]);
        Assoc([s[0]], rest[0], "\n");
        Assoc([s[0]], Line(rest[0]), Unlines(rest[1..]));
      }
    }
  }

  function DropTrailingEmpty(ls: seq<string>): (r: seq<string>)
    ensures r <= ls && (r != [] ==> r[|r| - 1] != "")
  {
    if ls == [] || ls[|ls| - 1] != "" then ls else DropTrailingEmpty(ls[..|ls| - 1])
  }

  /** At least one line, and no empty line at the end of several. */
  function Tidy(ls: seq<string>): (r: seq<string>)
    ensures r != []
  {
    if DropTrailingEmpty(ls) == [] then [""] else DropTrailingEmpty(ls)
  }

  /** A tidy text read back: the empty line Split adds is tidied away again. */
  lemma TidyAgain(ls: seq<string>)
    ensures Tidy(Tidy(ls) + [""]) == Tidy(ls)
  {
    var t := Tidy(ls);
    assert (t + [""])[..|t|] == t;
    assert DropTrailingEmpty(t + [""]) == DropTrailingEmpty(t);
    if DropTrailingEmpty(ls) == [] {
      assert [""][..0] == [];
      assert DropTrailingEmpty(t) == [];
    } else {
      assert t[|t| - 1] != "";
    }
  }

  lemma TrimOneNewline(s: string)
    ensures TrimNewlines(Line(s)) == TrimNewlines(s)
  {
    assert Line(s)[..|s|] == s;
  }

  lemma NothingToTrim(s: string, last: string)
    requires OneLine(last) && last != ""
    ensures TrimNewlines(s + last) == s + last
  {
    assert (s + last)[|s + last| - 1] == last[|last| - 1];
  }

  lemma {:induction false} TrimmedUnlines(ls: seq<string>)
    requires Lines(ls)
    ensures Line(TrimNewlines(Unlines(ls))) == Unlines(Tidy(ls))
  {
    if ls == [] {
      assert Unlines([""]) == "\n" by { assert [""][1..] == []; }
    } else {
      var init, last := ls[..|ls| - 1], ls[|ls| - 1];
      assert ls == init + [last];
      UnlinesSnoc(init, last);
      TrimOneNewline(Unlines(init) + last);
      if last == "" {
        TrimmedUnlines(init);
        assert Unlines(init) + last == Unlines(init);
      } else {
        NothingToTrim(Unlines(init), last);
      }
    }
  }
}
