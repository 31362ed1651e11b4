/** Sanitizing a manifest that has been sanitized. */
module ManifestTwice {
  import opened Text
  import opened TrimLaws
  import opened Sanitize
  import opened Manifest
  import opened ManifestLaws

  ghost predicate Blank(body: seq<string>) {
    TrimSpace(Unlines(body)) == ""
  }

  /** The text begins and ends with something other than space. */
  ghost predicate Trimmed(body: seq<string>) {
    Unlines(body) == Line(TrimSpace(Unlines(body)))
  }

  /** The sanitized documents are all blank or trimmed, and the last is not
      blank; or the only document is empty. */
  ghost predicate Stable(bodies: seq<seq<string>>) {
    || bodies == [[]]
    || (bodies != [] && !Blank(bodies[|bodies| - 1])
        && forall i :: 0 <= i < |bodies| ==> Blank(bodies[i]) || Trimmed(bodies[i]))
  }

  // ---- A text is its lines -------------------------------------------------

  lemma UnlinesInjective(a: seq<string>, b: seq<string>)
    requires Lines(a) && Lines(b) && Unlines(a) == Unlines(b)
    ensures a == b
  {
    SplitUnlines(a, "");
    SplitUnlines(b, "");
    assert Unlines(a) + "" == Unlines(a) && Unlines(b) + "" == Unlines(b);
    assert a == (a + [""])[..|a + [""]| - 1] == b;
  }

  ghost predicate AllPlain(bodies: seq<seq<string>>) {
    forall b :: b in bodies ==> NoSeparators(b) && Lines(b)
  }

  lemma JoinedInjective(a: seq<seq<string>>, b: seq<seq<string>>)
    requires a != [] && b != [] && AllPlain(a) && AllPlain(b) && Joined(a) == Joined(b)
    ensures a == b
  {
    ReadJoined(a, [""]);
    ReadJoined(b, [""]);
    ReadLast(a[|a| - 1]);
    ReadLast(b[|b| - 1]);
    var m, n := |a| - 1, |b| - 1;
    var x, y := a[..m] + [a[m] + [""]], b[..n] + [b[n] + [""]];
    assert x == y && |x| == |a| && |y| == |b|;
    assert x[m] == a[m] + [""] && y[m] == b[m] + [""];
    assert a[m] == x[m][..|x[m]| - 1] == b[m];
    assert forall i :: 0 <= i < m ==> a[i] == x[i] == b[i];
  }

  // ---- One body, sanitized again -------------------------------------------

  lemma {:induction false} TrimEndLast(s: string)
    ensures TrimEnd(s) != "" ==> !IsSpace(TrimEnd(s)[|TrimEnd(s)| - 1])
  {
    if s != "" && IsSpace(s[|s| - 1]) {
      TrimEndLast(s[..|s| - 1]);
    }
  }

  lemma TidyTrimmed(s: string)
    requires TrimSpace(s) != ""
    ensures Tidy(Split(TrimSpace(s))) == Split(TrimSpace(s))
  {
    TrimEndLast(TrimStart(s));
    var t := TrimSpace(s);
    var init, c := t[..|t| - 1], t[|t| - 1];
    assert init + [c] == t;
    SplitSnoc(init, c);
    assert Split(t)[|Split(t)| - 1] != "";
  }

  /** Whether a line starts something depends on its trimmed form alone. */
  lemma HarmlessFrom(rules: Rules, a: seq<string>, b: seq<string>)
    requires LinesFrom(a, b) && AllHarmless(rules, b)
    ensures AllHarmless(rules, a)
  {
    forall i | 0 <= i < |a| ensures Harmless(rules, a[i]) {
      assert a[i] in a;
      var m :| m in b && TrimSpace(a[i]) == TrimSpace(m);
      assert Harmless(rules, m);
    }
  }

  lemma TrimmedIsHarmless(rules: Rules, body: seq<string>)
    requires NoSeparators(body) && Lines(body) && AllHarmless(rules, body)
    ensures AllHarmless(rules, Split(TrimSpace(Unlines(body))))
  {
    TextOfDocument(body);
    LongerIsHarmless(rules, body);
    TrimSpaceLines(Unlines(body));
    HarmlessFrom(rules, Split(TrimSpace(Unlines(body))), Split(Unlines(body)));
  }

  lemma LongerIsHarmless(rules: Rules, body: seq<string>)
    requires Lines(body) && AllHarmless(rules, body)
    ensures AllHarmless(rules, body + [""])
  {
    EmptyIsHarmless(rules);
    HarmlessConcat(rules, body, [""]);
  }

  lemma HarmlessLinesStay(rules: Rules, s: string)
    requires TrimSpace(s) != "" && AllHarmless(rules, Split(TrimSpace(s)))
    ensures SanitizedLines(rules, Split(TrimSpace(s))) == Split(TrimSpace(s))
  {
    var lines := Split(TrimSpace(s));
    AllKept(rules, lines, |lines|);
    assert lines[..|lines|] == lines;
    TidyTrimmed(s);
  }

  /** A harmless document is only trimmed. */
  lemma HarmlessBody(rules: Rules, body: seq<string>)
    requires NoSeparators(body) && Lines(body) && AllHarmless(rules, body)
    ensures Blank(body) ==> BodyLines(rules, body) == body
    ensures !Blank(body) ==> Unlines(BodyLines(rules, body)) == Line(TrimSpace(Unlines(body)))
  {
    TextIsNoSeparator(body);
    if !Blank(body) {
      TrimmedIsHarmless(rules, body);
      HarmlessLinesStay(rules, Unlines(body));
      UnlinesSplit(TrimSpace(Unlines(body)));
    }
  }

  lemma BodyAgain(rules: Rules, body: seq<string>)
    requires NoSeparators(body) && Lines(body) && AllHarmless(rules, body)
    ensures BodyLines(rules, body) == body <==> Blank(body) || Trimmed(body)
  {
    HarmlessBody(rules, body);
    BodyIsPlain(rules, body);
    if !Blank(body) && Trimmed(body) {
      UnlinesInjective(BodyLines(rules, body), body);
    }
  }

  /** The last body is read back with an empty line more. */
  lemma LastBodyAgain(rules: Rules, body: seq<string>)
    requires NoSeparators(body) && Lines(body) && AllHarmless(rules, body)
    ensures BodyLines(rules, body + [""]) == body <==> !Blank(body) && Trimmed(body)
  {
    var longer := body + [""];
    SeparatorText();
    LongerIsHarmless(rules, body);
    UnlinesSnoc(body, "");
    assert Unlines(body) + "" == Unlines(body);
    TrimSpaceSnoc(Unlines(body), '\n');
    HarmlessBody(rules, longer);
    BodyIsPlain(rules, longer);
    if !Blank(body) && Trimmed(body) {
      UnlinesInjective(BodyLines(rules, longer), body);
    }
    assert longer != body;
  }

  // ---- The whole manifest --------------------------------------------------

  ghost function ReadBack(bodies: seq<seq<string>>): (r: seq<seq<string>>)
    requires bodies != []
    ensures |r| == |bodies|
  {
    bodies[..|bodies| - 1] + [bodies[|bodies| - 1] + [""]]
  }

  lemma BodiesAgain(rules: Rules, bodies: seq<seq<string>>)
    requires bodies != [] && AllPlain(bodies) && forall b :: b in bodies ==> AllHarmless(rules, b)
    ensures Bodies(rules, ReadBack(bodies)) == bodies <==>
            !Blank(bodies[|bodies| - 1]) && forall i :: 0 <= i < |bodies| ==> Blank(bodies[i]) || Trimmed(bodies[i])
  {
    var n := |bodies| - 1;
    var read := ReadBack(bodies);
    forall i | 0 <= i < n
      ensures BodyLines(rules, read[i]) == bodies[i] <==> Blank(bodies[i]) || Trimmed(bodies[i])
    {
      assert bodies[i] in bodies;
      BodyAgain(rules, bodies[i]);
    }
    assert bodies[n] in bodies;
    LastBodyAgain(rules, bodies[n]);
    var again := Bodies(rules, read);
    if again == bodies {
      forall i | 0 <= i < |bodies| ensures Blank(bodies[i]) || Trimmed(bodies[i]) {
        assert BodyLines(rules, read[i]) == again[i] == bodies[i];
      }
      assert BodyLines(rules, read[n]) == again[n] == bodies[n];
    }
    if !Blank(bodies[n]) && forall i :: 0 <= i < |bodies| ==> Blank(bodies[i]) || Trimmed(bodies[i]) {
      forall i | 0 <= i < |bodies| ensures again[i] == bodies[i] {
      }
      assert again == bodies;
    }
  }

  lemma PlainReadBack(bodies: seq<seq<string>>, i: nat)
    requires AllPlain(bodies) && i < |bodies|
    ensures NoSeparators(ReadBack(bodies)[i]) && Lines(ReadBack(bodies)[i])
  {
    assert bodies[i] in bodies;
    SeparatorText();
    assert ReadBack(bodies)[i] == if i < |bodies| - 1 then bodies[i] else bodies[i] + [""];
  }

  lemma ReadBackIsPlain(rules: Rules, bodies: seq<seq<string>>)
    requires bodies != [] && AllPlain(bodies)
    ensures AllPlain(Bodies(rules, ReadBack(bodies)))
  {
    var read, again := ReadBack(bodies), Bodies(rules, ReadBack(bodies));
    forall i | 0 <= i < |again| ensures NoSeparators(again[i]) && Lines(again[i]) {
      PlainReadBack(bodies, i);
      BodyIsPlain(rules, read[i]);
      assert again[i] == BodyLines(rules, read[i]);
    }
  }

  lemma {:induction false} JoinedEmpty(bodies: seq<seq<string>>)
    requires bodies != []
    ensures Joined(bodies) == [] <==> bodies == [[]]
  {
    var n := |bodies| - 1;
    if n == 0 {
      assert bodies == [bodies[0]];
      JoinedOne(bodies[0]);
    } else {
      assert SEPARATOR in Joined(bodies[..n]) + [SEPARATOR];
    }
  }

  lemma SecondInput(rules: Rules, manifest: string, bodies: seq<seq<string>>)
    requires manifest != "" && Harmless(rules, SEPARATOR) && bodies == Bodies(rules, Documents(Split(manifest), []))
    ensures bodies != [] && SanitizedManifest(rules, manifest) == Unlines(Joined(bodies))
    ensures Joined(bodies) != [] ==>
      SanitizedManifest(rules, SanitizedManifest(rules, manifest)) == Unlines(Joined(Bodies(rules, ReadBack(bodies))))
  {
    SomeDocument(Split(manifest), []);
    ManifestReadBack(rules, manifest);
    if Joined(bodies) != [] { SomeText(Joined(bodies)); }
  }

  /** Main result: sanitizing a manifest twice is sanitizing it once exactly when
      its sanitized documents are stable. */
  lemma IdempotentExactly(rules: Rules, manifest: string)
    requires manifest != "" && Harmless(rules, SEPARATOR)
    ensures SanitizedManifest(rules, SanitizedManifest(rules, manifest)) == SanitizedManifest(rules, manifest)
            <==> Stable(Bodies(rules, Documents(Split(manifest), [])))
  {
    var bodies := Bodies(rules, Documents(Split(manifest), []));
    SecondInput(rules, manifest, bodies);
    BodiesArePlain(rules, Split(manifest));
    JoinedEmpty(bodies);
    if bodies != [[]] {
      SecondPass(rules, bodies);
    }
  }

  lemma SomeText(ls: seq<string>)
    requires ls != []
    ensures Unlines(ls) != ""
  {
  }

  lemma SecondPass(rules: Rules, bodies: seq<seq<string>>)
    requires bodies != [] && bodies != [[]] && Harmless(rules, SEPARATOR)
    requires forall b :: b in bodies ==> NoSeparators(b) && Lines(b) && AllHarmless(rules, b)
    ensures Unlines(Joined(Bodies(rules, ReadBack(bodies)))) == Unlines(Joined(bodies)) <==> Stable(bodies)
  {
    var again := Bodies(rules, ReadBack(bodies));
    BodiesAgain(rules, bodies);
    ReadBackIsPlain(rules, bodies);
    JoinedLines(again);
    JoinedLines(bodies);
    if Unlines(Joined(again)) == Unlines(Joined(bodies)) {
      UnlinesInjective(Joined(again), Joined(bodies));
      JoinedInjective(again, bodies);
    }
  }

  lemma {:induction false} JoinedLines(bodies: seq<seq<string>>)
    requires AllPlain(bodies)
    ensures Lines(Joined(bodies))
  {
    if bodies != [] {
      JoinedLines(bodies[..|bodies| - 1]);
      assert bodies[|bodies| - 1] in bodies;
      assert OneLine(SEPARATOR);
    }
  }

  // ---- Witnesses -----------------------------------------------------------

  lemma TightIsTrimmed(s: string)
    requires Tight(s)
    ensures TrimSpace(s) == s
  {
    TrimAround("", s, "");
    assert "" + s + "" == s;
  }

  /** One line of text, other than a separator. */
  predicate TightLine(s: string) {
    Tight(s) && OneLine(s) && s != SEPARATOR
  }

  /** Dropping the first line can leave an indented one, which is trimmed next
      time, whatever the rules. */
  lemma IndentedRemainder(rules: Rules, first: string, word: string)
    requires TightLine(first) && TightLine(word) && Harmless(rules, word)
    requires ShapeOf(rules, first).noisy && !ShapeOf(rules, first).opens
    ensures SanitizedManifest(rules, Line(first) + Line(" " + word)) == Line(" " + word)
    ensures SanitizedManifest(rules, Line(" " + word)) == Line(word) != Line(" " + word)
  {
    var second := " " + word;
    TightIsTrimmed(first);
    TightIsTrimmed(word);
    TrimSpaceCons(' ', word);
    assert [' '] + word == second;
    TwoLines(first, second);
    SplitLine(first, second);
    SplitOneLine(second);
    TightIsTrimmed(Line(first) + second);
    LeavesSecond(rules, first, second, Line(first) + second);
    AfterSecond(rules, second, word);
  }

  lemma TwoLines(first: string, second: string)
    ensures Unlines([first, second]) == Line(first) + Line(second) == Line(Line(first) + second)
    ensures TrimSpace(Unlines([first, second])) == TrimSpace(Line(first) + second)
  {
    assert [first, second][1..] == [second];
    OneLineText(second);
    Assoc(Line(first), second, "\n");
    TrimSpaceSnoc(Line(first) + second, '\n');
  }

  lemma OneLineText(line: string)
    ensures Unlines([line]) == Line(line)
  {
    assert [line][1..] == [];
  }

  lemma AfterSecond(rules: Rules, second: string, word: string)
    requires TightLine(word) && Harmless(rules, word) && OneLine(second) && TrimSpace(second) == word
    ensures SanitizedManifest(rules, Line(second)) == Line(word)
  {
    OneLineText(second);
    OneLineText(word);
    TrimSpaceSnoc(second, '\n');
    SplitOneLine(word);
    KeepsOnly(rules, second, word);
  }

  const REVISION := "deployment.kubernetes.io/revision: 1"

  /** It happens with the rules in use. */
  lemma GoRulesLeaveRemainder()
    ensures SanitizedManifest(GO_RULES, Line(REVISION) + Line(" a")) == Line(" a")
    ensures SanitizedManifest(GO_RULES, Line(" a")) == Line("a")
  {
    RevisionIsNoisy();
    HarmlessLetter();
    assert " " + "a" == " a";
    IndentedRemainder(GO_RULES, REVISION, "a");
  }

  lemma RevisionIsNoisy()
    ensures TightLine(REVISION) && ShapeOf(GO_RULES, REVISION).noisy && !ShapeOf(GO_RULES, REVISION).opens
  {
    TightIsTrimmed(REVISION);
    assert GO_RULES.annotations[1] + ":" <= REVISION;
    assert GO_RULES.block[0] != REVISION[0];
  }

  lemma HarmlessLetter()
    ensures TightLine("a") && Harmless(GO_RULES, "a")
  {
    TightIsTrimmed("a");
    assert |GO_RULES.block| > 1 && |SEPARATOR| > 1;
    forall i | 0 <= i < |GO_RULES.annotations| ensures !(GO_RULES.annotations[i] + ":" <= "a") {
      assert |GO_RULES.annotations[i]| > 3;
    }
  }

  lemma LeavesSecond(rules: Rules, first: string, second: string, trimmed: string)
    requires ShapeOf(rules, first).noisy && !ShapeOf(rules, first).opens && Harmless(rules, second) && second != ""
    requires NoSeparators([first, second]) && Lines([first, second]) && trimmed != ""
    requires TrimSpace(Unlines([first, second])) == trimmed && Split(trimmed) == [first, second]
    ensures SanitizedManifest(rules, Unlines([first, second])) == Unlines([second])
  {
    DropFirst(rules, first, second);
    OneDocument(rules, [first, second], trimmed);
  }

  lemma KeepsOnly(rules: Rules, line: string, trimmed: string)
    requires !IsSeparator(line) && OneLine(line) && trimmed != "" && Harmless(rules, trimmed)
    requires TrimSpace(Unlines([line])) == trimmed && Split(trimmed) == [trimmed]
    ensures SanitizedManifest(rules, Unlines([line])) == Unlines([trimmed])
  {
    AllKept(rules, [trimmed], 1);
    OneDocument(rules, [line], trimmed);
  }

  lemma OnlyFirstDropped(ss: seq<Shape>)
    requires |ss| == 2 && ss[0].noisy && !ss[0].opens && !ss[1].noisy && !ss[1].opens
    ensures Dropped(ss, 0) && !Dropped(ss, 1)
  {
  }

  lemma KeptOfTwo(rules: Rules, lines: seq<string>)
    requires |lines| == 2 && Dropped(Shapes(rules, lines), 0) && !Dropped(Shapes(rules, lines), 1)
    ensures Kept(rules, lines, 2) == [lines[1]]
  {
    assert Kept(rules, lines, 0) == [];
    assert Kept(rules, lines, 1) == [];
  }

  /** A noisy first line that opens no block goes, a harmless second one stays. */
  lemma DropFirst(rules: Rules, first: string, second: string)
    requires ShapeOf(rules, first).noisy && !ShapeOf(rules, first).opens
    requires Harmless(rules, second) && second != ""
    ensures SanitizedLines(rules, [first, second]) == [second]
  {
    var lines := [first, second];
    var ss := Shapes(rules, lines);
    assert ss[0] == ShapeOf(rules, first) && ss[1] == ShapeOf(rules, second);
    OnlyFirstDropped(ss);
    KeptOfTwo(rules, lines);
    assert Tidy([second]) == [second];
  }

  /** A manifest of one document, given as its lines, that trims to `trimmed`. */
  lemma OneDocument(rules: Rules, lines: seq<string>, trimmed: string)
    requires Lines(lines) && NoSeparators(lines) && trimmed != ""
    requires TrimSpace(Unlines(lines)) == trimmed
    ensures SanitizedManifest(rules, Unlines(lines)) == Unlines(SanitizedLines(rules, Split(trimmed)))
  {
    var doc := lines + [""];
    SplitUnlines(lines, "");
    assert Unlines(lines) + "" == Unlines(lines);
    ReadLast(lines);
    UnlinesSnoc(lines, "");
    TrimSpaceSnoc(Unlines(lines), '\n');
    SeparatorText();
    TextIsNoSeparator(doc);
    JoinedOne(BodyLines(rules, doc));
    assert Bodies(rules, [doc]) == [BodyLines(rules, doc)];
  }

  /** A blank last document grows by a line each time. */
  lemma BlankManifestGrows(rules: Rules, n: nat)
    requires n > 0
    ensures SanitizedManifest(rules, Newlines(n)) == Newlines(n + 1)
  {
    var lines := seq(n + 1, _ => "");
    SplitNewlines(n);
    UnlinesEmpty(n + 1);
    BlankManifest(rules, lines);
  }

  function Newlines(n: nat): (s: string)
    ensures |s| == n
  {
    if n == 0 then "" else "\n" + Newlines(n - 1)
  }

  lemma {:induction false} SplitNewlines(n: nat)
    ensures Split(Newlines(n)) == seq(n + 1, _ => "")
  {
    if n > 0 {
      SplitNewlines(n - 1);
      assert Newlines(n)[1..] == Newlines(n - 1);
    }
  }

  lemma {:induction false} UnlinesEmpty(n: nat)
    ensures Unlines(seq(n, _ => "")) == Newlines(n)
  {
    if n > 0 {
      UnlinesEmpty(n - 1);
      assert seq(n, _ => "")[1..] == seq(n - 1, _ => "");
    }
  }

  lemma BlankManifest(rules: Rules, lines: seq<string>)
    requires lines != [] && forall i :: 0 <= i < |lines| ==> lines[i] == ""
    ensures Documents(lines, []) == [lines] && Joined(Bodies(rules, [lines])) == lines
  {
    BlankBody(rules, lines);
    assert Bodies(rules, [lines]) == [lines];
    JoinedOne(lines);
    BlankDocument(lines);
  }

  lemma BlankDocument(lines: seq<string>)
    requires lines != [] && forall i :: 0 <= i < |lines| ==> lines[i] == ""
    ensures Documents(lines, []) == [lines]
  {
    SeparatorText();
    ReadRun(lines, [], []);
    assert lines + [] == lines && [] + lines == lines;
  }

  lemma BlankBody(rules: Rules, lines: seq<string>)
    requires forall i :: 0 <= i < |lines| ==> lines[i] == ""
    ensures BodyLines(rules, lines) == lines
  {
    BlankUnlines(lines);
    BlankIffAllSpace(Unlines(lines));
  }

  lemma JoinedOne(body: seq<string>)
    ensures Joined([body]) == body
  {
    assert [body][..0] == [] && Joined([]) + [] + body == body;
  }

  lemma {:induction false} BlankUnlines(lines: seq<string>)
    requires forall i :: 0 <= i < |lines| ==> lines[i] == ""
    ensures AllSpace(Unlines(lines))
  {
    if lines != [] {
      BlankUnlines(lines[1..]);
    }
  }
}
