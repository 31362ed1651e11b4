/** What a sanitized manifest looks like when read back. */
module ManifestLaws {
  import opened Text
  import opened TrimLaws
  import opened Sanitize
  import opened Manifest

  ghost predicate NoSeparators(ls: seq<string>) {
    forall l :: l in ls ==> !IsSeparator(l)
  }

  lemma {:induction false} DocumentsHaveNoSeparators(lines: seq<string>, current: seq<string>)
    requires NoSeparators(current) && Lines(lines) && Lines(current)
    ensures forall d :: d in Documents(lines, current) ==> NoSeparators(d) && Lines(d)
    decreases |lines|
  {
    if lines != [] {
      if IsSeparator(lines[0]) {
        DocumentsHaveNoSeparators(lines[1..], []);
      } else {
        DocumentsHaveNoSeparators(lines[1..], current + [lines[0]]);
      }
    }
  }

  lemma {:induction false} SplitOneLine(l: string)
    requires OneLine(l)
    ensures Split(l) == [l]
  {
    if l != "" {
      SplitOneLine(l[1..]);
      assert [l[0]] + l[1..] == l;
    }
  }

  lemma SeparatorText()
    ensures Split(SEPARATOR) == [SEPARATOR] && IsSeparator(SEPARATOR) && !IsSeparator("")
  {
    SplitOneLine(SEPARATOR);
    assert TrimSpace("") == "";
  }

  /** The text of a document without separators trims to lines like its own. */
  lemma TextOfDocument(doc: seq<string>)
    requires NoSeparators(doc) && Lines(doc)
    ensures Split(Unlines(doc)) == doc + [""]
    ensures NoSeparators(Split(TrimSpace(Unlines(doc))))
  {
    var text := Unlines(doc);
    SplitUnlines(doc, "");
    assert text + "" == text;
    TrimSpaceLines(text);
    SeparatorText();
    assert NoSeparators(doc + [""]);
    forall l | l in Split(TrimSpace(text)) ensures !IsSeparator(l) {
      var m :| m in Split(text) && TrimSpace(l) == TrimSpace(m);
      assert !IsSeparator(m);
    }
  }

  lemma TextIsNoSeparator(doc: seq<string>)
    requires NoSeparators(doc) && Lines(doc)
    ensures TrimSpace(Unlines(doc)) != SEPARATOR
  {
    TextOfDocument(doc);
    SeparatorText();
    assert SEPARATOR in [SEPARATOR];
  }

  lemma BlankIsHarmless(rules: Rules, doc: seq<string>)
    requires Lines(doc) && TrimSpace(Unlines(doc)) == ""
    ensures AllHarmless(rules, doc)
  {
    var text := Unlines(doc);
    SplitUnlines(doc, "");
    assert text + "" == text;
    BlankIffAllSpace(text);
    BlankLines(text);
    forall i | 0 <= i < |doc| ensures Harmless(rules, doc[i]) {
      assert doc[i] == Split(text)[i] && doc[i] in Split(text);
      BlankIffAllSpace(doc[i]);
    }
  }

  lemma SanitizedFromLines(rules: Rules, lines: seq<string>)
    requires Lines(lines)
    ensures forall l :: l in SanitizedLines(rules, lines) ==> l in lines || l == ""
  {
    KeptAreHarmless(rules, lines, |lines|);
  }

  /** The body of a document has no separator, and no line that a rule names. */
  lemma BodyIsPlain(rules: Rules, doc: seq<string>)
    requires NoSeparators(doc) && Lines(doc)
    ensures NoSeparators(BodyLines(rules, doc)) && Lines(BodyLines(rules, doc))
    ensures AllHarmless(rules, BodyLines(rules, doc))
  {
    var trimmed := TrimSpace(Unlines(doc));
    TextIsNoSeparator(doc);
    if trimmed == "" {
      BlankIsHarmless(rules, doc);
    } else {
      TextOfDocument(doc);
      SeparatorText();
      SanitizedIsHarmless(rules, Split(trimmed));
      SanitizedFromLines(rules, Split(trimmed));
    }
  }

  lemma {:induction false} ReadRun(run: seq<string>, rest: seq<string>, current: seq<string>)
    requires NoSeparators(run)
    ensures Documents(run + rest, current) == Documents(rest, current + run)
    decreases |run|
  {
    if run == [] {
      assert run + rest == rest && current + run == current;
    } else {
      assert run[0] in run;
      assert (run + rest)[1..] == run[1..] + rest && current + [run[0]] + run[1..] == current + run;
      ReadRun(run[1..], rest, current + [run[0]]);
    }
  }

  /** What SplitYamlDocuments finds: the lines before the first separator line,
      and then what it finds after it... */
  lemma FirstDocument(run: seq<string>, separator: string, rest: seq<string>)
    requires NoSeparators(run) && IsSeparator(separator)
    ensures Documents(run + ([separator] + rest), []) == [run] + Documents(rest, [])
  {
    var tail := [separator] + rest;
    ReadRun(run, tail, []);
    assert [] + run == run && tail[1..] == rest && tail[0] == separator;
  }

  /** ...or all lines, when none is a separator; no lines are no document. */
  lemma OnlyDocument(run: seq<string>)
    requires NoSeparators(run)
    ensures Documents(run, []) == if run == [] then [] else [run]
  {
    ReadRun(run, [], []);
    assert run + [] == run && [] + run == run;
  }

  /** A separator line is three dashes, with white space around. */
  lemma SeparatorLines(line: string)
    ensures IsSeparator(line) <==> exists a, b :: AllSpace(a) && AllSpace(b) && line == a + "---" + b
  {
    if a, b :| AllSpace(a) && AllSpace(b) && line == a + "---" + b {
      TrimAround(a, "---", b);
    }
    if IsSeparator(line) {
      var a, b := TrimmedAway(line);
    }
  }

  function Separators(lines: seq<string>): nat {
    if lines == [] then 0 else (if IsSeparator(lines[0]) then 1 else 0) + Separators(lines[1..])
  }

  /** One document per separator line, and one more unless the last line is one. */
  lemma {:induction false} DocumentCount(lines: seq<string>, current: seq<string>)
    ensures |Documents(lines, current)| == Separators(lines) +
              if lines == [] then (if current == [] then 0 else 1) else if IsSeparator(lines[|lines| - 1]) then 0 else 1
    decreases |lines|
  {
    if lines != [] {
      assert |lines| > 1 ==> lines[1..][|lines[1..]| - 1] == lines[|lines| - 1];
      DocumentCount(lines[1..], if IsSeparator(lines[0]) then [] else current + [lines[0]]);
    }
  }

  lemma ReadSeparated(run: seq<string>, rest: seq<string>)
    requires NoSeparators(run)
    ensures Documents(run + ([SEPARATOR] + rest), []) == [run] + Documents(rest, [])
  {
    SeparatorText();
    FirstDocument(run, SEPARATOR, rest);
  }

  /** Joined bodies without separators of their own read back as documents. */
  lemma {:induction false} ReadJoined(bodies: seq<seq<string>>, rest: seq<string>)
    requires bodies != [] && forall b :: b in bodies ==> NoSeparators(b)
    ensures Documents(Joined(bodies) + rest, []) ==
            bodies[..|bodies| - 1] + Documents(bodies[|bodies| - 1] + rest, [])
    decreases |bodies|
  {
    var n := |bodies| - 1;
    var init, last := bodies[..n], bodies[n];
    if n == 0 {
      assert Joined(bodies) == last by { assert Joined(init) + [] + last == last; }
    } else {
      JoinedThen(init, last, rest);
      assert init + [last] == bodies;
      ReadJoined(init, [SEPARATOR] + (last + rest));
      ReadSeparated(init[n - 1], last + rest);
      SliceThen(init, n - 1, Documents(last + rest, []));
      assert init[..n] == init;
    }
  }

  lemma JoinedThen(init: seq<seq<string>>, last: seq<string>, rest: seq<string>)
    requires init != []
    ensures Joined(init + [last]) + rest == Joined(init) + ([SEPARATOR] + (last + rest))
  {
    assert (init + [last])[..|init|] == init;
    Assoc(Joined(init) + [SEPARATOR], last, rest);
    Assoc(Joined(init), [SEPARATOR], last + rest);
  }

  lemma SliceThen<T>(s: seq<T>, k: nat, rest: seq<T>)
    requires k < |s|
    ensures s[..k] + ([s[k]] + rest) == s[..k + 1] + rest
  {
    assert s[..k + 1] == s[..k] + [s[k]];
  }

  lemma HarmlessConcat(rules: Rules, a: seq<string>, b: seq<string>)
    requires AllHarmless(rules, a) && AllHarmless(rules, b) && Lines(a) && Lines(b)
    ensures AllHarmless(rules, a + b) && Lines(a + b)
  {
  }

  lemma {:induction false} JoinedIsHarmless(rules: Rules, bodies: seq<seq<string>>)
    requires Harmless(rules, SEPARATOR) && forall b :: b in bodies ==> AllHarmless(rules, b) && Lines(b)
    ensures AllHarmless(rules, Joined(bodies)) && Lines(Joined(bodies))
  {
    if bodies != [] {
      var n := |bodies| - 1;
      JoinedIsHarmless(rules, bodies[..n]);
      var separator := if n > 0 then [SEPARATOR] else [];
      HarmlessConcat(rules, Joined(bodies[..n]), separator);
      HarmlessConcat(rules, Joined(bodies[..n]) + separator, bodies[n]);
    }
  }

  lemma BodiesArePlain(rules: Rules, lines: seq<string>)
    requires Lines(lines)
    ensures forall b :: b in Bodies(rules, Documents(lines, [])) ==>
      NoSeparators(b) && Lines(b) && AllHarmless(rules, b)
  {
    var docs := Documents(lines, []);
    DocumentsHaveNoSeparators(lines, []);
    forall i | 0 <= i < |docs|
      ensures NoSeparators(Bodies(rules, docs)[i]) && Lines(Bodies(rules, docs)[i]) && AllHarmless(rules, Bodies(rules, docs)[i])
    {
      assert docs[i] in docs;
      BodyIsPlain(rules, docs[i]);
    }
  }

  /** Main result: read back, the sanitized manifest consists of the sanitized
      documents, one for one and in order (the text's end adds an empty line to
      the last), and no line of it starts a block or annotation that a rule
      names. */
  lemma ManifestReadBack(rules: Rules, manifest: string)
    requires manifest != "" && Harmless(rules, SEPARATOR)
    ensures var bodies := Bodies(rules, Documents(Split(manifest), []));
            var n := |bodies| - 1;
            var lines := Split(SanitizedManifest(rules, manifest));
            && n >= 0
            && Documents(lines, []) == bodies[..n] + [bodies[n] + [""]]
            && AllHarmless(rules, lines)
  {
    SomeDocument(Split(manifest), []);
    BodiesArePlain(rules, Split(manifest));
    BodiesReadBack(rules, Bodies(rules, Documents(Split(manifest), [])));
  }

  lemma BodiesReadBack(rules: Rules, bodies: seq<seq<string>>)
    requires bodies != [] && Harmless(rules, SEPARATOR)
    requires forall b :: b in bodies ==> NoSeparators(b) && Lines(b) && AllHarmless(rules, b)
    ensures var n := |bodies| - 1;
            var lines := Split(Unlines(Joined(bodies)));
            Documents(lines, []) == bodies[..n] + [bodies[n] + [""]] && AllHarmless(rules, lines)
  {
    JoinedIsHarmless(rules, bodies);
    SplitUnlines(Joined(bodies), "");
    assert Unlines(Joined(bodies)) + "" == Unlines(Joined(bodies));
    EmptyIsHarmless(rules);
    HarmlessConcat(rules, Joined(bodies), [""]);
    ReadJoined(bodies, [""]);
    ReadLast(bodies[|bodies| - 1]);
  }

  lemma ReadLast(body: seq<string>)
    requires NoSeparators(body)
    ensures Documents(body + [""], []) == [body + [""]]
  {
    var last := body + [""];
    SeparatorText();
    ReadRun(last, [], []);
    assert last + [] == last && [] + last == last;
  }

  lemma {:induction false} SomeDocument(lines: seq<string>, current: seq<string>)
    requires lines != [] || current != []
    ensures Documents(lines, current) != []
    decreases |lines|
  {
    if lines != [] && !IsSeparator(lines[0]) {
      SomeDocument(lines[1..], current + [lines[0]]);
    }
  }

  /** The rules in use name no separator, so the result applies to them. */
  lemma GoRulesSpareSeparators()
    ensures Harmless(GO_RULES, SEPARATOR)
  {
    SeparatorText();
    assert |GO_RULES.block| > 3;
    forall i | 0 <= i < |GO_RULES.annotations| ensures !(GO_RULES.annotations[i] + ":" <= SEPARATOR) {
      assert |GO_RULES.annotations[i]| > 3;
    }
  }
}
