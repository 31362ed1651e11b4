/** SanitizeManifest: one pass over the lines of a YAML manifest that drops
    managedFields blocks and noisy annotations. */
module Sanitize {
  import opened Noise
  import opened Text

  /** The key prefix of a block to strip and the annotation keys to strip. */
  datatype Rules = Rules(block: string, annotations: seq<string>)

  const GO_RULES := Rules("managedFields:", NOISY_ANNOTATIONS)

  predicate ShouldStripBlock(rules: Rules, trimmed: string) {
    rules.block <= trimmed
  }

  predicate IsNoisyAnnotation(rules: Rules, trimmed: string) {
    exists i :: 0 <= i < |rules.annotations| && rules.annotations[i] + ":" <= trimmed
  }

  /** The value follows on the next lines. */
  predicate OpensScalar(trimmed: string) {
    trimmed != "" && (trimmed[|trimmed| - 1] == '|' || trimmed[|trimmed| - 1] == '>')
  }

  function LeadingSpaces(s: string): nat {
    if s == "" || s[0] != ' ' then 0 else 1 + LeadingSpaces(s[1..])
  }

  /** What the pass looks at in a line. */
  datatype Shape = Shape(blank: bool, indent: nat, noisy: bool, opens: bool)

  function ShapeOf(rules: Rules, line: string): Shape {
    var trimmed := TrimSpace(line);
    Shape(trimmed == "",
          LeadingSpaces(line),
          trimmed != "" && IsNoisyAnnotation(rules, trimmed),
          trimmed != "" && (ShouldStripBlock(rules, trimmed)
                            || (IsNoisyAnnotation(rules, trimmed) && OpensScalar(trimmed))))
  }

  function Shapes(rules: Rules, lines: seq<string>): (r: seq<Shape>)
    ensures |r| == |lines|
  {
    seq(|lines|, i requires 0 <= i < |lines| => ShapeOf(rules, lines[i]))
  }

  // ---- Declarative meaning -------------------------------------------------

  predicate Deeper(line: Shape, indent: nat) {
    line.blank || line.indent > indent
  }

  /** The block opened at line j is still open after the first n lines. */
  ghost predicate Open(ss: seq<Shape>, j: nat, n: nat)
    requires n <= |ss|
  {
    j < n && ss[j].opens && forall m :: j < m < n ==> Deeper(ss[m], ss[j].indent)
  }

  ghost predicate InsideBlock(ss: seq<Shape>, n: nat)
    requires n <= |ss|
  {
    exists j: nat :: Open(ss, j, n)
  }

  /** Line i is a noisy line or lies in some stripped block, nested or not; the
      line that opens a block lies in it. */
  ghost predicate Dropped(ss: seq<Shape>, i: nat)
    requires i < |ss|
  {
    ss[i].noisy || InsideBlock(ss, i + 1)
  }

  /** The lines among the first n that are not dropped, in order, unchanged. */
  ghost function Kept(rules: Rules, lines: seq<string>, n: nat): seq<string>
    requires n <= |lines|
  {
    if n == 0 then []
    else Kept(rules, lines, n - 1) + (if Dropped(Shapes(rules, lines), n - 1) then [] else [lines[n - 1]])
  }

  ghost function SanitizedLines(rules: Rules, lines: seq<string>): seq<string> {
    Tidy(Kept(rules, lines, |lines|))
  }

  ghost function SanitizedDocument(rules: Rules, doc: string): string {
    Unlines(SanitizedLines(rules, Split(doc)))
  }

  // ---- The line machine ----------------------------------------------------

  datatype Skip = Skip(on: bool, indent: nat)

  /** The loop variables know the indent of the outermost open block only. */
  ghost predicate Tracks(ss: seq<Shape>, n: nat, k: Skip)
    requires n <= |ss|
  {
    && (k.on <==> InsideBlock(ss, n))
    && (k.on ==> exists j: nat :: Open(ss, j, n) && ss[j].indent == k.indent)
    && (k.on ==> forall j: nat :: Open(ss, j, n) ==> k.indent <= ss[j].indent)
  }

  function NextSkip(line: Shape, k: Skip): Skip {
    if k.on && Deeper(line, k.indent) then k
    else if line.opens then Skip(true, line.indent)
    else Skip(false, k.indent)
  }

  /** Tracking the outermost block loses nothing: it decides for every line
      whether some open block, nested ones included, contains it. */
  lemma NextLine(ss: seq<Shape>, n: nat, k: Skip)
    requires n < |ss| && Tracks(ss, n, k) && (ss[n].blank ==> !ss[n].opens)
    ensures Tracks(ss, n + 1, NextSkip(ss[n], k))
    ensures Dropped(ss, n) <==> NextSkip(ss[n], k).on || ss[n].noisy
  {
    forall j: nat
      ensures Open(ss, j, n + 1) <==> if j == n then ss[n].opens else Open(ss, j, n) && Deeper(ss[n], ss[j].indent)
    {
    }
    if k.on && Deeper(ss[n], k.indent) {
      var j: nat :| Open(ss, j, n) && ss[j].indent == k.indent;
      assert Open(ss, j, n + 1);
    } else if ss[n].opens {
      assert Open(ss, n, n + 1);
    }
  }

  method SanitizeDocument(rules: Rules, doc: string) returns (r: string)
    ensures r == SanitizedDocument(rules, doc)
  {
    var lines := Split(doc);
    var out := SanitizeLines(rules, lines);
    KeptAreHarmless(rules, lines, |lines|);
    TrimmedUnlines(Kept(rules, lines, |lines|));
    return Line(TrimNewlines(out));
  }

  /** The loop over lines. */
  method SanitizeLines(rules: Rules, lines: seq<string>) returns (out: string)
    ensures out == Unlines(Kept(rules, lines, |lines|))
  {
    ghost var ss := Shapes(rules, lines);
    out := "";
    var skip, skipIndent := false, 0;
    for i := 0 to |lines|
      invariant Tracks(ss, i, Skip(skip, skipIndent))
      invariant out == Unlines(Kept(rules, lines, i))
    {
      NextShape(rules, lines, i, Skip(skip, skipIndent));
      var keep;
      keep, skip, skipIndent := VisitLine(rules, lines[i], skip, skipIndent);
      if keep {
        out := Line(out + lines[i]);
      }
    }
  }

  lemma NextShape(rules: Rules, lines: seq<string>, n: nat, k: Skip)
    requires n < |lines| && Tracks(Shapes(rules, lines), n, k)
    ensures var next := NextSkip(ShapeOf(rules, lines[n]), k);
            && Tracks(Shapes(rules, lines), n + 1, next)
            && Unlines(Kept(rules, lines, n + 1)) ==
                 if next.on || ShapeOf(rules, lines[n]).noisy then Unlines(Kept(rules, lines, n))
                 else Line(Unlines(Kept(rules, lines, n)) + lines[n])
  {
    assert Shapes(rules, lines)[n] == ShapeOf(rules, lines[n]);
    NextLine(Shapes(rules, lines), n, k);
    KeptNext(rules, lines, n);
  }

  lemma KeptNext(rules: Rules, lines: seq<string>, n: nat)
    requires n < |lines|
    ensures Unlines(Kept(rules, lines, n + 1)) ==
            if Dropped(Shapes(rules, lines), n) then Unlines(Kept(rules, lines, n))
            else Line(Unlines(Kept(rules, lines, n)) + lines[n])
  {
    UnlinesSnoc(Kept(rules, lines, n), lines[n]);
    assert Kept(rules, lines, n) + [] == Kept(rules, lines, n);
  }

  /** The body of the loop over lines. */
  method VisitLine(rules: Rules, line: string, skipBefore: bool, indentBefore: nat)
    returns (keep: bool, skip: bool, skipIndent: nat)
    ensures Skip(skip, skipIndent) == NextSkip(ShapeOf(rules, line), Skip(skipBefore, indentBefore))
    ensures keep <==> !skip && !ShapeOf(rules, line).noisy
  {
    skip, skipIndent := skipBefore, indentBefore;
    var trimmed := TrimSpace(line);
    if trimmed == "" {
      return !skip, skip, skipIndent;
    }
    var indent := LeadingSpaces(line);
    if skip {
      if indent > skipIndent {
        return false, skip, skipIndent;
      }
      skip := false;
    }
    if ShouldStripBlock(rules, trimmed) {
      return false, true, indent;
    }
    if IsNoisyAnnotation(rules, trimmed) {
      if OpensScalar(trimmed) {
        return false, true, indent;
      }
      return false, skip, skipIndent;
    }
    return true, skip, skipIndent;
  }

  // ---- Laws of the line machine --------------------------------------------

  predicate Harmless(rules: Rules, line: string) {
    !ShapeOf(rules, line).noisy && !ShapeOf(rules, line).opens
  }

  lemma {:induction false} KeptAreHarmless(rules: Rules, lines: seq<string>, n: nat)
    requires n <= |lines| && Lines(lines)
    ensures Lines(Kept(rules, lines, n))
    ensures forall l :: l in Kept(rules, lines, n) ==> l in lines && Harmless(rules, l)
  {
    if n > 0 {
      KeptAreHarmless(rules, lines, n - 1);
      if ShapeOf(rules, lines[n - 1]).opens {
        assert Open(Shapes(rules, lines), n - 1, n);
      }
    }
  }

  ghost predicate AllHarmless(rules: Rules, lines: seq<string>) {
    forall i :: 0 <= i < |lines| ==> Harmless(rules, lines[i])
  }

  /** Lines that start nothing are all kept. */
  lemma {:induction false} AllKept(rules: Rules, lines: seq<string>, n: nat)
    requires n <= |lines| && AllHarmless(rules, lines)
    ensures Kept(rules, lines, n) == lines[..n]
  {
    if n > 0 {
      AllKept(rules, lines, n - 1);
      assert lines[..n] == lines[..n - 1] + [lines[n - 1]];
    }
  }

  /** No line that a rule names survives. */
  lemma SanitizedIsHarmless(rules: Rules, lines: seq<string>)
    requires Lines(lines)
    ensures AllHarmless(rules, SanitizedLines(rules, lines)) && Lines(SanitizedLines(rules, lines))
  {
    var kept := Kept(rules, lines, |lines|);
    KeptAreHarmless(rules, lines, |lines|);
    var t := Tidy(kept);
    forall i | 0 <= i < |t| ensures Harmless(rules, t[i]) && OneLine(t[i]) {
      if DropTrailingEmpty(kept) != [] {
        assert t[i] == kept[i] && kept[i] in kept;
      } else {
        EmptyIsHarmless(rules);
      }
    }
  }

  lemma EmptyIsHarmless(rules: Rules)
    ensures Harmless(rules, "") && OneLine("")
  {
    assert TrimSpace("") == "";
  }

  lemma {:induction false} SanitizedTwice(rules: Rules, lines: seq<string>)
    requires Lines(lines)
    ensures SanitizedLines(rules, SanitizedLines(rules, lines) + [""]) == SanitizedLines(rules, lines)
  {
    var t := SanitizedLines(rules, lines);
    var again := t + [""];
    SanitizedIsHarmless(rules, lines);
    EmptyIsHarmless(rules);
    assert AllHarmless(rules, again);
    AllKept(rules, again, |again|);
    assert again[..|again|] == again;
    TidyAgain(Kept(rules, lines, |lines|));
  }

  /** Sanitizing a sanitized document changes nothing. */
  lemma SanitizeDocumentIsIdempotent(rules: Rules, doc: string)
    ensures SanitizedDocument(rules, SanitizedDocument(rules, doc)) == SanitizedDocument(rules, doc)
  {
    var t := SanitizedLines(rules, Split(doc));
    SanitizedIsHarmless(rules, Split(doc));
    SplitUnlines(t, "");
    assert Unlines(t) + "" == Unlines(t);
    SanitizedTwice(rules, Split(doc));
  }
}
