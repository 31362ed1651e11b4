/** What sanitizing does to the lines of a document, line by line as they read. */
module SanitizeLaws {
  import opened Text
  import opened TrimLaws
  import opened Sanitize

  // ---- How lines read --------------------------------------------------------

  function Spaces(n: nat): (s: string)
    ensures |s| == n
  {
    seq(n, _ => ' ')
  }

  /** The line is n spaces and then `core`, with other white space around it. */
  ghost predicate Reads(line: string, n: nat, core: string) {
    Tight(core) && exists a, b :: Surrounds(line, n, a, core, b)
  }

  ghost predicate Surrounds(line: string, n: nat, a: string, core: string, b: string) {
    AllSpace(a) && (a != "" ==> a[0] != ' ') && AllSpace(b) && line == Spaces(n) + a + core + b
  }

  /** One of the annotation keys, followed by a colon, comes first. */
  ghost predicate NamesAnnotation(rules: Rules, core: string) {
    exists i :: 0 <= i < |rules.annotations| && rules.annotations[i] + ":" <= core
  }

  predicate EndsOpen(core: string) {
    core != "" && (core[|core| - 1] == '|' || core[|core| - 1] == '>')
  }

  ghost predicate OpensBlock(rules: Rules, line: string, n: nat) {
    exists core :: Reads(line, n, core) && (rules.block <= core || (NamesAnnotation(rules, core) && EndsOpen(core)))
  }

  /** A single noisy line: an annotation with its value. */
  ghost predicate OneNoisyLine(rules: Rules, line: string) {
    exists n: nat, core :: Reads(line, n, core) && NamesAnnotation(rules, core) && !(rules.block <= core) && !EndsOpen(core)
  }

  /** Blank, or deeper than n. */
  ghost predicate Inside(line: string, n: nat) {
    AllSpace(line) || exists m: nat, core :: m > n && Reads(line, m, core)
  }

  ghost predicate Outside(line: string, n: nat) {
    exists m: nat, core :: m <= n && Reads(line, m, core)
  }

  /** Blank, or a line that no rule names. */
  ghost predicate Quiet(rules: Rules, line: string) {
    AllSpace(line) || exists n: nat, core :: Reads(line, n, core) && !(rules.block <= core) && !NamesAnnotation(rules, core)
  }

  /** Leading spaces are counted, no other white space. */
  lemma {:induction false} CountsSpaces(n: nat, s: string)
    requires s != "" ==> s[0] != ' '
    ensures LeadingSpaces(Spaces(n) + s) == n
  {
    if n == 0 {
      assert Spaces(0) + s == s;
    } else {
      CountsSpaces(n - 1, s);
      assert (Spaces(n) + s)[1..] == Spaces(n - 1) + s;
    }
  }

  lemma SpacesAreSpace(n: nat, a: string)
    requires AllSpace(a)
    ensures AllSpace(Spaces(n) + a)
  {
  }

  lemma LineTrims(line: string, n: nat, core: string)
    requires Reads(line, n, core)
    ensures TrimSpace(line) == core && LeadingSpaces(line) == n
  {
    var a, b :| Surrounds(line, n, a, core, b);
    SpacesAreSpace(n, a);
    TrimAround(Spaces(n) + a, core, b);
    var rest := a + core + b;
    assert line == Spaces(n) + rest;
    assert rest[0] != ' ' by {
      assert rest[0] == if a != "" then a[0] else core[0];
    }
    CountsSpaces(n, rest);
  }

  /** How a line reads decides everything the pass looks at. */
  lemma ShapeOfLine(rules: Rules, line: string, n: nat, core: string)
    requires Reads(line, n, core)
    ensures var s := ShapeOf(rules, line);
            && !s.blank && s.indent == n
            && (s.noisy <==> NamesAnnotation(rules, core))
            && (s.opens <==> rules.block <= core || (NamesAnnotation(rules, core) && EndsOpen(core)))
  {
    LineTrims(line, n, core);
  }

  lemma ShapeOfBlank(rules: Rules, line: string)
    requires AllSpace(line)
    ensures var s := ShapeOf(rules, line); s.blank && !s.noisy && !s.opens
  {
    BlankIffAllSpace(line);
  }

  lemma OpenerShape(rules: Rules, line: string, n: nat)
    requires OpensBlock(rules, line, n)
    ensures var s := ShapeOf(rules, line); !s.blank && s.indent == n && s.opens
  {
    var core :| Reads(line, n, core) && (rules.block <= core || (NamesAnnotation(rules, core) && EndsOpen(core)));
    ShapeOfLine(rules, line, n, core);
  }

  lemma InsideShape(rules: Rules, line: string, n: nat)
    requires Inside(line, n)
    ensures var s := ShapeOf(rules, line); Deeper(s, n) && (s.opens ==> !s.blank && s.indent > n)
  {
    if AllSpace(line) {
      ShapeOfBlank(rules, line);
    } else {
      var m: nat, core :| m > n && Reads(line, m, core);
      ShapeOfLine(rules, line, m, core);
    }
  }

  lemma OutsideShape(rules: Rules, line: string, n: nat)
    requires Outside(line, n)
    ensures var s := ShapeOf(rules, line); !s.blank && s.indent <= n
  {
    var m: nat, core :| m <= n && Reads(line, m, core);
    ShapeOfLine(rules, line, m, core);
  }

  lemma QuietShape(rules: Rules, line: string)
    requires Quiet(rules, line)
    ensures Harmless(rules, line)
  {
    if AllSpace(line) {
      ShapeOfBlank(rules, line);
    } else {
      var n: nat, core :| Reads(line, n, core) && !(rules.block <= core) && !NamesAnnotation(rules, core);
      ShapeOfLine(rules, line, n, core);
    }
  }

  // ---- Taking a document apart ----------------------------------------------

  ghost predicate AllQuiet(rules: Rules, lines: seq<string>) {
    forall i :: 0 <= i < |lines| ==> Quiet(rules, lines[i])
  }

  ghost function KeptLines(rules: Rules, lines: seq<string>): seq<string> {
    Kept(rules, lines, |lines|)
  }

  /** The block opened at line j contains line x. */
  ghost predicate Spans(ss: seq<Shape>, j: nat, x: nat)
    requires x < |ss|
  {
    Open(ss, j, x + 1)
  }

  /** Which lines are dropped is decided by the lines up to there. */
  lemma DroppedByPrefix(ss: seq<Shape>, tt: seq<Shape>, i: nat)
    requires i < |ss| && i < |tt| && ss[..i + 1] == tt[..i + 1]
    ensures Dropped(ss, i) <==> Dropped(tt, i)
  {
    assert forall m :: 0 <= m <= i ==> ss[m] == ss[..i + 1][m] && tt[m] == tt[..i + 1][m];
    var n := i + 1;
    if j: nat :| Open(ss, j, n) { assert Open(tt, j, n); }
    if j: nat :| Open(tt, j, n) { assert Open(ss, j, n); }
  }

  lemma {:induction false} KeptByPrefix(rules: Rules, a: seq<string>, b: seq<string>, n: nat)
    requires n <= |a|
    ensures Kept(rules, a + b, n) == Kept(rules, a, n)
  {
    if n > 0 {
      KeptByPrefix(rules, a, b, n - 1);
      var ss, tt := Shapes(rules, a + b), Shapes(rules, a);
      assert ss[..n] == tt[..n];
      DroppedByPrefix(ss, tt, n - 1);
      assert (a + b)[n - 1] == a[n - 1];
    }
  }

  /** No block opened in the first x lines reaches beyond them. */
  ghost predicate Sealed(ss: seq<Shape>, x: nat)
    requires x <= |ss|
  {
    x < |ss| ==> forall j: nat :: j < x ==> !Spans(ss, j, x)
  }

  lemma DroppedAfter(ss: seq<Shape>, x: nat, i: nat)
    requires x <= i < |ss| && Sealed(ss, x)
    ensures Dropped(ss, i) <==> Dropped(ss[x..], i - x)
  {
    if InsideBlock(ss, i + 1) {
      var j: nat :| Open(ss, j, i + 1);
      assert j < x ==> Spans(ss, j, x);
      OpenAfter(ss, x, j, i + 1);
    }
    if InsideBlock(ss[x..], i + 1 - x) {
      var j: nat :| Open(ss[x..], j, i + 1 - x);
      OpenAfter(ss, x, j + x, i + 1);
    }
  }

  lemma OpenAfter(ss: seq<Shape>, x: nat, j: nat, n: nat)
    requires x <= j && x <= n <= |ss|
    ensures Open(ss, j, n) <==> Open(ss[x..], j - x, n - x)
  {
    if Open(ss[x..], j - x, n - x) {
      forall m | j < m < n ensures Deeper(ss[m], ss[j].indent) { assert ss[m] == ss[x..][m - x]; }
    }
  }

  function IfKept(dropped: bool, line: string): seq<string> {
    if dropped then [] else [line]
  }

  lemma KeptStep(rules: Rules, lines: seq<string>, n: nat)
    requires n < |lines|
    ensures Kept(rules, lines, n + 1) == Kept(rules, lines, n) + IfKept(Dropped(Shapes(rules, lines), n), lines[n])
  {
  }

  lemma Glue<T>(a: seq<T>, b: seq<T>, c: seq<T>, ab: seq<T>, abc: seq<T>, bc: seq<T>)
    requires ab == a + b && abc == ab + c && bc == b + c
    ensures abc == a + bc
  {
  }

  lemma KeptAfterNext(rules: Rules, a: seq<string>, b: seq<string>, n: nat, dropped: bool)
    requires n < |b| && Kept(rules, a + b, |a| + n) == KeptLines(rules, a) + Kept(rules, b, n)
    requires dropped == Dropped(Shapes(rules, b), n) == Dropped(Shapes(rules, a + b), |a| + n)
    ensures Kept(rules, a + b, |a| + n + 1) == KeptLines(rules, a) + Kept(rules, b, n + 1)
  {
    var tail := IfKept(dropped, b[n]);
    KeptStep(rules, a + b, |a| + n);
    KeptStep(rules, b, n);
    Glue(KeptLines(rules, a), Kept(rules, b, n), tail,
         Kept(rules, a + b, |a| + n), Kept(rules, a + b, |a| + n + 1), Kept(rules, b, n + 1));
  }

  /** Line i of `b` fares after `a` as on its own. */
  ghost predicate FaresAlike(rules: Rules, a: seq<string>, b: seq<string>, i: nat)
    requires i < |b|
  {
    Dropped(Shapes(rules, a + b), |a| + i) == Dropped(Shapes(rules, b), i)
  }

  lemma {:induction false} KeptAfter(rules: Rules, a: seq<string>, b: seq<string>, n: nat)
    requires n <= |b| && forall i: nat :: i < |b| ==> FaresAlike(rules, a, b, i)
    ensures Kept(rules, a + b, |a| + n) == KeptLines(rules, a) + Kept(rules, b, n)
  {
    if n == 0 {
      KeptByPrefix(rules, a, b, |a|);
      assert Kept(rules, b, 0) == [];
    } else {
      KeptAfter(rules, a, b, n - 1);
      assert FaresAlike(rules, a, b, n - 1);
      KeptAfterNext(rules, a, b, n - 1, Dropped(Shapes(rules, b), n - 1));
    }
  }

  lemma KeptOfBoth(rules: Rules, a: seq<string>, b: seq<string>)
    requires Sealed(Shapes(rules, a + b), |a|)
    ensures KeptLines(rules, a + b) == KeptLines(rules, a) + KeptLines(rules, b)
  {
    var ss := Shapes(rules, a + b);
    assert ss[|a|..] == Shapes(rules, b);
    forall i: nat | i < |b| ensures FaresAlike(rules, a, b, i) {
      DroppedAfter(ss, |a|, |a| + i);
    }
    KeptAfter(rules, a, b, |b|);
  }

  // ---- Main results ----------------------------------------------------------

  /** A block goes, whatever comes before it: its first line and every line that
      is blank or deeper, for as long as they last. */
  lemma {:induction false} BlockIsDropped(rules: Rules, before: seq<string>, opener: string, inside: seq<string>, n: nat)
    requires OpensBlock(rules, opener, n) && forall i :: 0 <= i < |inside| ==> Inside(inside[i], n)
    ensures KeptLines(rules, before + ([opener] + inside)) == KeptLines(rules, before)
    decreases |inside|
  {
    var lines := before + ([opener] + inside);
    var last := |lines| - 1;
    var init := lines[..last];
    var ss := Shapes(rules, lines);
    BlockStaysOpen(rules, before, opener, inside, n);
    assert init + [lines[last]] == lines;
    KeptByPrefix(rules, init, [lines[last]], last);
    if inside == [] {
      assert init == before;
    } else {
      assert init == before + ([opener] + inside[..|inside| - 1]);
      BlockIsDropped(rules, before, opener, inside[..|inside| - 1], n);
    }
  }

  lemma BlockStaysOpen(rules: Rules, before: seq<string>, opener: string, inside: seq<string>, n: nat)
    requires OpensBlock(rules, opener, n) && forall i :: 0 <= i < |inside| ==> Inside(inside[i], n)
    ensures var lines := before + ([opener] + inside); Dropped(Shapes(rules, lines), |lines| - 1)
  {
    var lines := before + ([opener] + inside);
    var ss, b := Shapes(rules, lines), |before|;
    assert lines[b] == opener;
    OpenerShape(rules, opener, n);
    forall m | b < m < |lines| ensures Deeper(ss[m], n) {
      assert lines[m] == inside[m - b - 1];
      InsideShape(rules, lines[m], n);
    }
    assert Open(ss, b, |lines|);
  }

  lemma {:induction false} QuietIsKept(rules: Rules, before: seq<string>)
    requires AllQuiet(rules, before)
    ensures KeptLines(rules, before) == before && AllHarmless(rules, before)
  {
    forall i | 0 <= i < |before| ensures Harmless(rules, before[i]) { QuietShape(rules, before[i]); }
    AllKept(rules, before, |before|);
    assert before[..|before|] == before;
  }

  lemma QuietIsSealed(rules: Rules, before: seq<string>, after: seq<string>)
    requires AllHarmless(rules, before)
    ensures Sealed(Shapes(rules, before + after), |before|)
  {
    var ss := Shapes(rules, before + after);
    assert forall j :: 0 <= j < |before| ==> ss[j] == ShapeOf(rules, before[j]);
  }

  /** Lines that no rule names are kept, and what follows fares as on its own. */
  lemma QuietLinesStay(rules: Rules, before: seq<string>, after: seq<string>)
    requires AllQuiet(rules, before)
    ensures KeptLines(rules, before + after) == before + KeptLines(rules, after)
  {
    QuietIsKept(rules, before);
    QuietIsSealed(rules, before, after);
    KeptOfBoth(rules, before, after);
  }

  /** A noisy annotation in one line goes alone. */
  lemma NoisyLineGoes(rules: Rules, line: string, after: seq<string>)
    requires OneNoisyLine(rules, line)
    ensures KeptLines(rules, [line] + after) == KeptLines(rules, after)
  {
    var n: nat, core :| Reads(line, n, core) && NamesAnnotation(rules, core) && !(rules.block <= core) && !EndsOpen(core);
    ShapeOfLine(rules, line, n, core);
    var ss := Shapes(rules, [line] + after);
    assert ss[0] == ShapeOf(rules, line);
    assert Sealed(ss, 1);
    KeptOfBoth(rules, [line], after);
    assert Shapes(rules, [line])[0] == ShapeOf(rules, line);
    assert Kept(rules, [line], 0) == [] && KeptLines(rules, [line]) == [];
  }

  /** A block ends at the first line that is not blank and no deeper than its
      first: what follows fares as on its own. */
  lemma BlockEnds(rules: Rules, opener: string, inside: seq<string>, after: seq<string>, n: nat)
    requires OpensBlock(rules, opener, n) && forall i :: 0 <= i < |inside| ==> Inside(inside[i], n)
    requires after != [] ==> Outside(after[0], n)
    ensures KeptLines(rules, [opener] + inside + after) == KeptLines(rules, after)
  {
    var block := [opener] + inside;
    BlockIsSealed(rules, opener, inside, after, n);
    KeptOfBoth(rules, block, after);
    BlockIsDropped(rules, [], opener, inside, n);
    assert [] + block == block;
    assert KeptLines(rules, []) == [];
  }

  lemma BlockIsSealed(rules: Rules, opener: string, inside: seq<string>, after: seq<string>, n: nat)
    requires OpensBlock(rules, opener, n) && forall i :: 0 <= i < |inside| ==> Inside(inside[i], n)
    requires after != [] ==> Outside(after[0], n)
    ensures Sealed(Shapes(rules, [opener] + inside + after), |[opener] + inside|)
  {
    var lines, x := [opener] + inside + after, |[opener] + inside|;
    var ss := Shapes(rules, lines);
    if after != [] {
      assert lines[x] == after[0];
      OutsideShape(rules, after[0], n);
      forall j: nat | j < x ensures !Spans(ss, j, x) {
        if j == 0 {
          OpenerShape(rules, opener, n);
          assert !Deeper(ss[x], ss[0].indent);
        } else {
          assert lines[j] == inside[j - 1];
          InsideShape(rules, lines[j], n);
          assert ss[j].opens ==> !Deeper(ss[x], ss[j].indent);
        }
      }
    }
  }

  // ---- Whole documents -------------------------------------------------------

  lemma LinesOfDocument(rules: Rules, lines: seq<string>)
    requires Lines(lines)
    ensures SanitizedDocument(rules, Unlines(lines)) == Unlines(Tidy(KeptLines(rules, lines + [""])))
  {
    SplitUnlines(lines, "");
    assert Unlines(lines) + "" == Unlines(lines);
  }

  lemma TidySnoc(ls: seq<string>)
    ensures Tidy(ls + [""]) == Tidy(ls)
  {
    assert (ls + [""])[..|ls|] == ls;
  }

  /** Lines in the middle that fare as if they were not there. */
  lemma MiddleVanishes(rules: Rules, before: seq<string>, middle: seq<string>, after: seq<string>)
    requires Lines(before + (middle + after)) && Lines(before + after) && AllQuiet(rules, before)
    requires Tidy(before + KeptLines(rules, middle + (after + [""]))) == Tidy(before + KeptLines(rules, after + [""]))
    ensures SanitizedDocument(rules, Unlines(before + (middle + after))) == SanitizedDocument(rules, Unlines(before + after))
  {
    LinesOfDocument(rules, before + (middle + after));
    LinesOfDocument(rules, before + after);
    QuietLinesStay(rules, before, middle + (after + [""]));
    QuietLinesStay(rules, before, after + [""]);
    Assoc(before, after, [""]);
    Assoc(before, middle + after, [""]);
    Assoc(middle, after, [""]);
  }

  /** A document with a stripped block in it is sanitized to the same as the
      document without: a line of n spaces that names the block (or a noisy
      annotation that leaves its value to the next lines), and the blank or
      deeper lines up to the next that is neither. */
  lemma BlockVanishes(rules: Rules, before: seq<string>, opener: string, inside: seq<string>, after: seq<string>, n: nat)
    requires Lines(before + (([opener] + inside) + after)) && Lines(before + after) && AllQuiet(rules, before)
    requires OpensBlock(rules, opener, n) && forall i :: 0 <= i < |inside| ==> Inside(inside[i], n)
    requires after != [] ==> Outside(after[0], n)
    ensures SanitizedDocument(rules, Unlines(before + (([opener] + inside) + after)))
         == SanitizedDocument(rules, Unlines(before + after))
  {
    if after == [] {
      LastBlockIsTidied(rules, before, opener, inside, n);
    } else {
      BlockEnds(rules, opener, inside, after + [""], n);
    }
    MiddleVanishes(rules, before, [opener] + inside, after);
  }

  lemma LastBlockIsTidied(rules: Rules, before: seq<string>, opener: string, inside: seq<string>, n: nat)
    requires OpensBlock(rules, opener, n) && forall i :: 0 <= i < |inside| ==> Inside(inside[i], n)
    ensures Tidy(before + KeptLines(rules, ([opener] + inside) + ([] + [""]))) == Tidy(before + KeptLines(rules, [] + [""]))
  {
    LastBlockIsDropped(rules, opener, inside, n);
    assert AllSpace("");
    QuietIsKept(rules, [""]);
    assert [] + [""] == [""];
    assert before + [] == before;
    TidySnoc(before);
  }

  lemma LastBlockIsDropped(rules: Rules, opener: string, inside: seq<string>, n: nat)
    requires OpensBlock(rules, opener, n) && forall i :: 0 <= i < |inside| ==> Inside(inside[i], n)
    ensures KeptLines(rules, ([opener] + inside) + ([] + [""])) == []
  {
    var longer := inside + [""];
    BlockIsDropped(rules, [], opener, longer, n);
    assert ([opener] + inside) + ([] + [""]) == [] + ([opener] + longer);
    assert KeptLines(rules, []) == [];
  }

  /** And so is a document with a noisy annotation in one line. */
  lemma NoisyLineVanishes(rules: Rules, before: seq<string>, line: string, after: seq<string>)
    requires Lines(before + ([line] + after)) && Lines(before + after) && AllQuiet(rules, before) && OneNoisyLine(rules, line)
    ensures SanitizedDocument(rules, Unlines(before + ([line] + after))) == SanitizedDocument(rules, Unlines(before + after))
  {
    NoisyLineGoes(rules, line, after + [""]);
    MiddleVanishes(rules, before, [line], after);
  }

  /** A document that no rule names is only tidied at its end. */
  lemma QuietDocumentStays(rules: Rules, lines: seq<string>)
    requires Lines(lines) && AllQuiet(rules, lines)
    ensures SanitizedDocument(rules, Unlines(lines)) == Unlines(Tidy(lines))
  {
    LinesOfDocument(rules, lines);
    assert AllQuiet(rules, lines + [""]);
    QuietIsKept(rules, lines + [""]);
    TidySnoc(lines);
  }
}
