/** Splitting a manifest into YAML documents, sanitizing each, and putting the
    result together again. */
module Manifest {
  import opened Text
  import opened Sanitize

  const SEPARATOR := "---"

  predicate IsSeparator(line: string) {
    TrimSpace(line) == SEPARATOR
  }

  /** The documents of a manifest: runs of lines between separator lines. An
      empty run after the last separator is no document. */
  function Documents(lines: seq<string>, current: seq<string>): seq<seq<string>>
    decreases |lines|
  {
    if lines == [] then (if current == [] then [] else [current])
    else if IsSeparator(lines[0]) then [current] + Documents(lines[1..], [])
    else Documents(lines[1..], current + [lines[0]])
  }

  function AllUnlines(docs: seq<seq<string>>): seq<string> {
    seq(|docs|, i requires 0 <= i < |docs| => Unlines(docs[i]))
  }

  method SplitYamlDocuments(manifest: string) returns (docs: seq<string>)
    ensures docs == AllUnlines(Documents(Split(manifest), []))
  {
    var lines := Split(manifest);
    ghost var done, open: seq<string> := [], [];
    var current := "";
    docs := [];
    for i := 0 to |lines|
      invariant Documents(lines, []) == done + Documents(lines[i..], open)
      invariant docs == AllUnlines(done) && current == Unlines(open)
    {
      var line := lines[i];
      assert lines[i..][0] == line && lines[i..][1..] == lines[i + 1..];
      if TrimSpace(line) == SEPARATOR {
        docs := docs + [current];
        done := done + [open];
        assert done + Documents(lines[i + 1..], []) == done[..|done| - 1] + ([open] + Documents(lines[i + 1..], []));
        current, open := "", [];
        continue;
      }
      UnlinesSnoc(open, line);
      current, open := Line(current + line), open + [line];
    }
    if current != "" {
      docs := docs + [current];
      done := done + [open];
    }
  }

  /** What a document becomes. */
  ghost function BodyLines(rules: Rules, doc: seq<string>): seq<string> {
    var trimmed := TrimSpace(Unlines(doc));
    if trimmed == "" || trimmed == SEPARATOR then doc else SanitizedLines(rules, Split(trimmed))
  }

  ghost function Bodies(rules: Rules, docs: seq<seq<string>>): (r: seq<seq<string>>)
    ensures |r| == |docs|
  {
    seq(|docs|, i requires 0 <= i < |docs| => BodyLines(rules, docs[i]))
  }

  /** The bodies one after the other, with separators between them. */
  ghost function Joined(bodies: seq<seq<string>>): seq<string> {
    if bodies == [] then []
    else
      var n := |bodies| - 1;
      Joined(bodies[..n]) + (if n > 0 then [SEPARATOR] else []) + bodies[n]
  }

  ghost function SanitizedManifest(rules: Rules, manifest: string): string {
    if manifest == "" then ""
    else
      Unlines(Joined(Bodies(rules, Documents(Split(manifest), []))))
  }

  method SanitizeManifest(rules: Rules, manifest: string) returns (result: string)
    ensures result == SanitizedManifest(rules, manifest)
  {
    if manifest == "" {
      return manifest;
    }
    var docs := SplitYamlDocuments(manifest);
    ghost var bodies := Bodies(rules, Documents(Split(manifest), []));
    result := "";
    for i := 0 to |docs|
      invariant result == Unlines(Joined(bodies[..i]))
    {
      JoinedNext(bodies, i);
      if i > 0 {
        result := result + Line(SEPARATOR);
      }
      var doc := docs[i];
      var trimmed := TrimSpace(doc);
      if trimmed == "" || trimmed == SEPARATOR {
        result := result + doc;
        continue;
      }
      var sanitized := SanitizeDocument(rules, trimmed);
      result := result + sanitized;
      assert sanitized[|sanitized| - 1] == '\n' by { EndsWithNewline(SanitizedLines(rules, Split(trimmed))); }
      if sanitized == "" || sanitized[|sanitized| - 1] != '\n' {
        result := result + "\n";
      }
    }
    assert bodies[..|bodies|] == bodies;
  }

  lemma {:induction false} EndsWithNewline(ls: seq<string>)
    requires ls != []
    ensures Unlines(ls) != "" && Unlines(ls)[|Unlines(ls)| - 1] == '\n'
  {
    UnlinesSnoc(ls[..|ls| - 1], ls[|ls| - 1]);
    assert ls[..|ls| - 1] + [ls[|ls| - 1]] == ls;
  }

  lemma JoinedNext(bodies: seq<seq<string>>, i: nat)
    requires i < |bodies|
    ensures Unlines(Joined(bodies[..i + 1])) ==
            (Unlines(Joined(bodies[..i])) + (if i > 0 then Line(SEPARATOR) else "")) + Unlines(bodies[i])
  {
    var before, body := Joined(bodies[..i]), bodies[i];
    assert bodies[..i + 1][..i] == bodies[..i] && bodies[..i + 1][i] == body;
    if i > 0 {
      UnlinesConcat(before + [SEPARATOR], body);
      UnlinesConcat(before, [SEPARATOR]);
      assert Unlines([SEPARATOR]) == Line(SEPARATOR) by { assert [SEPARATOR][1..] == []; }
    } else {
      assert before + [] == before;
      UnlinesConcat(before, body);
      assert Unlines(before) + "" == Unlines(before);
    }
  }
}
