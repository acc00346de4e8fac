/** The research route's parser (`parseResearchOutput` in the API route):
    turns a model's free-text answer into a summary and bullet points. */
module ResearchParser {
  import opened Text

  /** A structured answer: one summary and its bullet points, in order. */
  datatype Research = Research(summary: string, bulletPoints: seq<string>)

  /** The summary used when the answer holds no prose line at all. */
  const DefaultSummary: string := "Research completed successfully."

  /** `lines.filter((line) => line.trim())`: the lines that are not all whitespace, in order. */
  function KeepNonBlank(lines: seq<string>): (r: seq<string>)
    ensures |r| <= |lines|
    ensures forall i :: 0 <= i < |r| ==> Trim(r[i]) != "" && r[i] in lines
  {
    if lines == [] then []
    else (if Trim(lines[0]) != "" then [lines[0]] else []) + KeepNonBlank(lines[1..])
  }

  /** The filter distributes over concatenation, so it keeps input order. */
  lemma {:induction false} KeepNonBlankAppend(a: seq<string>, b: seq<string>)
    ensures KeepNonBlank(a + b) == KeepNonBlank(a) + KeepNonBlank(b)
  {
    if a == [] {
      assert a + b == b;
    } else {
      assert (a + b)[1..] == a[1..] + b;
      KeepNonBlankAppend(a[1..], b);
    }
  }

  /** The filter keeps exactly the non-blank lines. */
  lemma {:induction false} KeepNonBlankMembers(lines: seq<string>)
    ensures forall x :: x in KeepNonBlank(lines) <==> x in lines && Trim(x) != ""
  {
    if lines != [] {
      KeepNonBlankMembers(lines[1..]);
      assert lines == [lines[0]] + lines[1..];
    }
  }

  /** `rawOutput.split("\n").filter((line) => line.trim())`. */
  function NonBlankLines(raw: string): seq<string> {
    KeepNonBlank(Split(raw, '\n'))
  }

  /** The length of the run of ASCII digits that `t` starts with. */
  function LeadingDigits(t: string): (n: nat)
    ensures n <= |t|
    ensures forall i :: 0 <= i < n ==> IsDigit(t[i])
    ensures n == |t| || !IsDigit(t[n])
  {
    if t != [] && IsDigit(t[0]) then 1 + LeadingDigits(t[1..]) else 0
  }

  /** `t.match(/^\d+\./)` succeeds: one or more digits, then a full stop. */
  predicate StartsWithNumberDot(t: string) {
    var n := LeadingDigits(t);
    0 < n < |t| && t[n] == '.'
  }

  /** The route's bullet test on a trimmed line: it starts with `-`, with `•`
      (no space needed after either) or with digits and a full stop. */
  predicate IsBulletLine(t: string) {
    StartsWith(t, "-") || StartsWith(t, "\U{2022}") || StartsWithNumberDot(t)
  }

  /** The character class `[-•\d+.]` of the route's marker-stripping pattern. */
  predicate IsMarkerChar(c: char) {
    c == '-' || c == '\U{2022}' || IsDigit(c) || c == '+' || c == '.'
  }

  /** The route's marker replacement: one character of the class `[-•\d+.]` at
      the start, with the run of `\s` after it (`\s` followed by a star), is
      replaced by "". It removes exactly one marker character
      and the whitespace right after it; anything else is left alone. */
  function StripMarker(t: string): (r: string)
    ensures t != [] && IsMarkerChar(t[0]) ==>
      && |r| < |t| && r == t[|t| - |r|..]
      && AllSpace(t[1..|t| - |r|])
      && (r == [] || !IsSpace(r[0]))
    ensures !(t != [] && IsMarkerChar(t[0])) ==> r == t
  {
    if t != [] && IsMarkerChar(t[0]) then
      var r := TrimStart(t[1..]);
      TrimStartSuffix(t[1..]);
      assert t[1..][|t[1..]| - |r|..] == t[|t| - |r|..];
      assert t[1..][..|t[1..]| - |r|] == t[1..|t| - |r|];
      r
    else t
  }

  /** Only one marker character goes: a dash bullet loses its dash, while a
      numbered bullet keeps the rest of its number and its full stop. */
  lemma StripMarkerExamples()
    ensures StripMarker("- Point A") == "Point A"
    ensures StripMarker("1. x") == ". x"
    ensures StripMarker("12. x") == "2. x"
  {
    assert TrimStart(" Point A") == TrimStart("Point A");
    assert TrimStart(". x") == ". x";
    assert TrimStart("2. x") == "2. x";
  }

  /** The bullet points the loop collects from `lines`: one per bullet line, in order. */
  function Bullets(lines: seq<string>): seq<string> {
    if lines == [] then []
    else
      var t := Trim(lines[|lines| - 1]);
      Bullets(lines[..|lines| - 1]) + (if IsBulletLine(t) then [StripMarker(t)] else [])
  }

  /** The summary the loop settles on: the first trimmed line that is not a bullet, or "". */
  function FirstProse(lines: seq<string>): string {
    if lines == [] then ""
    else
      var s := FirstProse(lines[..|lines| - 1]);
      var t := Trim(lines[|lines| - 1]);
      if IsBulletLine(t) || s != "" then s else t
  }

  /** Bullets keep input order: the bullets of a concatenation are the bullets
      of the first part followed by those of the second. */
  lemma {:induction false} BulletsAppend(a: seq<string>, b: seq<string>)
    ensures Bullets(a + b) == Bullets(a) + Bullets(b)
    decreases |b|
  {
    if b != [] {
      var b' := b[..|b| - 1];
      assert (a + b)[..|a + b| - 1] == a + b';
      assert (a + b)[|a + b| - 1] == b[|b| - 1];
      BulletsAppend(a, b');
    } else {
      assert a + b == a;
    }
  }

  /** A single line yields exactly one bullet when it is a bullet line and none otherwise. */
  lemma BulletsOfOneLine(l: string)
    ensures Bullets([l]) == if IsBulletLine(Trim(l)) then [StripMarker(Trim(l))] else []
  {
    assert [l][..0] == [];
  }

  /** The first non-blank line that is not a bullet is the summary, and the
      summary is empty only when every line is blank or a bullet. */
  lemma {:induction false} FirstProseIsFirst(lines: seq<string>)
    ensures FirstProse(lines) == "" <==>
      forall j :: 0 <= j < |lines| ==> Trim(lines[j]) == "" || IsBulletLine(Trim(lines[j]))
    ensures forall i ::
      (&& 0 <= i < |lines| && Trim(lines[i]) != "" && !IsBulletLine(Trim(lines[i]))
       && forall j :: 0 <= j < i ==> Trim(lines[j]) == "" || IsBulletLine(Trim(lines[j])))
      ==> FirstProse(lines) == Trim(lines[i])
  {
    if lines != [] {
      var p := lines[..|lines| - 1];
      FirstProseIsFirst(p);
      assert forall j :: 0 <= j < |p| ==> p[j] == lines[j];
    }
  }

  /** Later prose lines are discarded: once a prefix has produced a summary,
      whatever follows leaves it unchanged. */
  lemma {:induction false} FirstProseAppend(a: seq<string>, b: seq<string>)
    ensures FirstProse(a + b) == if FirstProse(a) != "" then FirstProse(a) else FirstProse(b)
    decreases |b|
  {
    if b != [] {
      var b' := b[..|b| - 1];
      assert (a + b)[..|a + b| - 1] == a + b';
      assert (a + b)[|a + b| - 1] == b[|b| - 1];
      FirstProseAppend(a, b');
    } else {
      assert a + b == a;
    }
  }

  /** The characters of the sentence-splitting class `[.!?]`. */
  predicate IsTerminator(c: char) {
    c == '.' || c == '!' || c == '?'
  }

  /** No character of `s` is a sentence terminator. */
  predicate NoTerminator(s: string) {
    forall i :: 0 <= i < |s| ==> !IsTerminator(s[i])
  }

  /** Every character of `s` is a sentence terminator. */
  predicate AllTerminators(s: string) {
    forall i :: 0 <= i < |s| ==> IsTerminator(s[i])
  }

  /** Drops the leading run of sentence terminators. */
  function DropTerminators(s: string): (r: string)
    ensures |r| <= |s|
  {
    if s != [] && IsTerminator(s[0]) then DropTerminators(s[1..]) else s
  }

  /** `DropTerminators` removes exactly the leading run of terminators: it
      keeps a suffix, what goes is all terminators, and what stays does not
      start with one. */
  lemma {:induction false} DropTerminatorsSuffix(s: string)
    ensures var r := DropTerminators(s);
      && r == s[|s| - |r|..]
      && AllTerminators(s[..|s| - |r|])
      && (r == [] || !IsTerminator(r[0]))
  {
    if s != [] && IsTerminator(s[0]) {
      DropTerminatorsSuffix(s[1..]);
      var r := DropTerminators(s[1..]);
      assert DropTerminators(s) == r;
      var n := |s| - |r|;
      assert s[1..][n - 1..] == s[n..];
      var dropped := s[..n];
      assert dropped == [s[0]] + s[1..][..n - 1];
      assert AllTerminators(dropped) by {
        forall i | 0 <= i < |dropped| ensures IsTerminator(dropped[i]) {
          if i > 0 { assert dropped[i] == s[1..][..n - 1][i - 1]; }
        }
      }
    } else {
      assert s[..0] == [];
    }
  }

  /** A run of terminators in front of text that does not start with one is dropped whole. */
  lemma {:induction false} DropTerminatorsRun(run: string, b: string)
    requires AllTerminators(run)
    requires b == [] || !IsTerminator(b[0])
    ensures DropTerminators(run + b) == b
  {
    if run == [] {
      assert run + b == b;
    } else {
      assert (run + b)[1..] == run[1..] + b;
      DropTerminatorsRun(run[1..], b);
    }
  }

  /** `s.split(/[.!?]+/)`: the pieces between maximal runs of terminators,
      including an empty first or last piece when `s` starts or ends with one. */
  function SplitSentences(s: string): (r: seq<string>)
    ensures |r| >= 1
    decreases |s|
  {
    if s == [] then [""]
    else if IsTerminator(s[0]) then [""] + SplitSentences(DropTerminators(s[1..]))
    else
      var rest := SplitSentences(s[1..]);
      [[s[0]] + rest[0]] + rest[1..]
  }

  /** A terminator-free prefix joins the first sentence of what follows it. */
  lemma {:induction false} SplitSentencesPrefix(a: string, rest: string)
    requires forall i :: 0 <= i < |a| ==> !IsTerminator(a[i])
    ensures SplitSentences(a + rest) ==
      [a + SplitSentences(rest)[0]] + SplitSentences(rest)[1..]
    decreases |a|
  {
    if a == [] {
      assert a + rest == rest;
      var r := SplitSentences(rest);
      assert a + r[0] == r[0];
      assert [r[0]] + r[1..] == r;
    } else {
      assert (a + rest)[1..] == a[1..] + rest;
      SplitSentencesPrefix(a[1..], rest);
      assert [a[0]] + (a[1..] + SplitSentences(rest)[0]) == a + SplitSentences(rest)[0];
    }
  }

  /** No sentence keeps a terminator. */
  lemma {:induction false} SentencesHaveNoTerminator(s: string)
    ensures forall k :: 0 <= k < |SplitSentences(s)| ==> NoTerminator(SplitSentences(s)[k])
    decreases |s|
  {
    if s == [] {
    } else if IsTerminator(s[0]) {
      SentencesHaveNoTerminator(DropTerminators(s[1..]));
      assert SplitSentences(s)[1..] == SplitSentences(DropTerminators(s[1..]));
    } else {
      var rest := SplitSentences(s[1..]);
      SentencesHaveNoTerminator(s[1..]);
      var first := [s[0]] + rest[0];
      assert NoTerminator(rest[0]);
      assert forall i :: 1 <= i < |first| ==> first[i] == rest[0][i - 1];
      assert SplitSentences(s)[1..] == rest[1..];
    }
  }

  /** `s` with every sentence terminator removed. */
  function WithoutTerminators(s: string): string {
    if s == [] then []
    else (if IsTerminator(s[0]) then [] else [s[0]]) + WithoutTerminators(s[1..])
  }

  /** The concatenation of a list of strings. */
  function Concat(pieces: seq<string>): string {
    if pieces == [] then [] else pieces[0] + Concat(pieces[1..])
  }

  lemma {:induction false} DropTerminatorsPreserves(s: string)
    ensures WithoutTerminators(DropTerminators(s)) == WithoutTerminators(s)
  {
    if s != [] && IsTerminator(s[0]) { DropTerminatorsPreserves(s[1..]); }
  }

  /** `Concat` of a list with a known head. */
  lemma ConcatCons(x: string, rest: seq<string>)
    ensures Concat([x] + rest) == x + Concat(rest)
  {
    assert ([x] + rest)[1..] == rest;
  }

  /** Splitting into sentences loses exactly the terminators: the pieces,
      put back together, are the input without its `.`, `!` and `?`. */
  lemma {:induction false} SplitSentencesLosesOnlyTerminators(s: string)
    ensures Concat(SplitSentences(s)) == WithoutTerminators(s)
    decreases |s|
  {
    if s == [] {
    } else if IsTerminator(s[0]) {
      var d := DropTerminators(s[1..]);
      SplitSentencesLosesOnlyTerminators(d);
      DropTerminatorsPreserves(s[1..]);
      assert SplitSentences(s) == [""] + SplitSentences(d);
      ConcatCons("", SplitSentences(d));
      assert WithoutTerminators(s) == WithoutTerminators(s[1..]);
    } else {
      var rest := SplitSentences(s[1..]);
      SplitSentencesLosesOnlyTerminators(s[1..]);
      assert SplitSentences(s) == [[s[0]] + rest[0]] + rest[1..];
      ConcatCons([s[0]] + rest[0], rest[1..]);
      assert rest == [rest[0]] + rest[1..];
      ConcatCons(rest[0], rest[1..]);
      assert WithoutTerminators(s) == [s[0]] + WithoutTerminators(s[1..]);
    }
  }

  /** `pieces.map((s) => s.trim())`. */
  function TrimAll(pieces: seq<string>): (r: seq<string>)
    ensures |r| == |pieces|
    ensures forall i :: 0 <= i < |r| ==> r[i] == Trim(pieces[i])
  {
    if pieces == [] then [] else [Trim(pieces[0])] + TrimAll(pieces[1..])
  }

  /** `pieces.filter(Boolean)`: the non-empty strings, in order. */
  function KeepNonEmpty(pieces: seq<string>): (r: seq<string>)
    ensures |r| <= |pieces|
    ensures forall i :: 0 <= i < |r| ==> r[i] != "" && r[i] in pieces
  {
    if pieces == [] then []
    else (if pieces[0] != "" then [pieces[0]] else []) + KeepNonEmpty(pieces[1..])
  }

  /** `filter(Boolean)` distributes over concatenation, so it keeps order. */
  lemma {:induction false} KeepNonEmptyAppend(a: seq<string>, b: seq<string>)
    ensures KeepNonEmpty(a + b) == KeepNonEmpty(a) + KeepNonEmpty(b)
  {
    if a == [] {
      assert a + b == b;
    } else {
      assert (a + b)[1..] == a[1..] + b;
      KeepNonEmptyAppend(a[1..], b);
    }
  }

  /** `filter(Boolean)` keeps exactly the non-empty pieces. */
  lemma {:induction false} KeepNonEmptyMembers(pieces: seq<string>)
    ensures forall x :: x in KeepNonEmpty(pieces) <==> x in pieces && x != ""
  {
    if pieces != [] {
      KeepNonEmptyMembers(pieces[1..]);
      assert pieces == [pieces[0]] + pieces[1..];
    }
  }

  /** The route's fallback when no bullet line was found: the summary line is
      cut into sentences; the first becomes the summary with a full stop
      appended (JavaScript's `undefined` when there is none), the others,
      trimmed, become the bullet points. */
  function SentenceFallback(summary: string): Research {
    var sentences := KeepNonBlank(SplitSentences(summary));
    Research(
      (if sentences != [] then sentences[0] else "undefined") + ".",
      KeepNonEmpty(TrimAll(if sentences != [] then sentences[1..] else [])))
  }

  /** The whole of `parseResearchOutput`, as a value. */
  function ResearchOutput(raw: string): Research {
    var lines := NonBlankLines(raw);
    var bullets := Bullets(lines);
    var summary := FirstProse(lines);
    if |bullets| == 0 && summary != "" then SentenceFallback(summary)
    else Research(if summary != "" then summary else DefaultSummary, bullets)
  }

  /** One more line, as the loop sees it. */
  lemma Step(p: seq<string>, l: string)
    ensures var t := Trim(l);
      && Bullets(p + [l]) == Bullets(p) + (if IsBulletLine(t) then [StripMarker(t)] else [])
      && FirstProse(p + [l]) == (if IsBulletLine(t) || FirstProse(p) != "" then FirstProse(p) else t)
  {
    assert (p + [l])[..|p|] == p;
  }

  /** The `for` loop of `parseResearchOutput`: bullet lines are stripped and
      collected, and the first other line becomes the summary. */
  method ScanLines(lines: seq<string>) returns (bulletPoints: seq<string>, summary: string)
    ensures bulletPoints == Bullets(lines) && summary == FirstProse(lines)
  {
    bulletPoints, summary := [], "";
    var i := 0;
    while i < |lines|
      invariant 0 <= i <= |lines|
      invariant bulletPoints == Bullets(lines[..i])
      invariant summary == FirstProse(lines[..i])
    {
      assert lines[..i + 1] == lines[..i] + [lines[i]];
      Step(lines[..i], lines[i]);
      var trimmed := Trim(lines[i]);
      if IsBulletLine(trimmed) {
        bulletPoints := bulletPoints + [StripMarker(trimmed)];
      } else if summary == "" {
        summary := trimmed;
      }
      i := i + 1;
    }
    assert lines[..i] == lines;
  }

  /** `parseResearchOutput`: one pass over the non-blank lines collects the
      bullets and the first prose line, then the fallbacks apply. */
  method ParseResearchOutput(raw: string) returns (r: Research)
    ensures r == ResearchOutput(raw)
  {
    var bulletPoints, summary := ScanLines(NonBlankLines(raw));
    if |bulletPoints| == 0 && summary != "" {
      return SentenceFallback(summary);
    }
    r := Research(if summary != "" then summary else DefaultSummary, bulletPoints);
  }

  /** Blank lines contribute nothing to the loop: it collects the same bullets
      and summary from the filtered lines as it would from all of them. */
  lemma {:induction false} BlankLinesIgnored(lines: seq<string>)
    ensures Bullets(KeepNonBlank(lines)) == Bullets(lines)
    ensures FirstProse(KeepNonBlank(lines)) == FirstProse(lines)
    decreases |lines|
  {
    if lines != [] {
      var p, l := lines[..|lines| - 1], lines[|lines| - 1];
      assert lines == p + [l];
      BlankLinesIgnored(p);
      KeepNonBlankAppend(p, [l]);
      assert KeepNonBlank([l]) == (if Trim(l) != "" then [l] else []) by {
        assert [l][1..] == [];
      }
      Step(p, l);
      if Trim(l) != "" {
        Step(KeepNonBlank(p), l);
      } else {
        assert KeepNonBlank(p) + [] == KeepNonBlank(p);
      }
    }
  }

  /** The parse read off the raw lines: the blank-line filter changes nothing,
      so the bullets and summary are those of `rawOutput.split("\n")` itself. */
  lemma ResearchOutputOfLines(raw: string)
    ensures var lines := Split(raw, '\n');
      var bullets, summary := Bullets(lines), FirstProse(lines);
      ResearchOutput(raw) ==
        if |bullets| == 0 && summary != "" then SentenceFallback(summary)
        else Research(if summary != "" then summary else DefaultSummary, bullets)
  {
    BlankLinesIgnored(Split(raw, '\n'));
  }

  /** Every piece of `s.split("\n")` of an all-whitespace `s` is all whitespace. */
  lemma {:induction false} SplitOfBlank(s: string)
    requires AllSpace(s)
    ensures forall k :: 0 <= k < |Split(s, '\n')| ==> AllSpace(Split(s, '\n')[k])
  {
    if s != [] {
      SplitOfBlank(s[1..]);
      var rest := Split(s[1..], '\n');
      if s[0] != '\n' {
        var first := [s[0]] + rest[0];
        assert AllSpace(rest[0]);
        assert forall i :: 0 < i < |first| ==> first[i] == rest[0][i - 1];
      }
    }
  }

  /** No line of an all-blank answer survives the blank-line filter. */
  lemma {:induction false} KeepNonBlankOfBlank(lines: seq<string>)
    requires forall k :: 0 <= k < |lines| ==> AllSpace(lines[k])
    ensures KeepNonBlank(lines) == []
  {
    if lines != [] {
      TrimBlank(lines[0]);
      KeepNonBlankOfBlank(lines[1..]);
    }
  }

  /** Empty or whitespace-only output parses to the placeholder summary and no bullets. */
  lemma BlankOutput(raw: string)
    requires AllSpace(raw)
    ensures ResearchOutput(raw) == Research(DefaultSummary, [])
  {
    SplitOfBlank(raw);
    KeepNonBlankOfBlank(Split(raw, '\n'));
  }

  /** The parser always produces a non-empty summary. */
  lemma SummaryNeverEmpty(raw: string)
    ensures ResearchOutput(raw).summary != ""
  {
  }

  /** Trimming a terminator-free piece keeps it terminator-free. */
  lemma TrimKeepsNoTerminator(piece: string)
    requires forall i :: 0 <= i < |piece| ==> !IsTerminator(piece[i])
    ensures forall i :: 0 <= i < |Trim(piece)| ==> !IsTerminator(Trim(piece)[i])
  {
    var a := TrimStart(piece);
    TrimStartSuffix(piece);
    TrimEndPrefix(a);
    forall i | 0 <= i < |Trim(piece)| ensures !IsTerminator(Trim(piece)[i]) {
      assert Trim(piece)[i] == a[i] == piece[|piece| - |a| + i];
    }
  }

  /** In the sentence fallback every bullet point is non-empty, already
      trimmed, and holds no sentence terminator; the summary ends in a full stop. */
  lemma SentenceFallbackShape(summary: string)
    ensures var r := SentenceFallback(summary);
      && r.summary[|r.summary| - 1] == '.'
      && forall b :: b in r.bulletPoints ==>
        b != "" && Trim(b) == b && forall i :: 0 <= i < |b| ==> !IsTerminator(b[i])
  {
    var pieces := SplitSentences(summary);
    var sentences := KeepNonBlank(pieces);
    var rest := if sentences != [] then sentences[1..] else [];
    var trimmed := TrimAll(rest);
    forall b | b in KeepNonEmpty(trimmed)
      ensures b != "" && Trim(b) == b && forall i :: 0 <= i < |b| ==> !IsTerminator(b[i])
    {
      var k :| 0 <= k < |trimmed| && trimmed[k] == b;
      var piece := rest[k];
      assert piece in sentences;
      var m :| 0 <= m < |pieces| && pieces[m] == piece;
      SentencesHaveNoTerminator(summary);
      TrimIdempotent(piece);
      TrimKeepsNoTerminator(piece);
    }
  }

  /** Every maximal run of `.`, `!` and `?` is a split point: terminator-free
      text, a run, and text that does not start with a terminator split into
      that text followed by the pieces of the rest. */
  lemma SplitSentencesAtRun(a: string, run: string, b: string)
    requires NoTerminator(a)
    requires run != [] && AllTerminators(run)
    requires b == [] || !IsTerminator(b[0])
    ensures SplitSentences(a + run + b) == [a] + SplitSentences(b)
  {
    assert (run + b)[1..] == run[1..] + b;
    DropTerminatorsRun(run[1..], b);
    assert SplitSentences(run + b) == [""] + SplitSentences(b);
    SplitSentencesPrefix(a, run + b);
    assert a + "" == a;
    assert a + run + b == a + (run + b);
  }

  /** Every piece of a text made only of terminators and whitespace is whitespace. */
  lemma {:induction false} PiecesBlank(s: string)
    requires forall i :: 0 <= i < |s| ==> IsTerminator(s[i]) || IsSpace(s[i])
    ensures forall k :: 0 <= k < |SplitSentences(s)| ==> AllSpace(SplitSentences(s)[k])
    decreases |s|
  {
    if s == [] {
    } else if IsTerminator(s[0]) {
      var d := DropTerminators(s[1..]);
      DropTerminatorsSuffix(s[1..]);
      assert forall i :: 0 <= i < |d| ==> d[i] == s[|s| - |d| + i];
      PiecesBlank(d);
      assert SplitSentences(s)[1..] == SplitSentences(d);
    } else {
      var rest := SplitSentences(s[1..]);
      PiecesBlank(s[1..]);
      var first := [s[0]] + rest[0];
      assert AllSpace(rest[0]);
      assert forall i :: 1 <= i < |first| ==> first[i] == rest[0][i - 1];
      assert SplitSentences(s)[1..] == rest[1..];
    }
  }

  /** A summary line made only of terminators and whitespace has no first
      sentence: JavaScript prints `undefined`, and there are no bullets. */
  lemma TerminatorsOnlyFallback(summary: string)
    requires forall i :: 0 <= i < |summary| ==> IsTerminator(summary[i]) || IsSpace(summary[i])
    ensures SentenceFallback(summary) == Research("undefined.", [])
  {
    PiecesBlank(summary);
    KeepNonBlankOfBlank(SplitSentences(summary));
  }

  /** A one-line answer made only of terminators is no bullet, becomes the
      summary line, and parses to "undefined." and no bullets. */
  lemma TerminatorsOnlyAnswer(raw: string)
    requires raw != [] && AllTerminators(raw)
    ensures ResearchOutput(raw) == Research("undefined.", [])
  {
    assert IsTerminator(raw[0]) && IsTerminator(raw[|raw| - 1]);
    assert '\n' !in raw by {
      forall i | 0 <= i < |raw| ensures raw[i] != '\n' { assert IsTerminator(raw[i]); }
    }
    assert LeadingDigits(raw) == 0;
    TrimUnpadded(raw);
    OneProseLine(raw);
    TerminatorsOnlyFallback(raw);
  }

  /** A full stop followed by text that does not start with a terminator. */
  lemma SplitSentencesAfterStop(rest: string)
    requires rest != [] && !IsTerminator(rest[0])
    ensures SplitSentences("." + rest) == [""] + SplitSentences(rest)
  {
    assert ("." + rest)[1..] == rest;
  }

  /** A terminator-free sentence closed by a full stop and followed by more text. */
  lemma SplitStopped(x: string, rest: string)
    requires NoTerminator(x)
    requires rest == [] || !IsTerminator(rest[0])
    ensures SplitSentences(x + "." + rest) == [x] + SplitSentences(rest)
  {
    SplitSentencesAtRun(x, ".", rest);
  }

  /** Three full-stopped sentences split into the three sentences and a final empty piece. */
  lemma SplitThreeSentences(x: string, y: string, z: string)
    requires NoTerminator(x) && NoTerminator(y) && NoTerminator(z)
    requires y != [] && z != []
    ensures SplitSentences(x + "." + y + "." + z + ".") == [x, y, z, ""]
  {
    SplitStopped(z, "");
    assert z + "." + "" == z + ".";
    SplitStopped(y, z + ".");
    SplitStopped(x, y + "." + (z + "."));
    assert x + "." + (y + "." + (z + ".")) == x + "." + y + "." + z + ".";
  }

  /** The fallback on three non-blank sentences: the first keeps its place
      as the summary and the other two, trimmed, become the bullets. */
  lemma FallbackOfThree(summary: string, x: string, y: string, z: string)
    requires SplitSentences(summary) == [x, y, z, ""]
    requires Trim(x) != "" && Trim(y) != "" && Trim(z) != ""
    ensures SentenceFallback(summary) == Research(x + ".", [Trim(y), Trim(z)])
  {
    var pieces := [x, y, z, ""];
    assert Trim("") == "";
    assert pieces[1..] == [y, z, ""];
    assert [y, z, ""][1..] == [z, ""];
    assert [z, ""][1..] == [""];
    assert KeepNonBlank([""]) == [];
    assert KeepNonBlank([z, ""]) == [z];
    assert KeepNonBlank([y, z, ""]) == [y, z];
    assert KeepNonBlank(pieces) == [x, y, z];
    assert [x, y, z][1..] == [y, z];
    assert TrimAll([y, z]) == [Trim(y), Trim(z)];
    assert [z][1..] == [];
    assert KeepNonEmpty(TrimAll([y, z])) == [Trim(y), Trim(z)];
  }

  /** A single prose line without the newline is a one-line answer with no bullet. */
  lemma OneProseLine(raw: string)
    requires '\n' !in raw
    requires Trim(raw) == raw && raw != []
    requires !IsBulletLine(raw)
    ensures NonBlankLines(raw) == [raw]
    ensures Bullets(NonBlankLines(raw)) == [] && FirstProse(NonBlankLines(raw)) == raw
  {
    SplitNoSep(raw, '\n');
    assert [raw][..0] == [];
  }

  /** A one-line answer of three full-stopped sentences goes through the sentence fallback. */
  lemma ThreeSentenceAnswer(x: string, y: string, z: string)
    requires NoTerminator(x) && NoTerminator(y) && NoTerminator(z)
    requires '\n' !in x && '\n' !in y && '\n' !in z
    requires x != [] && !IsSpace(x[0]) && !IsDigit(x[0]) && x[0] != '-' && x[0] != '\U{2022}'
    requires Trim(x) != "" && Trim(y) != "" && Trim(z) != ""
    ensures ResearchOutput(x + "." + y + "." + z + ".") == Research(x + ".", [Trim(y), Trim(z)])
  {
    var raw := x + "." + y + "." + z + ".";
    assert raw[0] == x[0] && raw[|raw| - 1] == '.';
    assert LeadingDigits(raw) == 0;
    TrimUnpadded(raw);
    OneProseLine(raw);
    SplitThreeSentences(x, y, z);
    FallbackOfThree(raw, x, y, z);
  }
}
