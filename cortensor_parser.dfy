/** The client library's variant of the research parser, which also collects
    source lines and wants a long summary line, and the dashboard link builder
    (`getVerificationUrl`). */
module CortensorLib {
  import opened Wrappers
  import opened Text
  import opened ResearchParser

  /** What this parser returns. */
  datatype ParsedResearch = ParsedResearch(summary: string, bulletPoints: seq<string>, sources: seq<string>)

  /** Bullet test on a trimmed line: a dash or `•` followed by a space, or digits and a full stop. */
  predicate IsAltBullet(t: string) {
    StartsWith(t, "- ") || StartsWith(t, "\U{2022} ") || StartsWithNumberDot(t)
  }

  /** The first replacement of the bullet text: a leading `-` or `•`, with the
      run of `\s` that follows it (`\s` followed by a star), is replaced by "". */
  function DropDash(t: string): (r: string)
    ensures t != [] && (t[0] == '-' || t[0] == '\U{2022}') ==>
      && |r| < |t| && r == t[|t| - |r|..]
      && AllSpace(t[1..|t| - |r|])
      && (r == [] || !IsSpace(r[0]))
    ensures !(t != [] && (t[0] == '-' || t[0] == '\U{2022}')) ==> r == t
  {
    if t != [] && (t[0] == '-' || t[0] == '\U{2022}') then
      var r := TrimStart(t[1..]);
      TrimStartSuffix(t[1..]);
      assert t[1..][|t[1..]| - |r|..] == t[|t| - |r|..];
      assert t[1..][..|t[1..]| - |r|] == t[1..|t| - |r|];
      r
    else t
  }

  /** The second replacement of the bullet text: a leading run of digits
      (`\d` followed by a plus), its full stop, and the run of `\s` after it
      are replaced by "". */
  function DropNumber(t: string): (r: string)
    ensures StartsWithNumberDot(t) ==>
      var k := LeadingDigits(t) + 1;
      && |r| <= |t| - k && r == t[|t| - |r|..]
      && AllSpace(t[k..|t| - |r|])
      && (r == [] || !IsSpace(r[0]))
    ensures !StartsWithNumberDot(t) ==> r == t
  {
    if StartsWithNumberDot(t) then
      var k := LeadingDigits(t) + 1;
      var r := TrimStart(t[k..]);
      TrimStartSuffix(t[k..]);
      assert t[k..][|t[k..]| - |r|..] == t[|t| - |r|..];
      assert t[k..][..|t[k..]| - |r|] == t[k..|t| - |r|];
      r
    else t
  }

  /** The bullet text: both replacements, in order. */
  function AltStrip(t: string): string {
    DropNumber(DropDash(t))
  }

  /** Stripping only removes a prefix: the bullet text is a suffix of the line. */
  lemma AltStripSuffix(t: string)
    ensures |AltStrip(t)| <= |t| && AltStrip(t) == t[|t| - |AltStrip(t)|..]
  {
    var d := DropDash(t);
    assert |d| <= |t| && d == t[|t| - |d|..] by {
      if !(t != [] && (t[0] == '-' || t[0] == '\U{2022}')) { assert t[|t| - |d|..] == t; }
    }
    var r := DropNumber(d);
    assert |r| <= |d| && r == d[|d| - |r|..] by {
      if !StartsWithNumberDot(d) { assert d[|d| - |r|..] == d; }
    }
    SuffixOfSuffix(t, d, r);
  }

  /** A suffix of a suffix is a suffix. */
  lemma SuffixOfSuffix(t: string, d: string, r: string)
    requires |d| <= |t| && d == t[|t| - |d|..]
    requires |r| <= |d| && r == d[|d| - |r|..]
    ensures r == t[|t| - |r|..]
  {
    assert forall k :: 0 <= k < |r| ==> r[k] == d[|d| - |r| + k] == t[|t| - |r| + k];
  }

  /** A dash marker goes with the whitespace after it. */
  lemma DropDashOfDash(y: string)
    ensures DropDash(['-'] + y) == TrimStart(y)
  {
    assert (['-'] + y)[1..] == y;
  }

  /** A one-digit number marker goes with its full stop and the whitespace after it. */
  lemma DropNumberOfDigit(d: char, y: string)
    requires IsDigit(d)
    ensures DropNumber([d] + "." + y) == TrimStart(y)
  {
    var t := [d] + "." + y;
    assert t[1] == '.' && t[1..] == "." + y;
    assert LeadingDigits(t[1..]) == 0;
    assert t[2..] == y;
  }

  /** A line that starts with neither marker is left alone by both replacements. */
  lemma NoMarkerKept(t: string)
    requires t != [] && !IsDigit(t[0]) && t[0] != '-' && t[0] != '\U{2022}'
    ensures AltStrip(t) == t
  {
    assert LeadingDigits(t) == 0;
  }

  /** `"- " + x`: the dash and its space go, then the number replacement
      applies to what is left. */
  lemma AltStripDashed(x: string)
    requires x != [] && !IsSpace(x[0])
    ensures AltStrip("- " + x) == DropNumber(x)
  {
    assert "- " + x == ['-'] + ([' '] + x);
    DropDashOfDash([' '] + x);
    assert ([' '] + x)[1..] == x;
  }

  /** `d + ". " + x` for a digit `d`: the number, its full stop and the space go. */
  lemma AltStripNumbered(d: char, x: string)
    requires IsDigit(d)
    requires x != [] && !IsSpace(x[0])
    ensures AltStrip([d] + ". " + x) == x
  {
    var t := [d] + "." + ([' '] + x);
    assert [d] + ". " + x == t;
    assert DropDash(t) == t by {
      assert t[0] == d;
    }
    DropNumberOfDigit(d, [' '] + x);
    assert TrimStart([' '] + x) == x by {
      assert ([' '] + x)[1..] == x;
    }
  }

  /** A number marker goes with its full stop and spacing, and so does a dash marker. */
  lemma AltStripExamples(point: string)
    requires point == "Point"
    ensures AltStrip("1. " + point) == point
    ensures AltStrip("- " + point) == point
  {
    assert point[0] == 'P';
    AltStripNumbered('1', point);
    assert ['1'] + ". " + point == "1. " + point;
    AltStripDashed(point);
    NoMarkerKept(point);
  }

  /** Both replacements apply to one line: a dash bullet whose text begins
      with a digit and a full stop loses those too. */
  lemma DashThenNumber(d: char, rest: string)
    requires IsDigit(d)
    requires rest != [] && !IsSpace(rest[0])
    ensures AltStrip("- " + ([d] + "." + rest)) == rest
  {
    var num := [d] + "." + rest;
    assert num[0] == d;
    AltStripDashed(num);
    DropNumberOfDigit(d, rest);
  }

  /** So a dash bullet that begins with a decimal number loses the number's integer part. */
  lemma DashThenNumberExample(rest: string)
    requires rest == "5 GB"
    ensures AltStrip("- 3." + rest) == rest
  {
    assert rest[0] == '5';
    DashThenNumber('3', rest);
    assert "- 3." + rest == "- " + (['3'] + "." + rest);
  }

  /** A source line: it starts with "http" or mentions "Source:". */
  predicate IsSourceLine(t: string) {
    StartsWith(t, "http") || Contains(t, "Source:")
  }

  /** `t.replace('Source:', '').trim()`: the first "Source:" removed, then trimmed. */
  function SourceText(t: string): string {
    Trim(RemoveFirst(t, "Source:"))
  }

  /** A summary line must be longer than this many characters. */
  const MinSummaryLength := 50

  /** The bullets the loop collects from `lines`, in order. */
  function AltBullets(lines: seq<string>): seq<string> {
    if lines == [] then []
    else
      var t := Trim(lines[|lines| - 1]);
      AltBullets(lines[..|lines| - 1]) + (if IsAltBullet(t) then [AltStrip(t)] else [])
  }

  /** The sources the loop collects from `lines`, in order: source lines that are not bullets. */
  function AltSources(lines: seq<string>): seq<string> {
    if lines == [] then []
    else
      var t := Trim(lines[|lines| - 1]);
      AltSources(lines[..|lines| - 1]) + (if !IsAltBullet(t) && IsSourceLine(t) then [SourceText(t)] else [])
  }

  /** A line that may become the summary: neither bullet nor source, and long enough. */
  predicate IsSummaryCandidate(t: string) {
    !IsAltBullet(t) && !IsSourceLine(t) && |t| > MinSummaryLength
  }

  /** The summary the loop settles on: the first candidate line, or "". */
  function LongProse(lines: seq<string>): string {
    if lines == [] then ""
    else
      var s := LongProse(lines[..|lines| - 1]);
      var t := Trim(lines[|lines| - 1]);
      if s == "" && IsSummaryCandidate(t) then t else s
  }

  /** The summary used when no line qualifies but bullets were found. */
  function InsightCount(n: nat): string {
    "Found " + NatToString(n) + " key insights from the research."
  }

  /** `parseResearchOutput` of the client library. */
  function ParsedOutput(raw: string): ParsedResearch {
    var lines := NonBlankLines(raw);
    var bullets := AltBullets(lines);
    var summary := LongProse(lines);
    ParsedResearch(if summary == "" && |bullets| > 0 then InsightCount(|bullets|) else summary, bullets, AltSources(lines))
  }

  /** One more line, as the loop sees it. */
  lemma Step(p: seq<string>, l: string)
    ensures var t := Trim(l);
      && AltBullets(p + [l]) == AltBullets(p) + (if IsAltBullet(t) then [AltStrip(t)] else [])
      && AltSources(p + [l]) == AltSources(p) + (if !IsAltBullet(t) && IsSourceLine(t) then [SourceText(t)] else [])
      && LongProse(p + [l]) == (if LongProse(p) == "" && IsSummaryCandidate(t) then t else LongProse(p))
  {
    assert (p + [l])[..|p|] == p;
  }

  /** The loop of `parseResearchOutput`: each line goes to the bullets, to
      the sources or, if it is the first long prose line, to the summary. */
  method CollectLines(lines: seq<string>) returns (bulletPoints: seq<string>, sources: seq<string>, summary: string)
    ensures bulletPoints == AltBullets(lines) && sources == AltSources(lines) && summary == LongProse(lines)
  {
    bulletPoints, sources, summary := [], [], "";
    var i := 0;
    while i < |lines|
      invariant 0 <= i <= |lines|
      invariant bulletPoints == AltBullets(lines[..i])
      invariant sources == AltSources(lines[..i])
      invariant summary == LongProse(lines[..i])
    {
      assert lines[..i + 1] == lines[..i] + [lines[i]];
      Step(lines[..i], lines[i]);
      var trimmed := Trim(lines[i]);
      if IsAltBullet(trimmed) {
        bulletPoints := bulletPoints + [AltStrip(trimmed)];
      } else if IsSourceLine(trimmed) {
        sources := sources + [SourceText(trimmed)];
      } else if summary == "" && |trimmed| > MinSummaryLength {
        summary := trimmed;
      }
      i := i + 1;
    }
    assert lines[..i] == lines;
  }

  /** `parseResearchOutput` of the client library: the line loop, then the
      bullet-count summary when no line qualified. */
  method ParseResearchOutput(raw: string) returns (r: ParsedResearch)
    ensures r == ParsedOutput(raw)
  {
    var bulletPoints, sources, summary := CollectLines(NonBlankLines(raw));
    if summary == "" && |bulletPoints| > 0 {
      summary := InsightCount(|bulletPoints|);
    }
    r := ParsedResearch(summary, bulletPoints, sources);
  }

  /** Blank lines land in no bucket: the loop collects the same bullets,
      sources and summary from the filtered lines as from all of them. */
  lemma {:induction false} BlankLinesIgnored(lines: seq<string>)
    ensures AltBullets(KeepNonBlank(lines)) == AltBullets(lines)
    ensures AltSources(KeepNonBlank(lines)) == AltSources(lines)
    ensures LongProse(KeepNonBlank(lines)) == LongProse(lines)
    decreases |lines|
  {
    if lines != [] {
      var p, l := lines[..|lines| - 1], lines[|lines| - 1];
      assert lines == p + [l];
      BlankLinesIgnored(p);
      KeepNonBlankAppend(p, [l]);
      assert KeepNonBlank([l]) == (if Trim(l) != "" then [l] else []) by {
        assert [l][1..] == [];
      }
      Step(p, l);
      if Trim(l) != "" {
        Step(KeepNonBlank(p), l);
      } else {
        assert !IsSourceLine("") by {
          assert IndexOf("", "Source:") == None;
        }
        assert KeepNonBlank(p) + [] == KeepNonBlank(p);
      }
    }
  }

  /** The parse read off the raw lines of `rawOutput.split('\n')`: the
      blank-line filter changes nothing. */
  lemma ParsedOutputOfLines(raw: string)
    ensures var lines := Split(raw, '\n');
      var bullets, summary := AltBullets(lines), LongProse(lines);
      ParsedOutput(raw) ==
        ParsedResearch(if summary == "" && |bullets| > 0 then InsightCount(|bullets|) else summary, bullets, AltSources(lines))
  {
    BlankLinesIgnored(Split(raw, '\n'));
  }

  /** Each line lands in at most one bucket: bullets, sources and the summary
      together never outnumber the lines. */
  lemma {:induction false} BucketsBounded(lines: seq<string>)
    ensures |AltBullets(lines)| + |AltSources(lines)| + (if LongProse(lines) == "" then 0 else 1) <= |lines|
  {
    if lines != [] {
      BucketsBounded(lines[..|lines| - 1]);
    }
  }

  /** Bullets and sources keep input order: the buckets of a concatenation are
      those of the first part followed by those of the second. */
  lemma {:induction false} BucketsAppend(a: seq<string>, b: seq<string>)
    ensures AltBullets(a + b) == AltBullets(a) + AltBullets(b)
    ensures AltSources(a + b) == AltSources(a) + AltSources(b)
    decreases |b|
  {
    if b != [] {
      var b' := b[..|b| - 1];
      assert (a + b)[..|a + b| - 1] == a + b';
      assert (a + b)[|a + b| - 1] == b[|b| - 1];
      BucketsAppend(a, b');
    } else {
      assert a + b == a;
    }
  }

  /** What a single line contributes: bullet first, then source, then summary candidate. */
  lemma OneLine(l: string)
    ensures var t := Trim(l);
      && AltBullets([l]) == (if IsAltBullet(t) then [AltStrip(t)] else [])
      && AltSources([l]) == (if !IsAltBullet(t) && IsSourceLine(t) then [SourceText(t)] else [])
      && LongProse([l]) == (if IsSummaryCandidate(t) then t else "")
  {
    assert [l][..0] == [];
  }

  /** The summary line is the first candidate line; it is "" only when no line is a candidate. */
  lemma {:induction false} LongProseIsFirst(lines: seq<string>)
    ensures LongProse(lines) == "" <==> forall j :: 0 <= j < |lines| ==> !IsSummaryCandidate(Trim(lines[j]))
    ensures forall i ::
      (&& 0 <= i < |lines| && IsSummaryCandidate(Trim(lines[i]))
       && forall j :: 0 <= j < i ==> !IsSummaryCandidate(Trim(lines[j])))
      ==> LongProse(lines) == Trim(lines[i])
  {
    if lines != [] {
      var p := lines[..|lines| - 1];
      LongProseIsFirst(p);
      assert forall j :: 0 <= j < |p| ==> p[j] == lines[j];
    }
  }

  /** The summary is empty only when there is neither a long prose line nor
      any bullet; with bullets but no long line it counts the bullets. */
  lemma SummaryRule(raw: string)
    ensures var r := ParsedOutput(raw);
      var lines := NonBlankLines(raw);
      && (r.summary == "" <==> |r.bulletPoints| == 0 && forall j :: 0 <= j < |lines| ==> !IsSummaryCandidate(Trim(lines[j])))
      && (LongProse(lines) == "" && |r.bulletPoints| > 0 ==> r.summary == InsightCount(|r.bulletPoints|))
      && (LongProse(lines) != "" ==> |r.summary| > MinSummaryLength)
  {
    var lines := NonBlankLines(raw);
    LongProseIsFirst(lines);
    LongProseLong(lines);
  }

  /** A summary line taken from the input is longer than the minimum. */
  lemma {:induction false} LongProseLong(lines: seq<string>)
    ensures LongProse(lines) == "" || |LongProse(lines)| > MinSummaryLength
  {
    if lines != [] {
      LongProseLong(lines[..|lines| - 1]);
    }
  }

  /** `"-x"` needs a space after the dash to be a bullet, and as a short line it is dropped. */
  lemma DashWithoutSpaceExample(l: string)
    requires l == "-x"
    ensures !IsAltBullet(l)
    ensures ParsedOutput(l) == ParsedResearch("", [], [])
  {
    assert l[0] == '-' && l[1] == 'x' && |l| == 2;
    assert !StartsWith(l, "- ") && !StartsWith(l, "\U{2022} ");
    assert LeadingDigits(l) == 0;
    assert !IsSourceLine(l) by {
      assert IndexOf(l, "Source:") == None;
    }
    SplitNoSep(l, '\n');
    TrimUnpadded(l);
    assert NonBlankLines(l) == [l] by {
      assert KeepNonBlank([l]) == [l] + KeepNonBlank([]) by { assert [l][1..] == []; }
    }
    OneLine(l);
  }

  /** The dashboard page of sessions. */
  const DashboardBase := "https://dashboard-testnet0.cortensor.network/session"

  /** `getVerificationUrl(sessionId, taskId)`: the session page, or the task
      page when a non-empty task id is given. */
  function VerificationUrl(sessionId: string, taskId: Option<string>): (r: string)
    ensures StartsWith(r, DashboardBase + "/")
    ensures r[|DashboardBase| + 1..] == sessionId + (if taskId.Some? && taskId.value != "" then "/" + taskId.value else "")
  {
    var tail := sessionId + (if taskId.Some? && taskId.value != "" then "/" + taskId.value else "");
    assert (DashboardBase + "/" + tail)[|DashboardBase| + 1..] == tail;
    DashboardBase + "/" + tail
  }

  /** The link can be read back: for ids without slashes, the path after the
      base splits into the session id and, if one was given, the task id. */
  lemma VerificationUrlRoundTrip(sessionId: string, taskId: Option<string>)
    requires '/' !in sessionId
    requires taskId.Some? ==> '/' !in taskId.value
    ensures var r := VerificationUrl(sessionId, taskId);
      Split(r[|DashboardBase| + 1..], '/') == [sessionId] + (if taskId.Some? && taskId.value != "" then [taskId.value] else [])
  {
    if taskId.Some? && taskId.value != "" {
      SplitNoSep(taskId.value, '/');
      SplitCons(sessionId, '/', taskId.value);
      assert sessionId + ("/" + taskId.value) == sessionId + ['/'] + taskId.value;
    } else {
      SplitNoSep(sessionId, '/');
      assert sessionId + "" == sessionId;
    }
  }

  /** For ids without `/`, distinct sessions or distinct non-empty task ids
      give distinct links; an empty task id gives the same link as none. */
  lemma VerificationUrlInjective(s1: string, t1: Option<string>, s2: string, t2: Option<string>)
    requires '/' !in s1 && '/' !in s2
    requires t1.Some? ==> '/' !in t1.value
    requires t2.Some? ==> '/' !in t2.value
    requires VerificationUrl(s1, t1) == VerificationUrl(s2, t2)
    ensures s1 == s2
    ensures (t1.Some? && t1.value != "") == (t2.Some? && t2.value != "")
    ensures t1.Some? && t1.value != "" ==> t1 == t2
  {
    VerificationUrlRoundTrip(s1, t1);
    VerificationUrlRoundTrip(s2, t2);
    var pieces := Split(VerificationUrl(s1, t1)[|DashboardBase| + 1..], '/');
    assert pieces[0] == s1 && pieces[0] == s2;
    if t1.Some? && t1.value != "" {
      assert |pieces| == 2 && pieces[1] == t1.value;
      assert t2.Some? && t2.value == pieces[1];
    }
  }
}
