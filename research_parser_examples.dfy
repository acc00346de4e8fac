/** Worked examples of the research route's parser, proved on concrete answers. */
module ResearchParserExamples {
  import opened Text
  import opened ResearchParser

  /** A string that neither starts nor ends with whitespace and has no line break. */
  predicate Unpadded(s: string) {
    s != [] && !IsSpace(s[0]) && !IsSpace(s[|s| - 1]) && '\n' !in s
  }

  /** A line `- a` is a bullet whose text is `a`. */
  lemma DashBullet(a: string)
    requires Unpadded(a)
    ensures Unpadded("- " + a) && Trim("- " + a) == "- " + a
    ensures IsBulletLine("- " + a) && StripMarker("- " + a) == a
  {
    var l := "- " + a;
    TrimUnpadded(l);
    assert l[1..] == [' '] + a;
    assert TrimStart([' '] + a) == TrimStart(a) == a;
    assert StartsWith(l, "-");
  }

  /** Splits three line-break-free lines apart again. */
  lemma ThreeLines(l1: string, l2: string, l3: string)
    requires '\n' !in l1 && '\n' !in l2 && '\n' !in l3
    ensures Split(l1 + ['\n'] + (l2 + ['\n'] + l3), '\n') == [l1, l2, l3]
  {
    SplitNoSep(l3, '\n');
    SplitCons(l2, '\n', l3);
    SplitCons(l1, '\n', l2 + ['\n'] + l3);
  }

  lemma DashedJoin(p: string, a: string, b: string)
    ensures p + "\n- " + a + "\n- " + b == p + ['\n'] + (("- " + a) + ['\n'] + ("- " + b))
  {
    assert "\n- " == ['\n'] + "- ";
  }

  /** A prose line followed by two dash bullets: the prose line is the
      summary and the bullets lose their dashes. */
  lemma ProseThenTwoBullets(p: string, a: string, b: string)
    requires Unpadded(p) && !IsBulletLine(p)
    requires Unpadded(a) && Unpadded(b)
    ensures ResearchOutput(p + "\n- " + a + "\n- " + b) == Research(p, [a, b])
  {
    var l2, l3 := "- " + a, "- " + b;
    DashBullet(a);
    DashBullet(b);
    TrimUnpadded(p);
    DashedJoin(p, a, b);
    ThreeLines(p, l2, l3);
    var lines := [p, l2, l3];
    assert lines[1..] == [l2, l3];
    assert [l2, l3][1..] == [l3];
    assert Trim(p) != "" && Trim(l2) != "" && Trim(l3) != "";
    assert KeepNonBlank([l3]) == [l3] by { assert [l3][1..] == []; }
    assert KeepNonBlank([l2, l3]) == [l2, l3];
    assert KeepNonBlank(lines) == lines;
    assert lines[..2] == [p, l2];
    assert [p, l2][..1] == [p];
    BulletsOfOneLine(p);
    assert Bullets([p, l2]) == [a];
    assert Bullets(lines) == [a, b];
    assert FirstProse([p]) == p by { assert [p][..0] == []; }
    assert FirstProse(lines) == p;
  }

  /** The route's own sample: one prose line and two bullets. */
  lemma MixedAnswerExample(p: string, a: string, b: string)
    requires p == "Decentralized inference is powerful."
    requires a == "Point A" && b == "Point B"
    ensures ResearchOutput(p + "\n- " + a + "\n- " + b) == Research(p, [a, b])
  {
    assert Unpadded(p) && Unpadded(a) && Unpadded(b);
    assert LeadingDigits(p) == 0;
    ProseThenTwoBullets(p, a, b);
  }

  /** What `ThreeSentenceAnswer` needs of one sentence of the example. */
  lemma PlainSentence(s: string)
    requires s == "First insight" || s == "Second insight" || s == "Third insight"
    ensures NoTerminator(s) && NoTerminator([' '] + s)
    ensures '\n' !in s && '\n' !in [' '] + s
    ensures s != [] && !IsSpace(s[0]) && !IsSpace(s[|s| - 1])
    ensures !IsDigit(s[0]) && s[0] != '-' && s[0] != '\U{2022}'
  {
  }

  lemma SpacedJoin(x: string, y: string, z: string)
    ensures x + "." + ([' '] + y) + "." + ([' '] + z) + "." == x + ". " + y + ". " + z + "."
  {
    assert "." + [' '] == ". ";
  }

  /** Three plain sentences joined by ". " as a model would write them. */
  lemma ThreeSentenceFallback(x: string, y: string, z: string)
    requires NoTerminator(x) && NoTerminator([' '] + y) && NoTerminator([' '] + z)
    requires '\n' !in x && '\n' !in [' '] + y && '\n' !in [' '] + z
    requires x != [] && !IsSpace(x[0]) && !IsSpace(x[|x| - 1])
    requires !IsDigit(x[0]) && x[0] != '-' && x[0] != '\U{2022}'
    requires y != [] && !IsSpace(y[0]) && !IsSpace(y[|y| - 1])
    requires z != [] && !IsSpace(z[0]) && !IsSpace(z[|z| - 1])
    ensures ResearchOutput(x + ". " + y + ". " + z + ".") == Research(x + ".", [y, z])
  {
    var y', z' := [' '] + y, [' '] + z;
    TrimUnpadded(x);
    TrimAfterSpace(y);
    TrimAfterSpace(z);
    ThreeSentenceAnswer(x, y', z');
    SpacedJoin(x, y, z);
  }

  /** An answer without bullet lines is cut into sentences. */
  lemma SentenceFallbackExample(x: string, y: string, z: string)
    requires x == "First insight" && y == "Second insight" && z == "Third insight"
    ensures ResearchOutput(x + ". " + y + ". " + z + ".") == Research(x + ".", [y, z])
  {
    PlainSentence(x);
    PlainSentence(y);
    PlainSentence(z);
    ThreeSentenceFallback(x, y, z);
  }

  /** A summary line made only of terminators leaves no sentence: JavaScript
      renders the missing first sentence as `undefined`. */
  lemma TerminatorsOnlyExample()
    ensures ResearchOutput("?!") == Research("undefined.", [])
  {
    SplitNoSep("?!", '\n');
    TrimUnpadded("?!");
    assert NonBlankLines("?!") == ["?!"];
    assert ["?!"][..0] == [];
    assert LeadingDigits("?!") == 0;
    assert SplitSentences("?!") == ["", ""];
    assert Trim("") == "";
  }
}
