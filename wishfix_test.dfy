/** The golden test of marshalHunks (wishfix/wishfixFmt_test.go:10-41): a
    file with two sections -- one without a comment and a JSON body, one with
    a one-line comment and a free-text body -- is written exactly as the
    text wish.Dedent makes of the test's heredoc.  Bodies and texts are
    given line by line, as the test lays them out. */
module WishfixTest {
  import opened Lines
  import opened Wish
  import opened Wishfix

  // ------------------------------------------------------------- the input

  const FoobarBodyLines: seq<string> := [
    "{\n",
    "\t\"woo\": \"zow\",\n",
    "\t\"indentation\": \"obviously preserved\",\n",
    "\t\"json\": [\"not special\"]\n",
    "}\n"
  ]

  const BazBodyLines: seq<string> := [
    "it's all just\n",
    "like, free text\n",
    "maaaan\n"
  ]

  const FoobarSection: Section := Section("section foobar", "", Concat(FoobarBodyLines))

  const BazSection: Section :=
    Section("section baz", "this will be a comment", Concat(BazBodyLines))

  const GoldenHunks: Hunks := Hunks("file header", [FoobarSection, BazSection])

  // ------------------------------------------------------ the expected text

  /** The lines of the heredoc with its two tabs of indentation taken off.
      A body line is written as the tab Indent puts in front of the body's
      own line. */
  const ExpectedHeader: seq<string> := ["# file header\n", "\n", "---\n"]

  const ExpectedFoobarBody: seq<string> := [
    "\t" + "{\n",
    "\t" + "\t\"woo\": \"zow\",\n",
    "\t" + "\t\"indentation\": \"obviously preserved\",\n",
    "\t" + "\t\"json\": [\"not special\"]\n",
    "\t" + "}\n",
    "\n"
  ]

  const ExpectedFoobar: seq<string> :=
    ["# section foobar\n", "\n"] + ExpectedFoobarBody + ["---\n"]

  const ExpectedBazBody: seq<string> := [
    "\t" + "it's all just\n",
    "\t" + "like, free text\n",
    "\t" + "maaaan\n",
    "\n"
  ]

  const ExpectedBaz: seq<string> :=
    ["# section baz\n"] + ["## this will be a comment\n"] + ["\n"] + ExpectedBazBody + ["---\n"]

  const ExpectedLines: seq<string> := ExpectedHeader + ExpectedFoobar + ExpectedBaz

  /** A heredoc as the test writes it: a newline after the opening
      backquote, then every line two tabs deep except blank lines, which hold
      only their newline, then one tab before the closing backquote. */
  function Heredoc(lines: seq<string>): string
  {
    "\n" + Concat(DeepLines(lines)) + "\t"
  }

  function DeepLines(lines: seq<string>): (r: seq<string>)
    ensures |r| == |lines|
  {
    seq(|lines|, i requires 0 <= i < |lines| =>
      if lines[i] == "\n" then "\n" else Deep(lines[i]))
  }

  function Deep(line: string): string
  {
    "\t\t" + line
  }

  // ------------------------------------------------------ heredoc, in general

  lemma DeepLine(line: string)
    ensures LeadingTabs(Deep(line)) == 2 + LeadingTabs(line)
    ensures StripTabs(Deep(line), 2) == line
    ensures IsFullLine(line) ==> IsFullLine(Deep(line))
  {
    var d := Deep(line);
    assert d == "\t" + ("\t" + line);
    LeadingTabsTab(line);
    LeadingTabsTab("\t" + line);
    assert d[2..] == line;
    if IsFullLine(line) {
      assert d[..|d| - 1] == "\t\t" + line[..|line| - 1];
    }
  }

  /** The heredoc's lines are complete, and taking two tabs off each gives
      the lines back. */
  lemma DeepLinesShape(lines: seq<string>)
    requires AllFullLines(lines)
    ensures AllFullLines(DeepLines(lines))
    ensures StripEach(DeepLines(lines), 2) == lines
  {
    var ls := DeepLines(lines);
    forall i | 0 <= i < |ls|
      ensures IsFullLine(ls[i]) && StripEach(ls, 2)[i] == lines[i]
    {
      assert IsFullLine(lines[i]);
      DeepLine(lines[i]);
      if lines[i] == "\n" {
        assert LeadingTabs("\n") == 0;
      }
    }
  }

  /** Dedent of such a heredoc gives its lines back, when the first of them
      does not open with a tab: the depth is the two tabs of the first line,
      and every line loses them. */
  lemma DedentHeredoc(lines: seq<string>)
    requires |lines| > 0 && AllFullLines(lines)
    requires lines[0] != "\n" && LeadingTabs(lines[0]) == 0
    ensures Dedented(Heredoc(lines)) == Concat(lines)
  {
    var ls := DeepLines(lines);
    DeepLinesShape(lines);
    DeepLine(lines[0]);
    assert LeadingTabs(ls[0]) == 2;
    DedentedHeredocLines(ls, "\t");
    assert StripTabs("\t", 2) == "";
  }

  // ------------------------------------------------------ the golden case

  lemma FoobarBody()
    ensures BodyLines(FoobarSection.body) == ExpectedFoobarBody
  {
    assert IsFullLine(FoobarBodyLines[0]);
    assert IsFullLine(FoobarBodyLines[1]);
    assert IsFullLine(FoobarBodyLines[2]);
    assert IsFullLine(FoobarBodyLines[3]);
    assert IsFullLine(FoobarBodyLines[4]);
    BodyLinesOfLines(FoobarBodyLines);
  }

  lemma BazBody()
    ensures BodyLines(BazSection.body) == ExpectedBazBody
  {
    assert IsFullLine(BazBodyLines[0]);
    assert IsFullLine(BazBodyLines[1]);
    assert IsFullLine(BazBodyLines[2]);
    BodyLinesOfLines(BazBodyLines);
  }

  lemma BazComment()
    ensures CommentLinesOf(BazSection.comment) == ["## this will be a comment\n"]
  {
    var comment := BazSection.comment;
    assert '\n' !in comment;
    CommentBlockOneLine(comment);
    BazCommentLine();
  }

  lemma BazCommentLine()
    ensures WordPoundPoundSpace + BazSection.comment + WordLF == "## this will be a comment\n"
  {
  }

  /** The section without a comment: title line, gap, the JSON body one tab
      deeper, the blank line, the break. */
  lemma FoobarLines()
    ensures SectionLines(FoobarSection) == ExpectedFoobar
  {
    FoobarBody();
    FoobarTitleLine();
    BreakLine();
    var title := WordPoundSpace + FoobarSection.title + WordLF;
    assert CommentLinesOf(FoobarSection.comment) == [];
    assert [title] + [] + [WordLF] == ["# section foobar\n", "\n"];
  }

  lemma BreakLine()
    ensures SectionBreakLine == "---\n"
  {
  }

  lemma FoobarTitleLine()
    ensures WordPoundSpace + FoobarSection.title + WordLF == "# section foobar\n"
  {
  }

  /** The section with a comment: its one "## " line comes between the title
      and the gap. */
  lemma BazLines()
    ensures SectionLines(BazSection) == ExpectedBaz
  {
    BazBody();
    BazComment();
    BazTitleLine();
    BreakLine();
  }

  lemma BazTitleLine()
    ensures WordPoundSpace + BazSection.title + WordLF == "# section baz\n"
  {
  }

  lemma GoldenLines()
    ensures PlainTitles(GoldenHunks)
    ensures RenderedLines(GoldenHunks) == ExpectedLines
  {
    GoldenTitles();
    FoobarLines();
    BazLines();
    GoldenHeaderLines();
    SectionsLinesTwo(FoobarSection, BazSection);
    assert RenderedLines(GoldenHunks)
        == HeaderLines(GoldenHunks.title) + SectionsLines([FoobarSection, BazSection]);
    LinesAssoc(ExpectedHeader, ExpectedFoobar, ExpectedBaz);
  }

  lemma LinesAssoc(a: seq<string>, b: seq<string>, c: seq<string>)
    ensures a + (b + c) == a + b + c
  {
  }

  lemma GoldenTitles()
    ensures PlainTitles(GoldenHunks)
  {
    assert '\n' !in GoldenHunks.title;
    assert '\n' !in FoobarSection.title;
    assert '\n' !in BazSection.title;
  }

  lemma GoldenHeaderLines()
    ensures HeaderLines(GoldenHunks.title) == ExpectedHeader
  {
    BreakLine();
    assert WordPoundSpace + GoldenHunks.title + WordLF == "# file header\n";
  }

  /** TestMarshal: marshalHunks writes exactly wish.Dedent of the test's
      heredoc (and reports no error, by MarshalHunks' contract). */
  lemma MarshalGolden()
    ensures Rendered(GoldenHunks) == Dedented(Heredoc(ExpectedLines))
  {
    GoldenLines();
    RenderedLayout(GoldenHunks);
    assert ExpectedLines[0] == "# file header\n";
    assert LeadingTabs(ExpectedLines[0]) == 0;
    DedentHeredoc(ExpectedLines);
  }
}
