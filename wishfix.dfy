/** The fixture serializer of package wishfix (wishfix/wishfixFmt.go):
    marshalHunks writes a titled list of sections -- each a title, an
    optional comment and a verbatim body -- in the wishfix text format:

      # <file title>
      (blank)
      ---
      # <section title>
      ## <comment line>        one per line of the comment, none if it is empty
      (blank)
      <body, one tab in front of every line>
      (newline)
      ---

    The io.Writer is a Buffer object whose contents only ever grow; marshalHunks
    is proved to append exactly Rendered(h), a pure function, about which
    the properties of the format are lemmas. */
module Wishfix {
  import opened Lines
  import opened Wish

  datatype Option<T> = None | Some(value: T)

  /** One section of a fixture file. */
  datatype Section = Section(title: string, comment: string, body: string)

  /** A whole fixture file: its title and its sections, in order. */
  datatype Hunks = Hunks(title: string, sections: seq<Section>)

  const WordLF: string := "\n"
  const WordPoundSpace: string := "# "        // section headers
  const WordPoundPoundSpace: string := "## "  // comments
  const WordSectionBreak: string := "---"

  /** An io.Writer: every Write appends to what was written before. */
  class Buffer {
    var data: string

    constructor ()
      ensures data == ""
    {
      data := "";
    }

    method Write(p: string)
      modifies this
      ensures data == old(data) + p
    {
      data := data + p;
    }
  }

  // ---------------------------------------------------------- the rendering

  function Header(title: string): string
  {
    WordPoundSpace + title + WordLF + WordLF + WordSectionBreak + WordLF
  }

  function CommentLine(line: string): string
  {
    WordPoundPoundSpace + line + WordLF
  }

  function CommentLines(lines: seq<string>): (r: seq<string>)
    ensures |r| == |lines|
  {
    seq(|lines|, i requires 0 <= i < |lines| => CommentLine(lines[i]))
  }

  /** The comment lines of a section: nothing for an empty comment, else one
      "## " line per piece of strings.Split(comment, "\n"). */
  function CommentBlock(comment: string): string
  {
    if comment == "" then "" else Concat(CommentLines(SplitLines(comment)))
  }

  function RenderSection(section: Section): string
  {
    WordPoundSpace + section.title + WordLF
    + CommentBlock(section.comment)
    + WordLF
    + Indented(section.body) + WordLF
    + WordSectionBreak + WordLF
  }

  function RenderEach(sections: seq<Section>): (r: seq<string>)
    ensures |r| == |sections|
  {
    seq(|sections|, i requires 0 <= i < |sections| => RenderSection(sections[i]))
  }

  /** Everything marshalHunks writes for h. */
  function Rendered(h: Hunks): string
  {
    Header(h.title) + Concat(RenderEach(h.sections))
  }

  /** The file header (wishfix/wishfixFmt.go:12-18). */
  method WriteHeader(w: Buffer, title: string)
    modifies w
    ensures w.data == old(w.data) + Header(title)
  {
    w.Write(WordPoundSpace);
    w.Write(title);
    w.Write(WordLF);
    w.Write(WordLF);
    w.Write(WordSectionBreak);
    w.Write(WordLF);
  }

  /** One "## " line of a comment (wishfix/wishfixFmt.go:30-32). */
  method WriteCommentLine(w: Buffer, line: string)
    modifies w
    ensures w.data == old(w.data) + CommentLine(line)
  {
    ghost var before := w.data;
    w.Write(WordPoundPoundSpace);
    w.Write(line);
    AppendAssoc(before, WordPoundPoundSpace, line);
    w.Write(WordLF);
    AppendAssoc(before, WordPoundPoundSpace + line, WordLF);
  }

  /** The comment lines of one section (wishfix/wishfixFmt.go:27-34): when
      the comment is not empty, one "## " line per piece of
      strings.Split(comment, "\n"). */
  method WriteComment(w: Buffer, comment: string)
    modifies w
    ensures w.data == old(w.data) + CommentBlock(comment)
  {
    if comment != "" {
      var lines := SplitLines(comment);
      for j := 0 to |lines|
        invariant w.data == old(w.data) + Concat(CommentLines(lines)[..j])
      {
        WriteCommentLine(w, lines[j]);
        ConcatPrefixAppend(old(w.data), CommentLines(lines), j);
      }
      assert CommentLines(lines)[..|lines|] == CommentLines(lines);
    }
  }

  /** One iteration of marshalHunks' section loop
      (wishfix/wishfixFmt.go:22-45): title, comments, gap, indented body,
      section break. */
  method WriteSection(w: Buffer, section: Section)
    modifies w
    ensures w.data == old(w.data) + RenderSection(section)
  {
    ghost var start := w.data;
    w.Write(WordPoundSpace);
    w.Write(section.title);
    AppendAssoc(start, WordPoundSpace, section.title);
    w.Write(WordLF);
    ghost var title := WordPoundSpace + section.title + WordLF;
    AppendAssoc(start, WordPoundSpace + section.title, WordLF);
    WriteComment(w, section.comment);
    AppendAssoc(start, title, CommentBlock(section.comment));
    ghost var written := title + CommentBlock(section.comment);
    w.Write(WordLF);
    AppendAssoc(start, written, WordLF);
    written := written + WordLF;
    var body := Indent(section.body);  // wish.IndentBytes
    w.Write(body);
    AppendAssoc(start, written, body);
    written := written + body;
    w.Write(WordLF);
    AppendAssoc(start, written, WordLF);
    written := written + WordLF;
    w.Write(WordSectionBreak);
    AppendAssoc(start, written, WordSectionBreak);
    written := written + WordSectionBreak;
    w.Write(WordLF);
    AppendAssoc(start, written, WordLF);
  }

  /** marshalHunks (wishfix/wishfixFmt.go:11-49): appends Rendered(h) to w and
      returns a nil error.  The results of the individual writes are
      ignored, as in the source. */
  method MarshalHunks(w: Buffer, h: Hunks) returns (err: Option<string>)
    modifies w
    ensures w.data == old(w.data) + Rendered(h)
    ensures err == None
  {
    WriteHeader(w, h.title);
    ghost var afterHeader := w.data;
    for i := 0 to |h.sections|
      invariant w.data == afterHeader + Concat(RenderEach(h.sections)[..i])
    {
      WriteSection(w, h.sections[i]);
      ConcatPrefixAppend(afterHeader, RenderEach(h.sections), i);
    }
    assert RenderEach(h.sections)[..|h.sections|] == RenderEach(h.sections);
    AppendAssoc(old(w.data), Header(h.title), Concat(RenderEach(h.sections)));
    return None;
  }

  // ------------------------------------------------------ rendering facts

  /** With no sections, only the file header is written. */
  lemma RenderedNoSections(title: string)
    ensures Rendered(Hunks(title, [])) == "# " + title + "\n\n---\n"
  {
    assert RenderEach([]) == [];
  }

  /** Sections are written one after the other: one more section appends
      exactly its own rendering. */
  lemma RenderedAppend(title: string, sections: seq<Section>, section: Section)
    ensures Rendered(Hunks(title, sections + [section]))
         == Rendered(Hunks(title, sections)) + RenderSection(section)
  {
    assert RenderEach(sections + [section]) == RenderEach(sections) + [RenderSection(section)];
    ConcatAppend(RenderEach(sections), [RenderSection(section)]);
    ConcatOne(RenderSection(section));
  }

  /** A one-line comment is written as a single "## " line. */
  lemma CommentBlockOneLine(comment: string)
    requires comment != "" && '\n' !in comment
    ensures CommentLinesOf(comment) == ["## " + comment + "\n"]
    ensures CommentBlock(comment) == "## " + comment + "\n"
  {
    SplitLinesNoNewline(comment);
    assert CommentLines([comment]) == ["## " + comment + "\n"];
    ConcatOne("## " + comment + "\n");
  }

  // ------------------------------------------------------ the line layout

  const SectionBreakLine: string := WordSectionBreak + WordLF

  /** How many lines of ls are a section break "---\n". */
  function BreakCount(ls: seq<string>): nat
  {
    if ls == [] then 0
    else (if ls[0] == SectionBreakLine then 1 else 0) + BreakCount(ls[1..])
  }

  lemma {:induction false} BreakCountAppend(ls: seq<string>, ms: seq<string>)
    ensures BreakCount(ls + ms) == BreakCount(ls) + BreakCount(ms)
  {
    if ls == [] {
      assert ls + ms == ms;
    } else {
      assert (ls + ms)[1..] == ls[1..] + ms;
      BreakCountAppend(ls[1..], ms);
    }
  }

  lemma {:induction false} NoBreaks(ls: seq<string>)
    requires forall i | 0 <= i < |ls| :: ls[i] != SectionBreakLine
    ensures BreakCount(ls) == 0
  {
    if ls != [] {
      assert ls[0] != SectionBreakLine;
      NoBreaks(ls[1..]);
    }
  }

  /** The lines of the file header. */
  function HeaderLines(title: string): seq<string>
  {
    [WordPoundSpace + title + WordLF, WordLF, SectionBreakLine]
  }

  /** The "## " lines of a comment (none for the empty comment). */
  function CommentLinesOf(comment: string): seq<string>
  {
    if comment == "" then [] else CommentLines(SplitLines(comment))
  }

  /** The lines of the indented body with the newline written after it. */
  function BodyLines(body: string): seq<string>
  {
    CloseLast(if body == "" then ["\t"] else TabEach(SplitAfter(body)))
  }

  /** The lines of one section. */
  function SectionLines(section: Section): seq<string>
  {
    [WordPoundSpace + section.title + WordLF] + CommentLinesOf(section.comment)
    + [WordLF] + BodyLines(section.body) + [SectionBreakLine]
  }

  function SectionsLines(sections: seq<Section>): seq<string>
  {
    if sections == [] then [] else SectionLines(sections[0]) + SectionsLines(sections[1..])
  }

  lemma SectionsLinesTwo(first: Section, second: Section)
    ensures SectionsLines([first, second]) == SectionLines(first) + SectionLines(second)
  {
    assert [first, second][1..] == [second];
    assert [second][1..] == [];
    assert SectionsLines([second]) == SectionLines(second) + SectionsLines([]);
    assert SectionLines(second) + [] == SectionLines(second);
  }

  /** The complete lines of Rendered(h). */
  function RenderedLines(h: Hunks): seq<string>
  {
    HeaderLines(h.title) + SectionsLines(h.sections)
  }

  /** Titles are written on one line each. */
  predicate PlainTitles(h: Hunks)
  {
    && '\n' !in h.title
    && forall i | 0 <= i < |h.sections| :: '\n' !in h.sections[i].title
  }

  lemma TitleLine(title: string)
    requires '\n' !in title
    ensures IsFullLine(WordPoundSpace + title + WordLF)
    ensures WordPoundSpace + title + WordLF != SectionBreakLine
  {
    var l := WordPoundSpace + title + WordLF;
    assert l[..|l| - 1] == "# " + title;
    assert l[0] == '#';
  }

  lemma HeaderLinesShape(title: string)
    requires '\n' !in title
    ensures AllFullLines(HeaderLines(title))
    ensures Concat(HeaderLines(title)) == Header(title)
    ensures BreakCount(HeaderLines(title)) == 1
  {
    TitleLine(title);
    var ls := HeaderLines(title);
    assert IsFullLine(ls[1]) && IsFullLine(ls[2]);
    assert BreakCount(ls[2..]) == 1;
    assert BreakCount(ls) == BreakCount(ls[1..]);
    assert Concat(ls[2..]) == "---\n";
  }

  /** Every comment line is a complete line opening with "## " -- never a
      section break -- and together they are the comment block. */
  lemma CommentLinesShape(comment: string)
    ensures AllFullLines(CommentLinesOf(comment))
    ensures Concat(CommentLinesOf(comment)) == CommentBlock(comment)
    ensures forall i | 0 <= i < |CommentLinesOf(comment)| :: CommentLinesOf(comment)[i][..3] == "## "
    ensures BreakCount(CommentLinesOf(comment)) == 0
  {
    var ls := CommentLinesOf(comment);
    if comment != "" {
      var pieces := SplitLines(comment);
      SplitLinesJoin(comment);
      forall i | 0 <= i < |ls|
        ensures IsFullLine(ls[i]) && ls[i][..3] == "## " && ls[i] != SectionBreakLine
      {
        assert ls[i] == "## " + pieces[i] + "\n";
        assert ls[i][..|ls[i]| - 1] == "## " + pieces[i];
        assert ls[i][0] == '#';
      }
    }
    NoBreaks(ls);
  }

  /** What a reader of the format takes from each "## " line: the text
      between the "## " and the newline. */
  function CommentPayloads(ls: seq<string>): (r: seq<string>)
    ensures |r| == |ls|
  {
    seq(|ls|, i requires 0 <= i < |ls| => if |ls[i]| >= 4 then ls[i][3..|ls[i]| - 1] else "")
  }

  /** The comment lines lose nothing: their texts joined with "\n" give the
      comment back. */
  lemma CommentRoundTrip(comment: string)
    requires comment != ""
    ensures JoinLines(CommentPayloads(CommentLinesOf(comment))) == comment
  {
    var pieces := SplitLines(comment);
    var ls := CommentLinesOf(comment);
    assert CommentPayloads(ls) == pieces by {
      forall i | 0 <= i < |pieces|
        ensures CommentPayloads(ls)[i] == pieces[i]
      {
        assert ls[i] == "## " + pieces[i] + "\n";
      }
    }
    SplitLinesJoin(comment);
  }

  /** A comment ending in a newline gets a last, empty "## " line, as
      strings.Split leaves an empty last piece. */
  lemma CommentTrailingNewline(comment: string)
    requires comment != "" && comment[|comment| - 1] == '\n'
    ensures CommentLinesOf(comment)[|CommentLinesOf(comment)| - 1] == "## \n"
  {
    SplitLinesTrailing(comment);
  }

  /** Every line of the indented body opens with a tab, except a blank line
      written for a body that ends in a newline -- so no body line is a
      section break, whatever the body holds. */
  lemma BodyLinesShape(body: string)
    ensures AllFullLines(BodyLines(body))
    ensures Concat(BodyLines(body)) == Indented(body) + "\n"
    ensures forall i | 0 <= i < |BodyLines(body)| ::
      BodyLines(body)[i] == "\n" || BodyLines(body)[i][0] == '\t'
    ensures BreakCount(BodyLines(body)) == 0
  {
    var ls := BodyLines(body);
    if body == "" {
      assert WellFormedLines(["\t"]);
      CloseLastLines(["\t"]);
      ConcatOne("\t");
      assert ls == ["\t" + "\n"];
    } else {
      BodyLinesNonEmpty(body);
    }
    assert SectionBreakLine[0] == '-';
    NoBreaks(ls);
  }

  lemma BodyLinesNonEmpty(body: string)
    requires body != ""
    ensures AllFullLines(BodyLines(body))
    ensures Concat(BodyLines(body)) == Indented(body) + "\n"
    ensures forall i | 0 <= i < |BodyLines(body)| ::
      BodyLines(body)[i] == "\n" || BodyLines(body)[i][0] == '\t'
  {
    var ps := SplitAfter(body);
    var qs := TabEach(ps);
    var ls := BodyLines(body);
    assert ls == CloseLast(qs);
    SplitAfterLines(body);
    TabEachWellFormed(ps);
    CloseLastLines(qs);
    forall i | 0 <= i < |ls|
      ensures ls[i] == "\n" || ls[i][0] == '\t'
    {
      if i < |qs| - 1 {
        assert ls[i] == qs[i] == TabPiece(ps[i]);
        assert IsFullLine(ps[i]);
      } else {
        assert ls[i] == TabPiece(ps[i]) + "\n";
      }
    }
  }

  /** Concat, completeness and break count over five runs of pieces, grouped
      as a section groups them. */
  lemma ConcatPieces(a: seq<string>, b: seq<string>, c: seq<string>, d: seq<string>, e: seq<string>)
    ensures Concat(a + b + c + d + e)
         == Concat(a) + Concat(b) + Concat(c) + Concat(d) + Concat(e)
  {
    ConcatAppend(a, b);
    ConcatAppend(a + b, c);
    ConcatAppend(a + b + c, d);
    ConcatAppend(a + b + c + d, e);
  }

  lemma AllFullLinesPieces(a: seq<string>, b: seq<string>, c: seq<string>, d: seq<string>, e: seq<string>)
    requires AllFullLines(a) && AllFullLines(b) && AllFullLines(c)
    requires AllFullLines(d) && AllFullLines(e)
    ensures AllFullLines(a + b + c + d + e)
  {
    AllFullLinesAppend(a, b);
    AllFullLinesAppend(a + b, c);
    AllFullLinesAppend(a + b + c, d);
    AllFullLinesAppend(a + b + c + d, e);
  }

  lemma BreakCountPieces(a: seq<string>, b: seq<string>, c: seq<string>, d: seq<string>, e: seq<string>)
    ensures BreakCount(a + b + c + d + e)
         == BreakCount(a) + BreakCount(b) + BreakCount(c) + BreakCount(d) + BreakCount(e)
  {
    BreakCountAppend(a, b);
    BreakCountAppend(a + b, c);
    BreakCountAppend(a + b + c, d);
    BreakCountAppend(a + b + c + d, e);
  }

  lemma SectionLinesConcat(section: Section)
    ensures Concat(SectionLines(section)) == RenderSection(section)
  {
    var title := WordPoundSpace + section.title + WordLF;
    var comments := CommentBlock(section.comment);
    var body := Indented(section.body);
    CommentLinesShape(section.comment);
    BodyLinesShape(section.body);
    ConcatPieces([title], CommentLinesOf(section.comment), [WordLF],
                 BodyLines(section.body), [SectionBreakLine]);
    ConcatOne(title);
    ConcatOne(WordLF);
    ConcatOne(SectionBreakLine);
    var head := title + comments + WordLF;
    AppendAssoc(head, body, WordLF);
    AppendAssoc(head + body + WordLF, WordSectionBreak, WordLF);
  }

  /** A section with a one-line title is written as complete lines, and
      exactly one of them -- its last -- is a section break. */
  lemma SectionLinesShape(section: Section)
    requires '\n' !in section.title
    ensures AllFullLines(SectionLines(section))
    ensures Concat(SectionLines(section)) == RenderSection(section)
    ensures BreakCount(SectionLines(section)) == 1
    ensures SectionLines(section)[|SectionLines(section)| - 1] == SectionBreakLine
  {
    var title := WordPoundSpace + section.title + WordLF;
    TitleLine(section.title);
    CommentLinesShape(section.comment);
    BodyLinesShape(section.body);
    assert IsFullLine(WordLF) && IsFullLine(SectionBreakLine);
    AllFullLinesPieces([title], CommentLinesOf(section.comment), [WordLF],
                       BodyLines(section.body), [SectionBreakLine]);
    BreakCountPieces([title], CommentLinesOf(section.comment), [WordLF],
                     BodyLines(section.body), [SectionBreakLine]);
    assert BreakCount([title]) == 0 && BreakCount([WordLF]) == 0;
    assert BreakCount([SectionBreakLine]) == 1;
    SectionLinesConcat(section);
  }

  lemma {:induction false} SectionsLinesShape(sections: seq<Section>)
    requires forall i | 0 <= i < |sections| :: '\n' !in sections[i].title
    ensures AllFullLines(SectionsLines(sections))
    ensures Concat(SectionsLines(sections)) == Concat(RenderEach(sections))
    ensures BreakCount(SectionsLines(sections)) == |sections|
  {
    if sections != [] {
      var first := SectionLines(sections[0]);
      var rest := SectionsLines(sections[1..]);
      assert SectionsLines(sections) == first + rest;
      SectionLinesShape(sections[0]);
      SectionsLinesShape(sections[1..]);
      AllFullLinesAppend(first, rest);
      ConcatAppend(first, rest);
      BreakCountAppend(first, rest);
      ConcatRenderEachCons(sections);
    }
  }

  lemma ConcatRenderEachCons(sections: seq<Section>)
    requires |sections| > 0
    ensures Concat(RenderEach(sections))
         == RenderSection(sections[0]) + Concat(RenderEach(sections[1..]))
  {
    assert RenderEach(sections)[1..] == RenderEach(sections[1..]);
  }

  /** With one-line titles, the lines of the output are the header lines and
      then each section's lines in order, and exactly |sections| + 1 of them
      are section breaks: one after the header and one closing each
      section.  No comment or body can add a break, since comment lines open
      with "## " and body lines with a tab. */
  lemma RenderedLayout(h: Hunks)
    requires PlainTitles(h)
    ensures AllFullLines(RenderedLines(h))
    ensures Concat(RenderedLines(h)) == Rendered(h)
    ensures SplitAfter(Rendered(h)) == RenderedLines(h) + [""]
    ensures BreakCount(SplitAfter(Rendered(h))) == |h.sections| + 1
  {
    HeaderLinesShape(h.title);
    SectionsLinesShape(h.sections);
    AllFullLinesAppend(HeaderLines(h.title), SectionsLines(h.sections));
    ConcatAppend(HeaderLines(h.title), SectionsLines(h.sections));
    SplitAfterFullLines(RenderedLines(h));
    BreakCountAppend(HeaderLines(h.title), SectionsLines(h.sections));
    BreakCountAppend(RenderedLines(h), [""]);
    assert BreakCount([""]) == 0;
  }

  /** A body given as its complete lines is written as those lines, each
      behind a tab, and then the blank line. */
  lemma BodyLinesOfLines(lines: seq<string>)
    requires |lines| > 0 && AllFullLines(lines)
    ensures BodyLines(Concat(lines)) == TabEach(lines) + ["\n"]
  {
    AllFullLinesTail(lines);
    assert Concat(lines) == lines[0] + Concat(lines[1..]);
    assert Concat(lines) != "";
    SplitAfterFullLines(lines);
    var tabbed := TabEach(lines + [""]);
    assert tabbed[..|lines|] == TabEach(lines);
    assert tabbed[|lines|] == "";
    assert BodyLines(Concat(lines)) == CloseLast(tabbed);
    assert "" + "\n" == "\n";
  }
}
