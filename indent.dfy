/** The indentation pair of package wish (indent.go): Indent puts one tab in
    front of every line of a block, Dedent strips the indentation a heredoc
    literal picks up from the source code around it.  Each Go function is a
    method with its loops, proved equal to a pure function (Indented,
    Dedented) about which the properties are stated as lemmas. */
module Wish {
  import opened Lines

  // ---------------------------------------------------------------- Indent

  /** One piece of SplitAfter with a tab in front, unless the piece is empty. */
  function TabPiece(p: string): string
  {
    if p != "" then "\t" + p else p
  }

  function TabEach(ps: seq<string>): (r: seq<string>)
    ensures |r| == |ps|
  {
    seq(|ps|, i requires 0 <= i < |ps| => TabPiece(ps[i]))
  }

  /** What Indent returns: "\t" for the empty string, otherwise every non-empty
      piece of SplitAfter(s) with one tab in front. */
  function Indented(s: string): string
  {
    if s == "" then "\t" else Concat(TabEach(SplitAfter(s)))
  }

  /** Indent (indent.go:9-22). */
  method Indent(s: string) returns (r: string)
    ensures r == Indented(s)
  {
    if s == "" {
      return "\t";
    }
    var lines := SplitAfter(s);
    var buf := "";
    for i := 0 to |lines|
      invariant buf == Concat(TabEach(lines)[..i])
    {
      ghost var before := buf;
      if lines[i] != "" {
        buf := buf + "\t";
      }
      buf := buf + lines[i];
      assert buf == before + TabEach(lines)[i];
      ConcatPrefixStep(TabEach(lines), i);
    }
    assert TabEach(lines)[..|lines|] == TabEach(lines);
    r := buf;
  }

  // ---------------------------------------------------------------- Dedent

  /** Number of consecutive tabs at the start of s. */
  function LeadingTabs(s: string): (n: nat)
    ensures n <= |s|
    ensures forall i | 0 <= i < n :: s[i] == '\t'
    ensures n < |s| ==> s[n] != '\t'
  {
    if s != [] && s[0] == '\t' then 1 + LeadingTabs(s[1..]) else 0
  }

  function Min(a: nat, b: nat): nat
  {
    if a <= b then a else b
  }

  /** A line with as many leading tabs removed as it has, up to depth. */
  function StripTabs(line: string, depth: nat): string
  {
    line[Min(depth, LeadingTabs(line))..]
  }

  function StripEach(lines: seq<string>, depth: nat): (r: seq<string>)
    ensures |r| == |lines|
  {
    seq(|lines|, i requires 0 <= i < |lines| => StripTabs(lines[i], depth))
  }

  /** The lines Dedent works on: those of s, less a first line that is
      exactly "\n". */
  function DedentLines(s: string): seq<string>
  {
    var lines := SplitAfter(s);
    if lines[0] == "\n" then lines[1..] else lines
  }

  /** The depth Dedent infers: the leading tabs of its first line. */
  function Depth(s: string): nat
  {
    var lines := DedentLines(s);
    if |lines| == 0 then 0 else LeadingTabs(lines[0])
  }

  /** What Dedent returns. */
  function Dedented(s: string): string
  {
    var lines := DedentLines(s);
    if |lines| == 0 then "" else Concat(StripEach(lines, Depth(s)))
  }

  /** The inner loop of Dedent (indent.go:53-59): skip the opening tabs of
      line while fewer than depth are skipped, then write the rest.  A line
      of nothing but skipped tabs writes nothing. */
  method WriteStripped(buf: string, line: string, depth: nat) returns (out: string)
    ensures out == buf + StripTabs(line, depth)
  {
    out := buf;
    var i := 0;
    while i < |line|
      invariant 0 <= i <= |line| && i <= depth
      invariant i <= LeadingTabs(line)
      invariant out == buf
    {
      if i < depth && line[i] == '\t' {
        i := i + 1;
        continue;
      }
      assert i == Min(depth, LeadingTabs(line));
      out := out + line[i..];
      break;
    }
  }

  /** Dedent (indent.go:35-62); the loop over one line is WriteStripped.
      The Go code returns "" when no line is left after the blank first line
      is dropped; that never happens (SplitAfter always leaves a last piece),
      and an empty buffer is returned then. */
  method Dedent(s: string) returns (r: string)
    ensures r == Dedented(s)
  {
    var lines := SplitAfter(s);
    var buf := "";
    if lines[0] == "\n" {
      lines := lines[1..];
    }
    if |lines| != 0 {
      // depth: the run of tabs that opens the first line
      var first := lines[0];
      var depth := 0;
      var k := 0;
      while k < |first|
        invariant 0 <= k <= |first|
        invariant depth == k
        invariant k <= LeadingTabs(first)
      {
        depth := depth + 1;
        if first[k] != '\t' {
          depth := depth - 1;
          break;
        }
        k := k + 1;
      }
      assert depth == Depth(s);
      for n := 0 to |lines|
        invariant buf == Concat(StripEach(lines, depth)[..n])
      {
        buf := WriteStripped(buf, lines[n], depth);
        ConcatPrefixStep(StripEach(lines, depth), n);
      }
      assert StripEach(lines, depth)[..|lines|] == StripEach(lines, depth);
    }
    r := buf;
  }

  // ------------------------------------------------------ Indent properties

  /** Reference definition of indentation, character by character: a tab
      goes in front of every character that opens a line. */
  function TabbedFrom(s: string, atLineStart: bool): string
  {
    if s == [] then []
    else (if atLineStart then "\t" else "") + [s[0]] + TabbedFrom(s[1..], s[0] == '\n')
  }

  lemma ConcatTabEachCons(ps: seq<string>)
    requires |ps| > 0
    ensures Concat(TabEach(ps)) == TabPiece(ps[0]) + Concat(TabEach(ps[1..]))
  {
    assert TabEach(ps)[1..] == TabEach(ps[1..]);
  }

  lemma TabbedAtLineStart(s: string)
    requires s != []
    ensures TabbedFrom(s, true) == "\t" + TabbedFrom(s, false)
  {
    var t := TabbedFrom(s[1..], s[0] == '\n');
    assert TabbedFrom(s, false) == "" + [s[0]] + t == [s[0]] + t;
    assert TabbedFrom(s, true) == "\t" + [s[0]] + t;
    AppendAssoc("\t", [s[0]], t);
  }

  lemma TabbedInside(s: string)
    requires s != []
    ensures TabbedFrom(s, false) == [s[0]] + TabbedFrom(s[1..], s[0] == '\n')
  {
  }

  /** Inside a line, the reference definition copies up to the end of the
      first piece and indents the remaining pieces. */
  lemma {:induction false} TabbedSplitInside(s: string)
    ensures TabbedFrom(s, false) == SplitAfter(s)[0] + Concat(TabEach(SplitAfter(s)[1..]))
    decreases |s|, 1
  {
    var ps := SplitAfter(s);
    if s == [] {
      assert TabEach(ps[1..]) == [];
    } else {
      var rest := SplitAfter(s[1..]);
      if s[0] == '\n' {
        TabbedSplit(s[1..]);
        assert ps[0] == [s[0]] && ps[1..] == rest;
      } else {
        TabbedSplitInside(s[1..]);
        assert ps[0] == [s[0]] + rest[0] && ps[1..] == rest[1..];
      }
    }
  }

  /** At a line start, the reference definition indents every piece. */
  lemma {:induction false} TabbedSplit(s: string)
    ensures TabbedFrom(s, true) == Concat(TabEach(SplitAfter(s)))
    decreases |s|, 2
  {
    var ps := SplitAfter(s);
    if s == [] {
      assert TabEach(ps) == [""];
      ConcatOne("");
    } else {
      var rest := Concat(TabEach(ps[1..]));
      TabbedSplitInside(s);
      TabbedAtLineStart(s);
      ConcatTabEachCons(ps);
      assert TabPiece(ps[0]) == "\t" + ps[0];
      AppendAssoc("\t", ps[0], rest);
    }
  }

  /** Indent agrees with the reference definition on every non-empty input. */
  lemma IndentedIsTabbed(s: string)
    requires s != ""
    ensures Indented(s) == TabbedFrom(s, true)
  {
    TabbedSplit(s);
  }

  /** Deleting the tab at the start of every line (when there is one) --
      the strict inverse of Indent. */
  function UnindentFrom(t: string, atLineStart: bool): string
  {
    if t == [] then []
    else if atLineStart && t[0] == '\t' then UnindentFrom(t[1..], false)
    else [t[0]] + UnindentFrom(t[1..], t[0] == '\n')
  }

  lemma {:induction false} UnindentTabbed(s: string, atLineStart: bool)
    ensures UnindentFrom(TabbedFrom(s, atLineStart), atLineStart) == s
    decreases |s|
  {
    if s != [] {
      var tail := TabbedFrom(s[1..], s[0] == '\n');
      var inside := [s[0]] + tail;
      UnindentTabbed(s[1..], s[0] == '\n');
      TabbedInside(s);
      assert inside[1..] == tail;
      assert UnindentFrom(inside, false) == s by {
        assert [s[0]] + s[1..] == s;
      }
      if atLineStart {
        TabbedAtLineStart(s);
        assert ("\t" + inside)[1..] == inside;
      }
    }
  }

  /** Removing the inserted tabs gives the input back, for every input
      (the empty string included: Indent turns it into "\t"). */
  lemma UnindentIndent(s: string)
    ensures UnindentFrom(Indented(s), true) == s
  {
    if s != "" {
      IndentedIsTabbed(s);
      UnindentTabbed(s, true);
    }
  }

  lemma {:induction false} TabbedNewlines(s: string, atLineStart: bool)
    ensures NewlineCount(TabbedFrom(s, atLineStart)) == NewlineCount(s)
    decreases |s|
  {
    if s != [] {
      var tail := TabbedFrom(s[1..], s[0] == '\n');
      var inside := [s[0]] + tail;
      TabbedNewlines(s[1..], s[0] == '\n');
      TabbedInside(s);
      assert inside[1..] == tail;
      if atLineStart {
        TabbedAtLineStart(s);
        assert ("\t" + inside)[1..] == inside;
      }
    }
  }

  lemma {:induction false} TabbedLength(s: string, atLineStart: bool)
    ensures |TabbedFrom(s, atLineStart)| ==
      |s| + if s == [] then 0
            else (if atLineStart then 1 else 0) + NewlineCount(s) - (if s[|s| - 1] == '\n' then 1 else 0)
    decreases |s|
  {
    if s != [] {
      TabbedLength(s[1..], s[0] == '\n');
      TabbedInside(s);
      if atLineStart {
        TabbedAtLineStart(s);
      }
      if s[1..] != [] {
        assert s[1..][|s[1..]| - 1] == s[|s| - 1];
      }
    }
  }

  /** Indent keeps every newline, and adds exactly one character per line:
      one tab per newline, plus one for a last line with no newline. */
  lemma IndentNewlinesAndLength(s: string)
    requires s != ""
    ensures NewlineCount(Indented(s)) == NewlineCount(s)
    ensures |Indented(s)| == |s| + NewlineCount(s) + (if s[|s| - 1] == '\n' then 0 else 1)
  {
    IndentedIsTabbed(s);
    TabbedNewlines(s, true);
    TabbedLength(s, true);
  }

  lemma TabEachWellFormed(ps: seq<string>)
    requires WellFormedLines(ps)
    ensures WellFormedLines(TabEach(ps))
  {
    var qs := TabEach(ps);
    forall i | 0 <= i < |qs| - 1
      ensures IsFullLine(qs[i])
    {
      var p := ps[i];
      assert IsFullLine(p);
      assert qs[i] == "\t" + p;
      assert qs[i][..|qs[i]| - 1] == "\t" + p[..|p| - 1];
    }
    var last := ps[|ps| - 1];
    if last != "" {
      assert qs[|qs| - 1] == "\t" + last;
    }
  }

  /** The lines of Indent(s) are the lines of s, each non-empty one with a
      tab in front: blank interior lines "\n" get a tab too, only the empty
      piece after a final newline does not. */
  lemma IndentLines(s: string)
    requires s != ""
    ensures SplitAfter(Indented(s)) == TabEach(SplitAfter(s))
  {
    SplitAfterLines(s);
    TabEachWellFormed(SplitAfter(s));
    SplitAfterConcat(TabEach(SplitAfter(s)));
  }

  // ------------------------------------------------------ Dedent properties

  /** The first line is dropped exactly when the input opens with "\n"; what
      is left is a non-empty list of well-formed lines making up the rest. */
  lemma DedentLinesShape(s: string)
    ensures |DedentLines(s)| > 0 && WellFormedLines(DedentLines(s))
    ensures Concat(DedentLines(s)) == if s != "" && s[0] == '\n' then s[1..] else s
  {
    var lines := SplitAfter(s);
    SplitAfterLines(s);
    if s != "" && s[0] == '\n' {
      assert '\n' in lines[0];
      assert IsFullLine(lines[0]);
      assert lines[0] == "\n";
      assert Concat(lines) == lines[0] + Concat(lines[1..]);
      assert WellFormedLines(lines[1..]) by {
        forall i | 0 <= i < |lines[1..]| - 1
          ensures IsFullLine(lines[1..][i])
        {
          assert lines[1..][i] == lines[i + 1];
        }
      }
    } else if s != "" {
      assert lines[0] != "\n";
    }
  }

  lemma StripEachWellFormed(lines: seq<string>, depth: nat)
    requires WellFormedLines(lines)
    ensures WellFormedLines(StripEach(lines, depth))
  {
    var out := StripEach(lines, depth);
    forall i | 0 <= i < |out| - 1
      ensures IsFullLine(out[i])
    {
      var p := lines[i];
      assert IsFullLine(p);
      var k := Min(depth, LeadingTabs(p));
      assert k < |p|;
      assert out[i] == p[k..];
      assert out[i][..|out[i]| - 1] == p[..|p| - 1][k..];
    }
    var last := lines[|lines| - 1];
    assert out[|out| - 1] == last[Min(depth, LeadingTabs(last))..];
  }

  /** Dedent works line by line: the lines of its result are the lines it
      works on, each with min(depth, its own leading tabs) tabs removed. */
  lemma DedentLinewise(s: string)
    ensures SplitAfter(Dedented(s)) == StripEach(DedentLines(s), Depth(s))
  {
    DedentLinesShape(s);
    StripEachWellFormed(DedentLines(s), Depth(s));
    SplitAfterConcat(StripEach(DedentLines(s), Depth(s)));
  }

  /** t is s with some tab characters deleted, and nothing else changed. */
  predicate TabsDeleted(t: string, s: string)
    decreases |s|
  {
    if s == [] then t == []
    else
      || (s[0] == '\t' && TabsDeleted(t, s[1..]))
      || (t != [] && t[0] == s[0] && TabsDeleted(t[1..], s[1..]))
  }

  lemma {:induction false} TabsDeletedLength(t: string, s: string)
    requires TabsDeleted(t, s)
    ensures |t| <= |s|
    decreases |s|
  {
    if s != [] {
      if s[0] == '\t' && TabsDeleted(t, s[1..]) {
        TabsDeletedLength(t, s[1..]);
      } else {
        TabsDeletedLength(t[1..], s[1..]);
      }
    }
  }

  lemma {:induction false} TabsDeletedPrefix(line: string, k: nat)
    requires k <= |line|
    requires forall j | 0 <= j < k :: line[j] == '\t'
    ensures TabsDeleted(line[k..], line)
    decreases |line|
  {
    if line != [] {
      if k == 0 {
        TabsDeletedPrefix(line[1..], 0);
        assert line[1..][0..] == line[1..];
      } else {
        TabsDeletedPrefix(line[1..], k - 1);
        assert line[1..][k - 1..] == line[k..];
      }
    }
  }

  lemma {:induction false} TabsDeletedAppend(a: string, b: string, c: string, d: string)
    requires TabsDeleted(a, b) && TabsDeleted(c, d)
    ensures TabsDeleted(a + c, b + d)
    decreases |b|
  {
    if b == [] {
      assert a + c == c && b + d == d;
    } else {
      assert (b + d)[0] == b[0] && (b + d)[1..] == b[1..] + d;
      if b[0] == '\t' && TabsDeleted(a, b[1..]) {
        TabsDeletedAppend(a, b[1..], c, d);
      } else {
        TabsDeletedAppend(a[1..], b[1..], c, d);
        assert (a + c)[0] == a[0] && (a + c)[1..] == a[1..] + c;
      }
    }
  }

  lemma {:induction false} StripEachTabsDeleted(lines: seq<string>, depth: nat)
    ensures TabsDeleted(Concat(StripEach(lines, depth)), Concat(lines))
    decreases |lines|
  {
    if lines != [] {
      var out := StripEach(lines, depth);
      assert out[1..] == StripEach(lines[1..], depth);
      StripEachTabsDeleted(lines[1..], depth);
      TabsDeletedPrefix(lines[0], Min(depth, LeadingTabs(lines[0])));
      TabsDeletedAppend(out[0], lines[0], Concat(out[1..]), Concat(lines[1..]));
    }
  }

  /** Apart from one opening "\n", Dedent removes nothing but tab
      characters, so it never lengthens its input. */
  lemma DedentDeletesOnlyTabs(s: string)
    ensures TabsDeleted(Dedented(s), if s != "" && s[0] == '\n' then s[1..] else s)
    ensures |Dedented(s)| <= |s|
  {
    DedentLinesShape(s);
    StripEachTabsDeleted(DedentLines(s), Depth(s));
    TabsDeletedLength(Dedented(s), if s != "" && s[0] == '\n' then s[1..] else s);
  }

  /** What Dedent sees in Indent(x): the indented lines, none of them
      dropped, and a depth one more than the tabs opening x. */
  lemma DedentOfIndented(x: string)
    requires x != ""
    ensures DedentLines(Indented(x)) == TabEach(SplitAfter(x))
    ensures Depth(Indented(x)) == 1 + LeadingTabs(SplitAfter(x)[0])
    ensures Dedented(Indented(x)) == Concat(StripEach(TabEach(SplitAfter(x)), Depth(Indented(x))))
  {
    var ps := SplitAfter(x);
    var qs := TabEach(ps);
    IndentLines(x);
    assert qs[0] == "\t" + ps[0];
    assert qs[0][1..] == ps[0];
  }

  lemma DedentIndentNoLeadingTab(x: string)
    requires x != "" && x[0] != '\t'
    ensures Dedented(Indented(x)) == x
  {
    var ps := SplitAfter(x);
    var qs := TabEach(ps);
    DedentOfIndented(x);
    SplitAfterLines(x);
    var stripped := StripEach(qs, 1);
    assert stripped == ps by {
      forall i | 0 <= i < |ps|
        ensures stripped[i] == ps[i]
      {
        if ps[i] != "" {
          assert qs[i] == "\t" + ps[i];
          assert qs[i][1..] == ps[i];
        }
      }
    }
  }

  lemma LeadingTabsTab(p: string)
    ensures LeadingTabs("\t" + p) == 1 + LeadingTabs(p)
  {
    assert ("\t" + p)[1..] == p;
  }

  /** A tab in front of a line is stripped along with one more level of depth. */
  lemma StripTabsTabbed(p: string, depth: nat)
    ensures StripTabs("\t" + p, depth + 1) == StripTabs(p, depth)
  {
    var q := "\t" + p;
    assert q[1..] == p;
    var m := Min(depth, LeadingTabs(p));
    assert Min(depth + 1, LeadingTabs(q)) == m + 1;
    assert q[m + 1..] == p[m..];
  }

  /** Dedent of Indent(x): the first line loses all its opening tabs, every
      later line at most one more than that. */
  lemma DedentIndentedHead(x: string)
    requires x != ""
    ensures var ps := SplitAfter(x);
      Dedented(Indented(x))
      == ps[0][LeadingTabs(ps[0])..] + Concat(StripEach(TabEach(ps)[1..], 1 + LeadingTabs(ps[0])))
  {
    var ps := SplitAfter(x);
    var k := LeadingTabs(ps[0]);
    DedentOfIndented(x);
    StripEachCons(TabEach(ps), 1 + k);
    assert TabEach(ps)[0] == "\t" + ps[0];
    StripTabsTabbed(ps[0], k);
  }

  lemma DedentIndentLeadingTab(x: string)
    requires x != "" && x[0] == '\t'
    ensures Dedented(Indented(x)) != x
  {
    var ps := SplitAfter(x);
    var k := LeadingTabs(ps[0]);
    DedentIndentedHead(x);
    if k < |ps[0]| {
      assert Dedented(Indented(x))[0] == ps[0][k] != '\t';
    } else {
      SplitAfterLines(x);
      assert ps[0][|ps[0]| - 1] == '\t';
      assert |ps| == 1;
      assert TabEach(ps)[1..] == [];
    }
  }

  /** Dedent undoes Indent exactly when the input is empty or does not open
      with a tab; otherwise the depth it infers from the first line exceeds
      the one tab Indent added. */
  lemma DedentIndent(x: string)
    ensures Dedented(Indented(x)) == x <==> (x == "" || x[0] != '\t')
  {
    if x == "" {
      SplitAfterNoNewline("\t");
      assert DedentLines("\t") == ["\t"];
      assert StripEach(["\t"], 1) == [""];
    } else if x[0] != '\t' {
      DedentIndentNoLeadingTab(x);
    } else {
      DedentIndentLeadingTab(x);
    }
  }

  // ------------------------------------------------------ line by line

  /** Indent takes a complete first line off on its own: a tab, the line,
      then the rest indented -- nothing at all when the line ended the input. */
  lemma IndentedFullLine(p: string, t: string)
    requires IsFullLine(p)
    ensures Indented(p + t) == "\t" + p + (if t == "" then "" else Indented(t))
  {
    SplitAfterFullLine(p, t);
    var ps := SplitAfter(p + t);
    assert ps[1..] == SplitAfter(t);
    ConcatTabEachCons(ps);
    if t == "" {
      assert TabEach(SplitAfter(t)) == [""];
    }
  }

  /** Stripping at a fixed depth goes line by line: a complete first line is
      stripped on its own. */
  lemma StripEachFullLine(p: string, t: string, depth: nat)
    requires IsFullLine(p)
    ensures Concat(StripEach(SplitAfter(p + t), depth))
         == StripTabs(p, depth) + Concat(StripEach(SplitAfter(t), depth))
  {
    SplitAfterFullLine(p, t);
    var ps := SplitAfter(p + t);
    assert ps[0] == p && ps[1..] == SplitAfter(t);
    StripEachCons(ps, depth);
  }

  /** ... and a last line without a newline is the whole of what is left. */
  lemma StripEachLastLine(t: string, depth: nat)
    requires '\n' !in t
    ensures Concat(StripEach(SplitAfter(t), depth)) == StripTabs(t, depth)
  {
    SplitAfterNoNewline(t);
    assert StripEach([t], depth) == [StripTabs(t, depth)];
  }

  /** A heredoc: Dedent drops the blank first line, takes its depth from
      the tabs opening the next line p, strips all of them from p and at
      most that many from every later line. */
  lemma DedentedHeredoc(p: string, u: string)
    requires IsFullLine(p)
    ensures Dedented("\n" + p + u)
         == p[LeadingTabs(p)..] + Concat(StripEach(SplitAfter(u), LeadingTabs(p)))
  {
    var s := "\n" + p + u;
    assert s[1..] == p + u;
    SplitAfterFullLine(p, u);
    assert SplitAfter(s) == ["\n"] + SplitAfter(p + u);
    assert DedentLines(s) == SplitAfter(p + u);
    assert Depth(s) == LeadingTabs(p);
    StripEachFullLine(p, u, LeadingTabs(p));
  }

  /** The depth comes from the line right after the dropped blank line, even
      when that line is blank too: then the depth is 0 and nothing more is
      stripped. */
  lemma DedentBlankSecondLine(u: string)
    ensures Dedented("\n\n" + u) == "\n" + u
  {
    DedentedHeredoc("\n", u);
    assert "\n" + "\n" + u == "\n\n" + u;
    var ls := SplitAfter(u);
    assert StripEach(ls, 0) == ls by {
      forall i | 0 <= i < |ls|
        ensures StripEach(ls, 0)[i] == ls[i]
      {
        assert ls[i][0..] == ls[i];
      }
    }
    SplitAfterLines(u);
  }

  /** Stripping distributes over the lines. */
  lemma StripEachAppend(ls: seq<string>, ms: seq<string>, depth: nat)
    ensures StripEach(ls + ms, depth) == StripEach(ls, depth) + StripEach(ms, depth)
  {
  }

  lemma StripEachCons(ps: seq<string>, depth: nat)
    requires |ps| > 0
    ensures Concat(StripEach(ps, depth)) == StripTabs(ps[0], depth) + Concat(StripEach(ps[1..], depth))
  {
    assert StripEach(ps, depth)[1..] == StripEach(ps[1..], depth);
  }

  /** Stripping complete lines and a last line without newline, after
      splitting them out of their concatenation. */
  lemma StripEachOfLines(qs: seq<string>, last: string, depth: nat)
    requires AllFullLines(qs) && '\n' !in last
    ensures Concat(StripEach(SplitAfter(Concat(qs) + last), depth))
         == Concat(StripEach(qs, depth)) + StripTabs(last, depth)
  {
    SplitAfterLinesThen(qs, last);
    StripEachAppend(qs, [last], depth);
    assert StripEach([last], depth) == [StripTabs(last, depth)];
    ConcatAppend(StripEach(qs, depth), [StripTabs(last, depth)]);
    ConcatOne(StripTabs(last, depth));
  }

  /** A heredoc given as its lines: a blank first line, complete lines ps and
      a last line without newline.  Dedent strips every line at the depth of
      ps[0]. */
  lemma DedentedHeredocLines(ps: seq<string>, last: string)
    requires |ps| > 0 && AllFullLines(ps) && '\n' !in last
    ensures Dedented("\n" + Concat(ps) + last)
         == Concat(StripEach(ps, LeadingTabs(ps[0]))) + StripTabs(last, LeadingTabs(ps[0]))
  {
    var depth := LeadingTabs(ps[0]);
    var qs := ps[1..];
    var rest := Concat(qs) + last;
    AllFullLinesTail(ps);
    assert Concat(ps) == ps[0] + Concat(qs);
    Regroup("\n", ps[0], Concat(qs), last);
    DedentedHeredoc(ps[0], rest);
    StripEachOfLines(qs, last, depth);
    StripEachCons(ps, depth);
    assert StripTabs(ps[0], depth) == ps[0][depth..];
    AppendAssoc(ps[0][depth..], Concat(StripEach(qs, depth)), StripTabs(last, depth));
  }
}
