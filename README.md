# go-wish: indentation helpers and the wishfix serializer, in Dafny

go-wish is a Go test-assertion library. Two parts of it are modelled here:

- **Indent and Dedent** (`indent.go`). `Indent` puts one tab in front of
  every line of a block of text. `Dedent` normalises a heredoc literal. It
  drops one opening line if that line is exactly `"\n"`. It reads the
  number of tabs that open the next line as the depth. It then removes up
  to that many tabs from the start of every line, and only tabs.
- **marshalHunks** (`wishfix/wishfixFmt.go`). It writes a fixture file
  ("hunks": a title and a list of sections, each with a title, an optional
  comment and a body) to an `io.Writer`. The output is a `# title` header,
  a blank line and a `---` break. Then each section follows: `# title`,
  one `## ` line per line of the comment, a blank line, the body indented
  by `Indent`, a newline, and a `---` break.

The files:

- `lines.dfy` (module `Lines`) holds the two Go standard-library functions
  the core relies on: `strings.SplitAfter(s, "\n")` (`SplitAfter`) and
  `strings.Split(s, "\n")` (`SplitLines`). It proves they split a string
  into its lines and give the string back.
- `indent.dfy` (module `Wish`) has `Indent` and `Dedent` as methods with
  the source's loops. Each is proved equal to a pure function (`Indented`,
  `Dedented`), and the properties of those functions are lemmas. One of
  them checks `Indented` against an independent character-by-character
  definition (`TabbedFrom`).
- `wishfix.dfy` (module `Wishfix`) has the `io.Writer` as a `Buffer` class
  whose `Write` appends. `MarshalHunks` and its per-part helpers are
  methods proved to append exactly `Rendered(h)`. Lemmas then give the line
  layout of `Rendered(h)`: every line is complete, and exactly one section
  break follows the header and each section.
- `wishfix_test.dfy` (module `WishfixTest`) proves the golden output of
  `TestMarshal`. The expected text is written as an indented heredoc and
  passed through `Dedent`, as in the Go test.

## Model

| member | source | states |
|---|---|---|
| Lines.SplitAfter | indent.go:13 | `strings.SplitAfter(s, "\n")` returns one more piece than `s` has newlines, and the first piece opens with the first character of `s` |
| Lines.SplitAfterLines | indent.go:13 | the pieces of `SplitAfter(s)` joined give `s` back; every piece but the last is one complete line; the last piece holds no newline |
| Lines.SplitAfterJoin | indent.go:13 | the pieces of `SplitAfter(s)` joined give `s` back |
| Lines.SplitAfterConcat | indent.go:36 | on well-formed lines, `SplitAfter` undoes joining: `SplitAfter(Concat(ps)) == ps` |
| Lines.SplitAfterFullLines | indent.go:36 | complete lines joined split back into the same lines plus an empty last piece |
| Lines.SplitLines | wishfix/wishfixFmt.go:28 | `strings.Split(s, "\n")` returns one more piece than `s` has newlines |
| Lines.SplitLinesJoin | wishfix/wishfixFmt.go:28 | the pieces of `strings.Split(s, "\n")` hold no newline, and joining them with `"\n"` gives `s` back |
| Lines.SplitLinesTrailing | wishfix/wishfixFmt.go:28 | a string ending in a newline splits with an empty last piece |
| Wish.Indent | indent.go:9-22 | the loop over the `SplitAfter` pieces returns exactly `Indented(s)`: `"\t"` for the empty string, otherwise a tab before every non-empty piece |
| Wish.IndentedIsTabbed | indent.go:8-22 | Indent agrees with an independent character-level definition: a tab is inserted before every character that starts a line |
| Wish.UnindentIndent | indent.go:8-22 | removing the inserted tabs gives back the input, for every input including the empty string |
| Wish.IndentNewlinesAndLength | indent.go:13-20 | Indent keeps every newline, and the result is one character longer per line: one per newline, plus one for a last line without a newline |
| Wish.IndentLines | indent.go:13-20 | the lines of `Indent(s)` are the lines of `s`, each non-empty one with a tab in front |
| Wish.IndentedFullLine | indent.go:13-20 | a complete first line is indented on its own: a tab, the line, then the rest indented (nothing if the line ended the input) |
| Wish.WriteStripped | indent.go:53-59 | the per-line loop skips opening tabs while fewer than depth are skipped, then appends the rest of the line: it appends exactly `StripTabs(line, depth)`, which is nothing for a line of skipped tabs only |
| Wish.Dedent | indent.go:35-62 | the method, with its depth loop and its loop over the lines, returns exactly `Dedented(s)` |
| Wish.DedentLinesShape | indent.go:36-43 | the first line is dropped exactly when the input opens with `"\n"`; at least one line is always left, and the lines left make up the rest of the input |
| Wish.DedentLinewise | indent.go:44-60 | the lines of the result are the lines worked on, each with `min(depth, its own leading tabs)` tabs removed, where depth is the leading tabs of the first line worked on |
| Wish.DedentDeletesOnlyTabs | indent.go:29-30 | apart from the one dropped opening `"\n"`, Dedent deletes only tab characters, so the result is never longer than the input |
| Wish.DedentIndent | indent.go:8-62 | `Dedent(Indent(x)) == x` holds if and only if `x` is empty or does not open with a tab |
| Wish.DedentIndentLeadingTab | indent.go:44-51 | when `x` opens with a tab, the depth read from `Indent(x)` is more than the one tab Indent added, and the round trip fails |
| Wish.DedentedHeredoc | indent.go:32-62 | for a heredoc `"\n" + p + rest` with `p` a complete line, the result is `p` without its opening tabs, followed by every later line with at most that many tabs removed |
| Wish.DedentedHeredocLines | indent.go:32-62 | the same, for a heredoc given as a list of complete lines and a last line without a newline |
| Wish.DedentBlankSecondLine | indent.go:38-51 | the depth comes from the line right after the dropped blank line; if that line is blank too, the depth is 0 and nothing more is removed |
| Wishfix.Buffer.Write | wishfix/wishfixFmt.go:11 | a write appends its bytes to what the writer already holds |
| Wishfix.WriteHeader | wishfix/wishfixFmt.go:12-18 | appends `"# " + title + "\n\n---\n"` |
| Wishfix.WriteCommentLine | wishfix/wishfixFmt.go:30-32 | appends `"## " + line + "\n"` |
| Wishfix.WriteComment | wishfix/wishfixFmt.go:27-34 | appends nothing for an empty comment, otherwise one `"## " + piece + "\n"` per piece of `strings.Split(comment, "\n")` |
| Wishfix.WriteSection | wishfix/wishfixFmt.go:22-45 | appends a section's title line, comment lines, gap, indented body, newline and `---` break, in that order |
| Wishfix.MarshalHunks | wishfix/wishfixFmt.go:11-49 | appends exactly `Rendered(h)`, the header and then every section in order, to what the writer held, and returns a nil error |
| Wishfix.RenderedNoSections | wishfix/wishfixFmt.go:12-21 | with no sections only the header `"# " + title + "\n\n---\n"` is written |
| Wishfix.RenderedAppend | wishfix/wishfixFmt.go:21-46 | one more section appends exactly that section's rendering |
| Wishfix.CommentBlockOneLine | wishfix/wishfixFmt.go:27-34 | a non-empty comment without a newline is written as the single line `"## " + comment + "\n"` |
| Wishfix.CommentLinesShape | wishfix/wishfixFmt.go:27-34 | every comment line is a complete line opening with `"## "`, none is a section break, and together they make the comment block |
| Wishfix.CommentRoundTrip | wishfix/wishfixFmt.go:27-34 | the texts between `"## "` and the newline, joined with `"\n"`, give the comment back |
| Wishfix.CommentTrailingNewline | wishfix/wishfixFmt.go:28-33 | a comment ending in a newline gets a last, empty `"## "` line |
| Wishfix.BodyLinesShape | wishfix/wishfixFmt.go:39-40 | the indented body and the newline after it are complete lines; each opens with a tab or is a blank line, so the body never contains a section break |
| Wishfix.BodyLinesOfLines | wishfix/wishfixFmt.go:39-40 | a body made of complete lines is written as those lines, each behind a tab, then a blank line |
| Wishfix.SectionLinesShape | wishfix/wishfixFmt.go:22-45 | a section with a one-line title is written as complete lines that join to its rendering; exactly one of them, the last, is a section break |
| Wishfix.SectionsLinesShape | wishfix/wishfixFmt.go:21-46 | the sections' lines join to the rendering of all the sections and hold exactly one break per section |
| Wishfix.RenderedLayout | wishfix/wishfixFmt.go:11-49 | with one-line titles the output splits into exactly the header lines and then each section's lines, all complete, and exactly `|sections| + 1` of them are `---` breaks |
| WishfixTest.DedentHeredoc | wishfix/wishfixFmt_test.go:20-41 | the heredoc form of the expected text, two tabs deep and ending in a tab, dedents to the expected lines |
| WishfixTest.GoldenLines | wishfix/wishfixFmt_test.go:12-18 | the lines written for the test's hunks are exactly the expected lines |
| WishfixTest.MarshalGolden | wishfix/wishfixFmt_test.go:10-41 | marshalling the test's hunks gives `wish.Dedent` of the test's expected heredoc, as `TestMarshal` asserts |

## Left out

- `wish.IndentBytes`, which the serializer calls on the body, is not part of this model. It is taken to be `Indent` over bytes, and `WriteSection` calls `Indent`.
- Strings and byte slices are both sequences of `char`; UTF-8 decoding is not modelled. Dedent's `range` over runes only compares with `'\t'`, and `line[i:]` uses the byte offset of the first rune that is not skipped. Both give the same result on characters.
- Wishfix.Buffer.Write: an `io.Writer` that fails or writes short is not modelled. The source ignores the result of every write, so marshalHunks always returns a nil error; `MarshalHunks` returns `None` accordingly.
- Wish.Dedent: the source returns `""` when no line is left after the blank first line is dropped. That branch cannot be reached, because `strings.SplitAfter` always returns a last piece. The method keeps the test and returns its empty buffer there.
- The rest of the repository is not part of this model: the checkers and the `Wish` assertion entry point (`checkers.go`, `wish.go`), the diff rendering (`diffStr.go`), the `testing.T` reporting, and the example and checker tests.
- The wishfix parser is not part of this model, so no parse-after-marshal round trip is stated. `RenderedLayout` and `CommentRoundTrip` state what a reader of the format can rely on.
- Titles containing a newline are written as given. `RenderedLayout` assumes one-line titles (`PlainTitles`), because a title with a newline breaks the line layout. `MarshalHunks` and `Rendered` have no such assumption.
- The doc comment of Dedent says the depth comes from the "first non-empty line". The code takes it from the first line left after one blank line is dropped. The model follows the code; `DedentBlankSecondLine` states the difference.
- `Dedent(Indent(x)) == x` does not hold for every `x`. `DedentIndent` proves it holds exactly when `x` is empty or does not open with a tab.
