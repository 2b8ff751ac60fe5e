/** Line splitting as the Go standard library does it for the separator "\n":
    `strings.SplitAfter(s, "\n")` (pieces keep their "\n") and
    `strings.Split(s, "\n")` (pieces drop it).  Both always yield one more
    piece than `s` has newlines; the last piece may be empty. */
module Lines {

  /** Number of '\n' characters in s. */
  function NewlineCount(s: string): nat
  {
    if s == [] then 0 else (if s[0] == '\n' then 1 else 0) + NewlineCount(s[1..])
  }

  /** The pieces joined end to end. */
  function Concat(ps: seq<string>): string
  {
    if ps == [] then [] else ps[0] + Concat(ps[1..])
  }

  lemma {:induction false} ConcatAppend(ps: seq<string>, qs: seq<string>)
    ensures Concat(ps + qs) == Concat(ps) + Concat(qs)
  {
    if ps == [] {
      assert ps + qs == qs;
    } else {
      assert (ps + qs)[1..] == ps[1..] + qs;
      ConcatAppend(ps[1..], qs);
    }
  }

  lemma ConcatOne(p: string)
    ensures Concat([p]) == p
  {
    assert Concat([p]) == p + Concat([]);
  }

  lemma AppendAssoc(a: string, b: string, c: string)
    ensures (a + b) + c == a + (b + c)
  {
  }

  lemma Regroup(a: string, b: string, c: string, d: string)
    ensures a + (b + c) + d == a + b + (c + d)
  {
  }

  /** Concat over one more prefix element, the step of a loop that appends
      piece after piece. */
  lemma ConcatPrefixStep(ps: seq<string>, i: nat)
    requires i < |ps|
    ensures Concat(ps[..i + 1]) == Concat(ps[..i]) + ps[i]
  {
    assert ps[..i + 1] == ps[..i] + [ps[i]];
    ConcatAppend(ps[..i], [ps[i]]);
    ConcatOne(ps[i]);
  }

  /** The same step after a fixed prefix a, as the invariant of such a loop
      states it. */
  lemma ConcatPrefixAppend(a: string, ps: seq<string>, i: nat)
    requires i < |ps|
    ensures a + Concat(ps[..i]) + ps[i] == a + Concat(ps[..i + 1])
  {
    ConcatPrefixStep(ps, i);
  }

  /** A complete line: ends in its only '\n'. */
  predicate IsFullLine(p: string)
  {
    |p| > 0 && p[|p| - 1] == '\n' && '\n' !in p[..|p| - 1]
  }

  /** The shape of what SplitAfter returns: every piece but the last is a
      complete line, and the last piece holds no '\n' (it may be empty). */
  predicate WellFormedLines(ps: seq<string>)
  {
    && |ps| > 0
    && (forall i | 0 <= i < |ps| - 1 :: IsFullLine(ps[i]))
    && '\n' !in ps[|ps| - 1]
  }

  /** strings.SplitAfter(s, "\n"). */
  function SplitAfter(s: string): (r: seq<string>)
    ensures |r| == NewlineCount(s) + 1
    ensures s != [] ==> r[0] != [] && r[0][0] == s[0]
    decreases |s|
  {
    if s == [] then [[]]
    else if s[0] == '\n' then [[s[0]]] + SplitAfter(s[1..])
    else
      var rest := SplitAfter(s[1..]);
      [[s[0]] + rest[0]] + rest[1..]
  }

  /** Joined, the pieces of SplitAfter(s) give s back. */
  lemma {:induction false} SplitAfterJoin(s: string)
    ensures Concat(SplitAfter(s)) == s
    decreases |s|
  {
    if s != [] {
      var r := SplitAfter(s);
      var rest := SplitAfter(s[1..]);
      SplitAfterJoin(s[1..]);
      if s[0] == '\n' {
        assert r == ["\n"] + rest;
        assert r[1..] == rest;
      } else {
        var first := [s[0]] + rest[0];
        assert r == [first] + rest[1..];
        assert Concat(rest) == rest[0] + Concat(rest[1..]);
        assert Concat(r) == first + Concat(rest[1..]);
      }
    }
  }

  /** The pieces of SplitAfter(s) are its lines: joined they give s back,
      and each but the last ends in its only newline. */
  lemma {:induction false} SplitAfterLines(s: string)
    ensures Concat(SplitAfter(s)) == s
    ensures WellFormedLines(SplitAfter(s))
    decreases |s|
  {
    SplitAfterJoin(s);
    if s != [] {
      var r := SplitAfter(s);
      var rest := SplitAfter(s[1..]);
      SplitAfterLines(s[1..]);
      if s[0] == '\n' {
        assert r == ["\n"] + rest;
        assert IsFullLine("\n");
        forall i | 0 <= i < |r| - 1
          ensures IsFullLine(r[i])
        {
          if i > 0 {
            assert r[i] == rest[i - 1];
          }
        }
      } else {
        var first := [s[0]] + rest[0];
        assert r == [first] + rest[1..];
        if |rest| > 1 {
          assert IsFullLine(rest[0]);
          assert first[..|first| - 1] == [s[0]] + rest[0][..|rest[0]| - 1];
        }
        forall i | 0 <= i < |r| - 1
          ensures IsFullLine(r[i])
        {
          if i > 0 {
            assert r[i] == rest[i];
          }
        }
      }
    }
  }

  /** A piece without '\n' is its own single line. */
  lemma {:induction false} SplitAfterNoNewline(p: string)
    requires '\n' !in p
    ensures SplitAfter(p) == [p]
    decreases |p|
  {
    if p != [] {
      assert '\n' !in p[1..];
      SplitAfterNoNewline(p[1..]);
      assert p[0] != '\n';
      assert [p[0]] + p[1..] == p;
    }
  }

  /** A complete line in front splits off as the first piece. */
  lemma {:induction false} SplitAfterFullLine(p: string, t: string)
    requires IsFullLine(p)
    ensures SplitAfter(p + t) == [p] + SplitAfter(t)
    decreases |p|
  {
    if |p| == 1 {
      assert p == "\n";
      assert (p + t)[1..] == t;
    } else {
      assert (p + t)[1..] == p[1..] + t;
      assert p[1..][..|p[1..]| - 1] == p[..|p| - 1][1..];
      SplitAfterFullLine(p[1..], t);
      assert p[0] in p[..|p| - 1];
      assert (p + t)[0] == p[0] != '\n';
      assert [p[0]] + p[1..] == p;
    }
  }

  /** SplitAfter undoes Concat on well-formed pieces: the pieces are the lines. */
  lemma {:induction false} SplitAfterConcat(ps: seq<string>)
    requires WellFormedLines(ps)
    ensures SplitAfter(Concat(ps)) == ps
    decreases |ps|
  {
    if |ps| == 1 {
      assert Concat(ps) == ps[0];
      SplitAfterNoNewline(ps[0]);
    } else {
      assert IsFullLine(ps[0]);
      assert WellFormedLines(ps[1..]) by {
        forall i | 0 <= i < |ps[1..]| - 1 ensures IsFullLine(ps[1..][i]) {
          assert ps[1..][i] == ps[i + 1];
        }
      }
      SplitAfterFullLine(ps[0], Concat(ps[1..]));
      SplitAfterConcat(ps[1..]);
    }
  }

  /** strings.Join(ps, "\n"). */
  function JoinLines(ps: seq<string>): string
    requires |ps| > 0
  {
    if |ps| == 1 then ps[0] else ps[0] + "\n" + JoinLines(ps[1..])
  }

  /** strings.Split(s, "\n"). */
  function SplitLines(s: string): (r: seq<string>)
    ensures |r| == NewlineCount(s) + 1
    decreases |s|
  {
    if s == [] then [[]]
    else if s[0] == '\n' then
      var rest := SplitLines(s[1..]);
      [[]] + rest
    else
      var rest := SplitLines(s[1..]);
      [[s[0]] + rest[0]] + rest[1..]
  }

  /** The pieces of strings.Split(s, "\n") hold no '\n'. */
  lemma {:induction false} SplitLinesPieces(s: string)
    ensures forall i | 0 <= i < |SplitLines(s)| :: '\n' !in SplitLines(s)[i]
    decreases |s|
  {
    if s != [] {
      var r := SplitLines(s);
      var rest := SplitLines(s[1..]);
      SplitLinesPieces(s[1..]);
      if s[0] == '\n' {
        assert r == [[]] + rest;
      } else {
        assert r == [[s[0]] + rest[0]] + rest[1..];
        forall i | 0 <= i < |r|
          ensures '\n' !in r[i]
        {
          if i > 0 {
            assert r[i] == rest[i];
          }
        }
      }
    }
  }

  /** The pieces of strings.Split(s, "\n") hold no '\n', and joining them
      with "\n" gives s back. */
  lemma {:induction false} SplitLinesJoin(s: string)
    ensures forall i | 0 <= i < |SplitLines(s)| :: '\n' !in SplitLines(s)[i]
    ensures JoinLines(SplitLines(s)) == s
    decreases |s|
  {
    SplitLinesPieces(s);
    if s != [] {
      var r := SplitLines(s);
      var rest := SplitLines(s[1..]);
      SplitLinesJoin(s[1..]);
      if s[0] == '\n' {
        assert r == [[]] + rest && r[1..] == rest;
        assert JoinLines(r) == [] + "\n" + JoinLines(rest);
      } else {
        assert r == [[s[0]] + rest[0]] + rest[1..];
        if |rest| == 1 {
          assert JoinLines(rest) == rest[0];
        } else {
          assert r[1..] == rest[1..];
          assert JoinLines(rest) == rest[0] + "\n" + JoinLines(rest[1..]);
        }
        assert [s[0]] + s[1..] == s;
      }
    }
  }

  /** strings.Split of a piece without '\n' is that piece alone. */
  lemma {:induction false} SplitLinesNoNewline(s: string)
    requires '\n' !in s
    ensures SplitLines(s) == [s]
    decreases |s|
  {
    if s != [] {
      assert '\n' !in s[1..];
      SplitLinesNoNewline(s[1..]);
      assert [s[0]] + s[1..] == s;
    }
  }

  lemma {:induction false} NewlineCountLast(s: string)
    requires s != [] && s[|s| - 1] == '\n'
    ensures NewlineCount(s) > 0
    decreases |s|
  {
    if s[0] != '\n' {
      NewlineCountLast(s[1..]);
    }
  }

  /** strings.Split of a string ending in "\n" ends with an empty piece. */
  lemma {:induction false} SplitLinesTrailing(s: string)
    requires s != [] && s[|s| - 1] == '\n'
    ensures SplitLines(s)[|SplitLines(s)| - 1] == ""
    decreases |s|
  {
    if |s| == 1 {
      assert s[1..] == [];
      assert SplitLines(s) == [[]] + [[]];
    } else {
      SplitLinesTrailing(s[1..]);
      assert s[1..][|s[1..]| - 1] == '\n';
      assert NewlineCount(s[1..]) > 0 by {
        NewlineCountLast(s[1..]);
      }
    }
  }

  /** Every piece a complete line. */
  predicate AllFullLines(ps: seq<string>)
  {
    forall i | 0 <= i < |ps| :: IsFullLine(ps[i])
  }

  /** Complete lines and then a last piece without '\n' are what SplitAfter
      returns for their concatenation. */
  lemma SplitAfterLinesThen(ps: seq<string>, last: string)
    requires AllFullLines(ps) && '\n' !in last
    ensures SplitAfter(Concat(ps) + last) == ps + [last]
  {
    var qs := ps + [last];
    assert WellFormedLines(qs) by {
      forall i | 0 <= i < |qs| - 1
        ensures IsFullLine(qs[i])
      {
        assert qs[i] == ps[i];
      }
    }
    SplitAfterConcat(qs);
    ConcatAppend(ps, [last]);
    ConcatOne(last);
  }

  /** ... in particular complete lines followed by the empty last piece. */
  lemma SplitAfterFullLines(ps: seq<string>)
    requires AllFullLines(ps)
    ensures SplitAfter(Concat(ps)) == ps + [""]
  {
    SplitAfterLinesThen(ps, "");
    assert Concat(ps) + "" == Concat(ps);
  }

  lemma AllFullLinesTail(ps: seq<string>)
    requires |ps| > 0 && AllFullLines(ps)
    ensures IsFullLine(ps[0]) && AllFullLines(ps[1..])
  {
    forall i | 0 <= i < |ps| - 1
      ensures IsFullLine(ps[1..][i])
    {
      assert ps[1..][i] == ps[i + 1];
    }
  }

  lemma AllFullLinesAppend(ps: seq<string>, qs: seq<string>)
    requires AllFullLines(ps) && AllFullLines(qs)
    ensures AllFullLines(ps + qs)
  {
    forall i | 0 <= i < |ps + qs|
      ensures IsFullLine((ps + qs)[i])
    {
      if i < |ps| {
        assert (ps + qs)[i] == ps[i];
      } else {
        assert (ps + qs)[i] == qs[i - |ps|];
      }
    }
  }

  /** Writing "\n" after well-formed pieces closes their last piece: the
      result is all complete lines. */
  function CloseLast(ps: seq<string>): seq<string>
    requires |ps| > 0
  {
    ps[..|ps| - 1] + [ps[|ps| - 1] + "\n"]
  }

  lemma CloseLastLines(ps: seq<string>)
    requires WellFormedLines(ps)
    ensures AllFullLines(CloseLast(ps))
    ensures Concat(CloseLast(ps)) == Concat(ps) + "\n"
  {
    var n := |ps| - 1;
    var last := ps[n] + "\n";
    assert last[..|last| - 1] == ps[n];
    forall i | 0 <= i < |CloseLast(ps)|
      ensures IsFullLine(CloseLast(ps)[i])
    {
      if i < n {
        assert CloseLast(ps)[i] == ps[i];
      }
    }
    assert ps == ps[..n] + [ps[n]];
    ConcatAppend(ps[..n], [ps[n]]);
    ConcatAppend(ps[..n], [last]);
    ConcatOne(ps[n]);
    ConcatOne(last);
  }
}
