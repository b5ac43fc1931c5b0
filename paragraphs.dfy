/** The paragraph pass of the renderer, `/^([^<].*)\n$/gm`. At a line start
    it takes one character other than `<` (a line terminator included), the
    rest of that line, a line feed, and then needs `$`: the end of the input or
    another line terminator. The line feed is dropped. */
module Paragraphs {
  import opened Text

  const ParaOpen := "<p class=\"my-2\">"
  const ParaClose := "</p>"

  /** A match of the paragraph pattern at the start of `s`: the index of the
      line feed that ends the captured text. */
  function ParaMatch(s: string): (r: Option<nat>)
    ensures r.Some? ==> 1 <= r.value < |s| && s[0] != '<' && s[r.value] == '\n'
    ensures r.Some? ==> NoTerminator(s[1..r.value])
    ensures r.Some? ==> r.value + 1 == |s| || IsLineTerminator(s[r.value + 1])
  {
    if s != [] && s[0] != '<' then
      var e := 1 + LineLength(s[1..]);
      LineLengthMeaning(s[1..]);
      assert s[1..][..e - 1] == s[1..e];
      if e < |s| && s[e] == '\n' && (e + 1 == |s| || IsLineTerminator(s[e + 1])) then Some(e) else None
    else
      None
  }

  /** The global replace of the paragraph pattern over `s`, where `atLineStart`
      says whether `^` holds at the start of `s`. A match ends just after a
      line feed, so `^` holds where it ends. */
  function ParaScan(s: string, atLineStart: bool): string
    decreases |s|
  {
    if s == [] then
      []
    else if atLineStart && ParaMatch(s).Some? then
      var e := ParaMatch(s).value;
      ParaOpen + s[..e] + ParaClose + ParaScan(s[e + 1..], true)
    else
      [s[0]] + ParaScan(s[1..], IsLineTerminator(s[0]))
  }

  /** The pass over a whole input; `^` holds at position 0. */
  function ParagraphPass(s: string): string {
    ParaScan(s, true)
  }

  /** Puts back what the pass took out: the opening tag goes and the closing
      tag becomes the line feed it replaced. */
  function Unparagraph(s: string): string
    decreases |s|
  {
    if s == [] then []
    else if ParaOpen <= s then Unparagraph(s[|ParaOpen|..])
    else if ParaClose <= s then "\n" + Unparagraph(s[|ParaClose|..])
    else [s[0]] + Unparagraph(s[1..])
  }

  lemma ParaStep(s: string, atLineStart: bool)
    requires s != [] && !(atLineStart && ParaMatch(s).Some?)
    ensures ParaScan(s, atLineStart) == [s[0]] + ParaScan(s[1..], IsLineTerminator(s[0]))
  {
  }

  lemma ParaStepMatch(s: string, e: nat)
    requires ParaMatch(s) == Some(e)
    ensures ParaScan(s, true) == ParaOpen + s[..e] + ParaClose + ParaScan(s[e + 1..], true)
  {
    assert s != [];
  }

  /** Away from a line start nothing on the current line can match. */
  lemma {:induction false} ParaMidLine(l: string, r: string)
    requires NoTerminator(l)
    ensures ParaScan(l + r, false) == l + ParaScan(r, false)
    decreases |l|
  {
    if l == [] {
      assert l + r == r;
    } else {
      var s := l + r;
      assert s[0] == l[0] && !IsLineTerminator(l[0]);
      assert s[1..] == l[1..] + r;
      ParaStep(s, false);
      ParaMidLine(l[1..], r);
      ConsSplit(l, ParaScan(r, false));
    }
  }

  /** A line that is the last of the input, its terminator missing, is never
      wrapped: the pattern needs a line feed after it. */
  lemma ParaLastLine(l: string, atLineStart: bool)
    requires NoTerminator(l)
    ensures ParaScan(l, atLineStart) == l
  {
    if l != [] {
      assert ParaMatch(l).None? by {
        if l[0] != '<' {
          assert NoTerminator(l[1..]);
          LineLengthOfLine(l[1..], []);
          assert l[1..] + [] == l[1..];
        }
      }
      ParaStep(l, atLineStart);
      ParaMidLine(l[1..], []);
      assert l[1..] + [] == l[1..];
      ConsSplit(l, []);
      assert l + [] == l;
    }
  }

  /** A line that starts with `<` is never wrapped. */
  lemma ParaTagLine(l: string, r: string)
    requires l != [] && l[0] == '<' && NoTerminator(l)
    ensures ParaScan(l + r, true) == l + ParaScan(r, false)
  {
    var s := l + r;
    assert s[0] == '<' && s[1..] == l[1..] + r;
    ParaStep(s, true);
    ParaMidLine(l[1..], r);
    ConsSplit(l, ParaScan(r, false));
  }

  /** A line `l` that does not start with `<`, its line feed, and then the end
      of the input or another line terminator: the line is wrapped, the line
      feed dropped, and the scan goes on at a line start. */
  lemma ParaWrap(l: string, r: string)
    requires l != [] && l[0] != '<' && NoTerminator(l[1..])
    requires r == [] || IsLineTerminator(r[0])
    ensures ParaScan(l + ("\n" + r), true) == ParaOpen + l + ParaClose + ParaScan(r, true)
  {
    var s := l + ("\n" + r);
    var e := |l|;
    assert s[1..] == l[1..] + ("\n" + r);
    LineLengthOfLine(l[1..], "\n" + r);
    assert s[e] == '\n' && s[e + 1..] == r && s[..e] == l;
    ParaStepMatch(s, e);
  }

  /** A line that is not empty, followed by a line feed and more text on the
      next line, is not wrapped. */
  lemma ParaFollowedByText(l: string, r: string)
    requires l != [] && NoTerminator(l) && r != [] && !IsLineTerminator(r[0])
    ensures ParaScan(l + ("\n" + r), true) == l + "\n" + ParaScan(r, true)
  {
    var s := l + ("\n" + r);
    assert s[1..] == l[1..] + ("\n" + r);
    assert ParaMatch(s).None? by {
      if s[0] != '<' {
        LineLengthOfLine(l[1..], "\n" + r);
        assert s[|l|] == '\n' && s[|l| + 1] == r[0];
      }
    }
    ParaAfterFirst(l, r);
  }

  /** Helper for `ParaFollowedByText`: without a match at the start, the line
      is copied and the scan goes on after its line feed at a line start. */
  lemma ParaAfterFirst(l: string, r: string)
    requires l != [] && NoTerminator(l) && ParaMatch(l + ("\n" + r)).None?
    ensures ParaScan(l + ("\n" + r), true) == l + "\n" + ParaScan(r, true)
  {
    var s := l + ("\n" + r);
    assert s[0] == l[0] && s[1..] == l[1..] + ("\n" + r);
    ParaStep(s, true);
    ParaMidLine(l[1..], "\n" + r);
    assert ("\n" + r)[1..] == r;
    ParaStep("\n" + r, false);
    ConsSplit(l, "\n" + ParaScan(r, true));
    Assoc(l, "\n", ParaScan(r, true));
  }

  lemma {:induction false} UnparagraphPlain(x: string, rest: string)
    requires '<' !in x
    ensures Unparagraph(x + rest) == x + Unparagraph(rest)
    decreases |x|
  {
    if x == [] {
      assert x + rest == rest;
    } else {
      var s := x + rest;
      assert s[0] == x[0] && s[0] != '<';
      assert s[1..] == x[1..] + rest;
      UnparagraphPlain(x[1..], rest);
      ConsSplit(x, Unparagraph(rest));
    }
  }

  lemma UnparagraphTags(y: string)
    ensures Unparagraph(ParaOpen + y) == Unparagraph(y)
    ensures Unparagraph(ParaClose + y) == "\n" + Unparagraph(y)
  {
    assert (ParaOpen + y)[|ParaOpen|..] == y;
    assert (ParaClose + y)[|ParaClose|..] == y;
    assert !(ParaOpen <= ParaClose + y) by {
      assert (ParaClose + y)[1] == '/';
    }
  }

  /** Undoing one wrapped paragraph. */
  lemma UnparagraphSpan(x: string, y: string)
    requires '<' !in x
    ensures Unparagraph(ParaOpen + x + ParaClose + y) == x + "\n" + Unparagraph(y)
  {
    Assoc(ParaOpen + x, ParaClose, y);
    Assoc(ParaOpen, x, ParaClose + y);
    UnparagraphTags(x + (ParaClose + y));
    UnparagraphPlain(x, ParaClose + y);
    UnparagraphTags(y);
    Assoc(x, "\n", Unparagraph(y));
  }

  /** The first step of the scan and how far it gets: on text without `<`,
      undoing what it emits restores the text it consumed. */
  lemma ParaHead(s: string, atLineStart: bool) returns (n: nat, next: bool)
    requires s != [] && '<' !in s
    ensures 0 < n <= |s|
    ensures Unparagraph(ParaScan(s, atLineStart)) == s[..n] + Unparagraph(ParaScan(s[n..], next))
  {
    if atLineStart && ParaMatch(s).Some? {
      var e := ParaMatch(s).value;
      n, next := e + 1, true;
      ParaHeadMatch(s, e);
    } else {
      n, next := 1, IsLineTerminator(s[0]);
      ParaStep(s, atLineStart);
      UnparagraphPlain([s[0]], ParaScan(s[1..], next));
    }
  }

  /** Helper for `ParaHead`: a wrapped paragraph is undone to its line and
      the line feed. */
  lemma ParaHeadMatch(s: string, e: nat)
    requires '<' !in s && ParaMatch(s) == Some(e)
    ensures Unparagraph(ParaScan(s, true)) == s[..e + 1] + Unparagraph(ParaScan(s[e + 1..], true))
  {
    var x, y := s[..e], ParaScan(s[e + 1..], true);
    assert ParaScan(s, true) == ParaOpen + x + ParaClose + y by {
      ParaStepMatch(s, e);
    }
    assert s[..e + 1] == x + "\n" by {
      assert s[e] == '\n';
    }
    assert '<' !in x;
    UnparagraphSpan(x, y);
  }

  /** Round trip: on text without `<`, undoing the pass restores the input. */
  lemma {:induction false} ParagraphsRoundTrip(s: string, atLineStart: bool)
    requires '<' !in s
    ensures Unparagraph(ParaScan(s, atLineStart)) == s
    decreases |s|
  {
    if s != [] {
      var n, next := ParaHead(s, atLineStart);
      ParagraphsRoundTrip(s[n..], next);
      assert s[..n] + s[n..] == s;
    }
  }
}
