/** The header passes of the renderer: `/^# (.*$)/gim`, then `/^## (.*$)/gim`,
    then `/^### (.*$)/gim`, each a global `String.prototype.replace` that turns
    a marked line into an `<hN>` element with a fixed class string. */
module Headers {
  import opened Text

  type Level = n: int | 1 <= n <= 3 witness 1

  /** The literal that starts a header line of the given level. */
  function Marker(level: Level): string {
    if level == 1 then "# " else if level == 2 then "## " else "### "
  }

  function Open(level: Level): string {
    if level == 1 then "<h1 class=\"text-2xl font-bold my-4\">"
    else if level == 2 then "<h2 class=\"text-xl font-bold my-3\">"
    else "<h3 class=\"text-lg font-bold my-2\">"
  }

  function Close(level: Level): string {
    if level == 1 then "</h1>" else if level == 2 then "</h2>" else "</h3>"
  }

  /** The global replace of `^<marker>(.*$)` (flags `gim`) over `s`, where
      `atLineStart` says whether `^` holds at the start of `s`. A match ends at
      the end of its line, just after a non-terminator, so `^` fails there. */
  function HeaderScan(level: Level, s: string, atLineStart: bool): string
    decreases |s|
  {
    if s == [] then
      []
    else if atLineStart && Marker(level) <= s then
      var m := |Marker(level)|;
      var e := m + LineLength(s[m..]);
      Open(level) + s[m..e] + Close(level) + HeaderScan(level, s[e..], false)
    else
      [s[0]] + HeaderScan(level, s[1..], IsLineTerminator(s[0]))
  }

  /** One header pass over a whole input; `^` holds at position 0. */
  function Header(level: Level, s: string): string {
    HeaderScan(level, s, true)
  }

  /** The three passes in the order the renderer applies them. */
  function HeaderPasses(s: string): string {
    Header(3, Header(2, Header(1, s)))
  }

  /** What one pass does to a single line. */
  function HeaderLine(level: Level, l: string): string {
    if Marker(level) <= l then Open(level) + l[|Marker(level)|..] + Close(level) else l
  }

  /** What the three passes do to a single line: the marker with exactly
      `N` hashes and a space makes it an `<hN>` element. */
  function HeadersLine(l: string): string {
    if "# " <= l then Open(1) + l[2..] + Close(1)
    else if "## " <= l then Open(2) + l[3..] + Close(2)
    else if "### " <= l then Open(3) + l[4..] + Close(3)
    else l
  }

  /** The markers are disjoint: no line starts with two of them. */
  lemma MarkersDisjoint(l: string, i: Level, j: Level)
    requires Marker(i) <= l && Marker(j) <= l
    ensures i == j
  {
    assert l[|Marker(i)| - 1] == ' ' && l[|Marker(j)| - 1] == ' ';
  }

  /** A line of four or more hashes is left alone by all three passes. */
  lemma FourHashesNotHeader(l: string)
    requires "####" <= l
    ensures HeaderLine(1, l) == l && HeaderLine(2, l) == l && HeaderLine(3, l) == l
    ensures HeadersLine(l) == l
  {
    assert l[1] == '#' && l[2] == '#' && l[3] == '#';
  }

  lemma TagsNoTerminator(level: Level)
    ensures NoTerminator(Open(level)) && NoTerminator(Close(level))
  {
    if level == 1 {
      OpenNoTerminator1();
    } else if level == 2 {
      OpenNoTerminator2();
    } else {
      OpenNoTerminator3();
    }
  }

  lemma OpenNoTerminator1()
    ensures NoTerminator(Open(1))
  {
  }

  lemma OpenNoTerminator2()
    ensures NoTerminator(Open(2))
  {
  }

  lemma OpenNoTerminator3()
    ensures NoTerminator(Open(3))
  {
  }

  lemma HeaderLineNoTerminator(level: Level, l: string)
    requires NoTerminator(l)
    ensures NoTerminator(HeaderLine(level, l))
  {
    if Marker(level) <= l {
      var m := |Marker(level)|;
      TagsNoTerminator(level);
      assert NoTerminator(l[m..]);
      NoTerminatorConcat(Open(level), l[m..]);
      NoTerminatorConcat(Open(level) + l[m..], Close(level));
    }
  }

  /** Away from a line start nothing on the current line can match. */
  lemma {:induction false} HeaderScanMidLine(level: Level, l: string, r: string)
    requires NoTerminator(l)
    ensures HeaderScan(level, l + r, false) == l + HeaderScan(level, r, false)
    decreases |l|
  {
    if l == [] {
      assert l + r == r;
    } else {
      var s := l + r;
      assert s[0] == l[0] && !IsLineTerminator(l[0]);
      assert s[1..] == l[1..] + r;
      HeaderScanMidLine(level, l[1..], r);
      assert HeaderScan(level, s, false) == [l[0]] + HeaderScan(level, l[1..] + r, false);
      assert l == [l[0]] + l[1..];
    }
  }

  /** A marked line becomes its header element. */
  lemma HeaderScanMarked(level: Level, l: string, r: string)
    requires NoTerminator(l) && (r == [] || IsLineTerminator(r[0]))
    requires Marker(level) <= l
    ensures HeaderScan(level, l + r, true) == Open(level) + l[|Marker(level)|..] + Close(level) + HeaderScan(level, r, false)
  {
    var s, m := l + r, |Marker(level)|;
    assert Marker(level) <= s;
    assert s[m..] == l[m..] + r;
    LineLengthOfLine(l[m..], r);
    assert s[m..|l|] == l[m..];
    assert s[|l|..] == r;
  }

  /** At a line start, a pass rewrites the line `l` by `HeaderLine` and
      resumes at the end of that line. */
  lemma HeaderScanLine(level: Level, l: string, r: string)
    requires NoTerminator(l) && (r == [] || IsLineTerminator(r[0]))
    ensures HeaderScan(level, l + r, true) == HeaderLine(level, l) + HeaderScan(level, r, false)
  {
    var s := l + r;
    PrefixWithinLine(Marker(level), l, r);
    if Marker(level) <= l {
      HeaderScanMarked(level, l, r);
    } else if l == [] {
      assert s == r;
    } else {
      assert s[0] == l[0] && !IsLineTerminator(l[0]);
      assert s[1..] == l[1..] + r;
      HeaderStep(level, s, true);
      HeaderScanMidLine(level, l[1..], r);
      ConsSplit(l, HeaderScan(level, r, false));
    }
  }

  /** A pass over a line break: the line before it, the break, and the rest
      scanned from a line start. */
  lemma HeaderScanBreak(level: Level, l: string, t: char, r: string)
    requires NoTerminator(l) && IsLineTerminator(t)
    ensures HeaderScan(level, l + [t] + r, true) == HeaderLine(level, l) + [t] + HeaderScan(level, r, true)
  {
    var u := [t] + r;
    assert l + [t] + r == l + u;
    HeaderScanLine(level, l, u);
    assert u[0] == t && u[1..] == r;
    HeaderStep(level, u, false);
    Assoc(HeaderLine(level, l), [t], HeaderScan(level, r, true));
  }

  /** Where no header match starts, a pass copies one character. */
  lemma HeaderStep(level: Level, s: string, atLineStart: bool)
    requires s != [] && !(atLineStart && Marker(level) <= s)
    ensures HeaderScan(level, s, atLineStart) == [s[0]] + HeaderScan(level, s[1..], IsLineTerminator(s[0]))
  {
  }

  /** Text without `#` is left alone by a pass. */
  lemma {:induction false} HeaderNoHash(level: Level, s: string, atLineStart: bool)
    requires '#' !in s
    ensures HeaderScan(level, s, atLineStart) == s
    decreases |s|
  {
    if s != [] {
      assert s[0] != Marker(level)[0];
      HeaderNoHash(level, s[1..], IsLineTerminator(s[0]));
      assert s == [s[0]] + s[1..];
    }
  }

  /** Complete lines without `#` in front of the rest: a pass copies them and
      goes on at a line start. */
  lemma {:induction false} HeaderPlainLines(level: Level, a: string, r: string, atLineStart: bool)
    requires '#' !in a && a != [] && IsLineTerminator(a[|a| - 1])
    ensures HeaderScan(level, a + r, atLineStart) == a + HeaderScan(level, r, true)
    decreases |a|
  {
    var s := a + r;
    assert s[0] == a[0] && s[1..] == a[1..] + r;
    assert !(Marker(level) <= s) by {
      assert Marker(level)[0] == '#' && a[0] in a;
    }
    HeaderStep(level, s, atLineStart);
    if |a| == 1 {
      assert a[1..] + r == r && a == [a[0]];
    } else {
      HeaderPlainLines(level, a[1..], r, IsLineTerminator(a[0]));
      ConsSplit(a, HeaderScan(level, r, true));
    }
  }

  /** A header line after complete lines without `#`: the three passes turn
      it into an `<h1>` element and keep the lines before it. */
  lemma HeaderAfterPlainLines(a: string, h: string)
    requires '#' !in a && a != [] && IsLineTerminator(a[|a| - 1])
    requires NoTerminator(h)
    ensures HeaderPasses(a + ("# " + h)) == a + (Open(1) + h + Close(1))
  {
    var l, e := "# " + h, Open(1) + h + Close(1);
    assert NoTerminator(l) && l[2..] == h && l + [] == l;
    HeaderPlainLines(1, a, l, true);
    HeaderScanMarked(1, l, []);
    assert e + HeaderScan(1, [], false) == e;
    TagsNoTerminator(1);
    NoTerminatorConcat(Open(1), h);
    NoTerminatorConcat(Open(1) + h, Close(1));
    TagStartsLine(1, h);
    assert e + [] == e;
    HeaderPlainLines(2, a, e, true);
    HeaderScanLine(2, e, []);
    TagLineKept(2, e);
    HeaderPlainLines(3, a, e, true);
    HeaderScanLine(3, e, []);
    TagLineKept(3, e);
  }

  /** Text without `#` is left alone by the header passes. */
  lemma HeadersNoHash(s: string)
    requires '#' !in s
    ensures HeaderPasses(s) == s
  {
    HeaderNoHash(1, s, true);
    HeaderNoHash(2, s, true);
    HeaderNoHash(3, s, true);
  }

  /** Each header pass rewrites every line on its own, by `HeaderLine`. */
  lemma {:induction false} HeaderByLines(level: Level, s: string)
    ensures Header(level, s) == MapLines(l => HeaderLine(level, l), s)
    decreases |s|
  {
    var n := LineLength(s);
    LineLengthMeaning(s);
    if n == |s| {
      assert s[..n] == s && s == s + [];
      HeaderScanLine(level, s, []);
    } else {
      var l, t, r := s[..n], s[n], s[n + 1..];
      assert s == l + [t] + r;
      HeaderScanBreak(level, l, t, r);
      HeaderByLines(level, r);
    }
  }

  /** On one line, the three passes in order give `HeadersLine`: a line made
      a header by one pass starts with `<` and no later pass touches it. */
  lemma HeaderLinesCompose(l: string)
    ensures HeaderLine(3, HeaderLine(2, HeaderLine(1, l))) == HeadersLine(l)
  {
    if "# " <= l {
      var h := Open(1) + l[2..] + Close(1);
      assert HeaderLine(1, l) == h;
      TagStartsLine(1, l[2..]);
      TagLineKept(2, h);
      TagLineKept(3, h);
    } else if "## " <= l {
      var h := Open(2) + l[3..] + Close(2);
      assert HeaderLine(1, l) == l by {
        assert l[1] == '#';
      }
      assert HeaderLine(2, l) == h;
      TagStartsLine(2, l[3..]);
      TagLineKept(3, h);
    } else if "### " <= l {
      assert HeaderLine(1, l) == l && HeaderLine(2, l) == l by {
        assert l[1] == '#' && l[2] == '#';
      }
    }
  }

  /** A header element starts with `<`. */
  lemma TagStartsLine(level: Level, x: string)
    ensures (Open(level) + x + Close(level))[0] == '<'
  {
    assert (Open(level) + x + Close(level))[0] == Open(level)[0];
  }

  /** A line that starts with `<` carries no header marker. */
  lemma TagLineKept(level: Level, h: string)
    requires h != [] && h[0] == '<'
    ensures HeaderLine(level, h) == h
  {
    assert Marker(level)[0] == '#';
  }

  /** The three header passes together rewrite every line on its own, by
      `HeadersLine`: `# T`, `## T` and `### T` become the matching element and
      every other line is kept. */
  lemma HeadersByLines(s: string)
    ensures HeaderPasses(s) == MapLines(HeadersLine, s)
  {
    var f1 := l => HeaderLine(1, l);
    var f2 := l => HeaderLine(2, l);
    var f3 := l => HeaderLine(3, l);
    forall l | NoTerminator(l) ensures NoTerminator(f1(l)) && NoTerminator(f2(l)) {
      HeaderLineNoTerminator(1, l);
      HeaderLineNoTerminator(2, l);
    }
    HeaderByLines(1, s);
    HeaderByLines(2, Header(1, s));
    MapLinesCompose(f1, f2, s);
    var f12 := x => f2(f1(x));
    forall l | NoTerminator(l) ensures NoTerminator(f12(l)) {
      HeaderLineNoTerminator(1, l);
      HeaderLineNoTerminator(2, f1(l));
    }
    HeaderByLines(3, Header(2, Header(1, s)));
    MapLinesCompose(f12, f3, s);
    forall l | NoTerminator(l) ensures f3(f12(l)) == HeadersLine(l) {
      HeaderLinesCompose(l);
    }
    MapLinesCongruent(x => f3(f12(x)), HeadersLine, s);
  }
}
