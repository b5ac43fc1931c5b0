/** The last pass of the renderer, `/\n/g`: every line feed becomes a
    `<br />` element. Other line terminators are kept. */
module LineBreaks {
  const Break := "<br />"

  /** The global replace of a line feed by `Break`. */
  function BreakLines(s: string): (r: string)
    ensures '\n' !in r
    decreases |s|
  {
    if s == [] then [] else (if s[0] == '\n' then Break else [s[0]]) + BreakLines(s[1..])
  }

  /** The pass works on each part of a text on its own. */
  lemma {:induction false} BreakLinesConcat(a: string, b: string)
    ensures BreakLines(a + b) == BreakLines(a) + BreakLines(b)
    decreases |a|
  {
    if a == [] {
      assert a + b == b;
    } else {
      assert (a + b)[0] == a[0] && (a + b)[1..] == a[1..] + b;
      BreakLinesConcat(a[1..], b);
    }
  }

  /** A line feed becomes `<br />`; every other character is kept. */
  lemma BreakLinesChar(c: char)
    ensures BreakLines([c]) == if c == '\n' then Break else [c]
  {
    assert [c][1..] == [];
  }

  /** Text without line feeds is left alone. */
  lemma {:induction false} BreakLinesNone(s: string)
    requires '\n' !in s
    ensures BreakLines(s) == s
    decreases |s|
  {
    if s != [] {
      BreakLinesNone(s[1..]);
      assert s == [s[0]] + s[1..];
    }
  }

  /** Puts back the line feed of each `<br />`. */
  function Unbreak(s: string): string
    decreases |s|
  {
    if s == [] then []
    else if Break <= s then "\n" + Unbreak(s[|Break|..])
    else [s[0]] + Unbreak(s[1..])
  }

  /** Round trip: on text without `<`, putting the line feeds back undoes the
      pass. */
  lemma {:induction false} BreakLinesRoundTrip(s: string)
    requires '<' !in s
    ensures Unbreak(BreakLines(s)) == s
    decreases |s|
  {
    if s != [] {
      BreakLinesRoundTrip(s[1..]);
      var rest := BreakLines(s[1..]);
      if s[0] == '\n' {
        assert (Break + rest)[|Break|..] == rest;
        assert Unbreak(Break + rest) == "\n" + Unbreak(rest);
      } else {
        assert ([s[0]] + rest)[1..] == rest;
        assert Unbreak([s[0]] + rest) == [s[0]] + Unbreak(rest);
      }
      assert s == [s[0]] + s[1..];
    }
  }
}
