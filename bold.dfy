// The bold pass of the renderer: the pattern `\*\*(.*?)\*\*` with the flag
// `g`, replaced by `<strong>$1</strong>`.
module Bold {
  import opened Text

  const StrongOpen := "<strong>"
  const StrongClose := "</strong>"

  /** The pattern tried at the start of `s`: the length of the text between
      an opening `**` and the nearest `**` after it on the same line. */
  function BoldMatch(s: string): (r: Option<nat>)
    ensures r.Some? ==> "**" <= s && r.value + 4 <= |s| && OccursAt(s, "**", r.value + 2)
    ensures r.Some? ==> NoTerminator(s[2..2 + r.value])
    ensures r.Some? ==> forall j: nat :: 2 <= j < r.value + 2 ==> !OccursAt(s, "**", j)
    ensures r.None? ==>
      !("**" <= s) || forall j: nat :: 2 <= j <= |s| && NoTerminator(s[2..j]) ==> !OccursAt(s, "**", j)
  {
    if "**" <= s then
      var r := LazyFind(s[2..], "**");
      assert r.Some? ==> s[2..][..r.value] == s[2..2 + r.value];
      CloseShifted(s, r);
      r
    else
      None
  }

  /** The search for the closing `**` runs on the text after the opening one:
      its answer, read back at the positions of `s`. */
  lemma CloseShifted(s: string, r: Option<nat>)
    requires "**" <= s && r == LazyFind(s[2..], "**")
    ensures r.Some? ==> forall j: nat :: 2 <= j < r.value + 2 ==> !OccursAt(s, "**", j)
    ensures r.None? ==> forall j: nat :: 2 <= j <= |s| && NoTerminator(s[2..j]) ==> !OccursAt(s, "**", j)
  {
    var t := s[2..];
    forall j: nat | 2 <= j <= |s|
      ensures OccursAt(s, "**", j) == OccursAt(t, "**", j - 2)
      ensures s[2..j] == t[..j - 2]
    {
      if j + 2 <= |s| {
        assert t[j - 2..j] == s[j..j + 2];
      }
    }
  }

  /** The global replace of `\*\*(.*?)\*\*` over `s`: where the pattern matches,
      the span is wrapped and the scan resumes after the closing delimiter;
      elsewhere the scan moves on by one character. */
  function BoldScan(s: string): string
    decreases |s|
  {
    if s == [] then
      []
    else
      match BoldMatch(s)
      case Some(k) => StrongOpen + s[2..2 + k] + StrongClose + BoldScan(s[k + 4..])
      case None => [s[0]] + BoldScan(s[1..])
  }

  /** Puts the delimiters back: every `<strong>` and `</strong>` becomes `**`. */
  function Unbold(s: string): string
    decreases |s|
  {
    if s == [] then []
    else if StrongOpen <= s then "**" + Unbold(s[|StrongOpen|..])
    else if StrongClose <= s then "**" + Unbold(s[|StrongClose|..])
    else [s[0]] + Unbold(s[1..])
  }

  /** One step of the scan where the pattern does not match. */
  lemma BoldStep(s: string)
    requires s != [] && BoldMatch(s) == None
    ensures BoldScan(s) == [s[0]] + BoldScan(s[1..])
  {
  }

  /** One step of the scan where the pattern matches. */
  lemma BoldStepMatch(s: string, k: nat)
    requires BoldMatch(s) == Some(k)
    ensures BoldScan(s) == StrongOpen + s[2..2 + k] + StrongClose + BoldScan(s[k + 4..])
  {
    assert s != [];
  }

  /** `BoldStep` on a concatenation. */
  lemma BoldStepIn(a: string, rest: string)
    requires a != [] && BoldMatch(a + rest) == None
    ensures BoldScan(a + rest) == [a[0]] + BoldScan(a[1..] + rest)
  {
    var s := a + rest;
    assert s[0] == a[0] && s[1..] == a[1..] + rest;
    BoldStep(s);
  }

  /** `BoldStepMatch` on a concatenation whose first part holds the match. */
  lemma BoldStepMatchIn(l: string, r: string, k: nat)
    requires BoldMatch(l + r) == Some(k) && k + 4 <= |l|
    ensures BoldScan(l + r) == StrongOpen + l[2..2 + k] + StrongClose + BoldScan(l[k + 4..] + r)
  {
    var s := l + r;
    assert s[2..2 + k] == l[2..2 + k] && s[k + 4..] == l[k + 4..] + r;
    BoldStepMatch(s, k);
  }

  /** Text without a `**` is left as it is. */
  lemma {:induction false} BoldNoDelimiter(s: string)
    requires !Contains(s, "**")
    ensures BoldScan(s) == s
    decreases |s|
  {
    if s != [] {
      assert !OccursAt(s, "**", 0);
      BoldStep(s);
      OccursInTail(s, "**");
      BoldNoDelimiter(s[1..]);
    }
  }

  lemma BoldStepStar(a: string, rest: string)
    requires a != [] && a[0] != '*'
    ensures BoldScan(a + rest) == [a[0]] + BoldScan(a[1..] + rest)
  {
    assert (a + rest)[0] == a[0];
    assert !("**" <= a + rest);
    BoldStepIn(a, rest);
  }

  /** A text without `*` passes through unchanged, whatever follows it. */
  lemma {:induction false} BoldNoStar(a: string, rest: string)
    requires '*' !in a
    ensures BoldScan(a + rest) == a + BoldScan(rest)
    decreases |a|
  {
    if a == [] {
      assert a + rest == rest;
    } else {
      BoldStepStar(a, rest);
      BoldNoStar(a[1..], rest);
      ConsSplit(a, BoldScan(rest));
    }
  }

  /** The match at the start of a line is decided within that line. */
  lemma BoldMatchWithinLine(l: string, r: string)
    requires NoTerminator(l) && (r == [] || IsLineTerminator(r[0]))
    ensures BoldMatch(l + r) == BoldMatch(l)
  {
    PrefixWithinLine("**", l, r);
    if "**" <= l {
      assert (l + r)[2..] == l[2..] + r;
      LazyFindWithinLine(l[2..], r, "**");
    }
  }

  /** A bold span never crosses a line terminator: the pass over `l + r` is the
      pass over the line `l` followed by the pass over the rest. */
  lemma {:induction false} BoldSplit(l: string, r: string)
    requires NoTerminator(l) && (r == [] || IsLineTerminator(r[0]))
    ensures BoldScan(l + r) == BoldScan(l) + BoldScan(r)
    decreases |l|
  {
    if l == [] {
      assert l + r == r;
    } else {
      BoldMatchWithinLine(l, r);
      match BoldMatch(l)
      case Some(k) =>
        BoldStepMatchIn(l, r, k);
        BoldStepMatch(l, k);
        BoldSplit(l[k + 4..], r);
        Assoc(StrongOpen + l[2..2 + k] + StrongClose, BoldScan(l[k + 4..]), BoldScan(r));
      case None =>
        BoldStepIn(l, r);
        BoldStep(l);
        BoldSplit(l[1..], r);
        Assoc([l[0]], BoldScan(l[1..]), BoldScan(r));
    }
  }

  /** The bold pass rewrites every line on its own. */
  lemma {:induction false} BoldByLines(s: string)
    ensures BoldScan(s) == MapLines(BoldScan, s)
    decreases |s|
  {
    var n := LineLength(s);
    LineLengthMeaning(s);
    if n == |s| {
      assert s[..n] == s;
    } else {
      var l, t, r := s[..n], s[n], s[n + 1..];
      SplitAt(s, n);
      BoldSplit(l, [t] + r);
      BoldStep([t] + r);
      BoldByLines(r);
      Assoc(BoldScan(l), [t], BoldScan(r));
    }
  }

  /** The closing delimiter is the first `**` on the line after the opening
      one, when no `**` starts inside `x`. */
  lemma ShortestClose(x: string, b: string)
    requires NoTerminator(x) && !Contains(x + "*", "**")
    ensures LazyFind(x + "**" + b, "**") == Some(|x|)
  {
    var s := x + "**" + b;
    assert OccursAt(s, "**", |x|);
    assert s[..|x|] == x;
    forall j: nat | j < |x| ensures !OccursAt(s, "**", j) {
      assert !OccursAt(x + "*", "**", j);
      assert s[j..j + 2] == (x + "*")[j..j + 2];
    }
  }

  /** Dropping the first character keeps "no `**` starts in `a`". */
  lemma NoDelimiterTail(a: string)
    requires a != [] && !Contains(a + "*", "**")
    ensures !Contains(a[1..] + "*", "**")
  {
    var t := a + "*";
    assert t[1..] == a[1..] + "*";
    OccursInTail(t, "**");
    forall i: nat ensures !OccursAt(t[1..], "**", i) {
      assert !OccursAt(t, "**", i + 1);
    }
  }

  /** The first span: `**x**` at the very start. */
  lemma BoldSpanAtStart(x: string, b: string)
    requires NoTerminator(x) && !Contains(x + "*", "**")
    ensures BoldScan("**" + x + "**" + b) == StrongOpen + x + StrongClose + BoldScan(b)
  {
    var s := "**" + x + "**" + b;
    assert s[2..] == x + "**" + b;
    ShortestClose(x, b);
    BoldStepMatch(s, |x|);
    assert s[2..2 + |x|] == x;
    assert s[|x| + 4..] == b;
  }

  /** Leftmost and shortest: with no `**` starting before the opening
      delimiter or inside the span, `**x**` becomes `<strong>x</strong>` and
      the scan goes on after it. */
  lemma {:induction false} BoldSpan(a: string, x: string, b: string)
    requires !Contains(a + "*", "**")
    requires NoTerminator(x) && !Contains(x + "*", "**")
    ensures BoldScan(a + ("**" + x + "**" + b)) == a + (StrongOpen + x + StrongClose + BoldScan(b))
    decreases |a|
  {
    var tail := "**" + x + "**" + b;
    if a == [] {
      assert a + tail == tail;
      BoldSpanAtStart(x, b);
    } else {
      assert !OccursAt(a + "*", "**", 0);
      assert (a + tail)[..2] == (a + "*")[..2];
      BoldStepIn(a, tail);
      NoDelimiterTail(a);
      BoldSpan(a[1..], x, b);
      ConsSplit(a, StrongOpen + x + StrongClose + BoldScan(b));
    }
  }

  /** Where no position starts a match, the pass changes nothing: every
      `**` that finds no partner on its line stays literal text. */
  lemma {:induction false} BoldNone(s: string)
    requires forall i :: 0 <= i < |s| ==> BoldMatch(s[i..]).None?
    ensures BoldScan(s) == s
    decreases |s|
  {
    if s != [] {
      assert BoldMatch(s[0..]).None? && s[0..] == s;
      BoldStep(s);
      forall i | 0 <= i < |s| - 1 ensures BoldMatch(s[1..][i..]).None? {
        assert s[1..][i..] == s[i + 1..];
      }
      BoldNone(s[1..]);
    }
  }

  /** A `**` with no `**` after it on its line starts no match. */
  lemma BoldNoClose(s: string)
    requires "**" <= s
    requires forall j: nat :: 2 <= j <= |s| && NoTerminator(s[2..j]) ==> !OccursAt(s, "**", j)
    ensures BoldMatch(s).None?
  {
  }

  /** A lone `**` with no other `*` around it stays literal text. */
  lemma BoldUnpaired(a: string, b: string)
    requires '*' !in a && '*' !in b
    ensures BoldScan(a + ("**" + b)) == a + ("**" + b)
  {
    BoldNoStar(a, "**" + b);
    BoldLoneDelimiter(b);
  }

  lemma BoldLoneDelimiter(b: string)
    requires '*' !in b
    ensures BoldScan("**" + b) == "**" + b
  {
    var s := "**" + b;
    assert LazyFind(b, "**") == None by {
      forall j: nat ensures !OccursAt(b, "**", j) {
        assert j < |b| ==> b[j] != '*';
      }
    }
    assert s[2..] == b;
    BoldStep(s);
    assert s[1..] == "*" + b;
    assert b != [] ==> b[0] != '*';
    BoldStep("*" + b);
    assert ("*" + b)[1..] == b;
    BoldNoStar(b, []);
    assert b + [] == b;
  }

  lemma {:induction false} UnboldPlain(x: string, rest: string)
    requires '<' !in x
    ensures Unbold(x + rest) == x + Unbold(rest)
    decreases |x|
  {
    if x == [] {
      assert x + rest == rest;
    } else {
      var s := x + rest;
      assert s[0] == x[0] && s[0] != '<';
      assert s[1..] == x[1..] + rest;
      UnboldPlain(x[1..], rest);
    }
  }

  lemma UnboldTags(y: string)
    ensures Unbold(StrongOpen + y) == "**" + Unbold(y)
    ensures Unbold(StrongClose + y) == "**" + Unbold(y)
  {
    assert (StrongOpen + y)[|StrongOpen|..] == y;
    assert (StrongClose + y)[|StrongClose|..] == y;
    assert !(StrongOpen <= StrongClose + y) by {
      assert (StrongClose + y)[1] == '/';
    }
  }

  /** Putting the delimiters back around a plain span. */
  lemma UnboldSpan(x: string, y: string)
    requires '<' !in x
    ensures Unbold(StrongOpen + x + StrongClose + y) == "**" + x + "**" + Unbold(y)
  {
    Assoc(StrongOpen + x, StrongClose, y);
    Assoc(StrongOpen, x, StrongClose + y);
    UnboldTags(x + (StrongClose + y));
    UnboldPlain(x, StrongClose + y);
    UnboldTags(y);
    Assoc("**", x, "**" + Unbold(y));
    Assoc("**" + x, "**", Unbold(y));
  }

  /** A matched span, delimiters included. */
  lemma BoldMatchPrefix(s: string, k: nat)
    requires BoldMatch(s) == Some(k)
    ensures s[..k + 4] == "**" + s[2..2 + k] + "**"
  {
  }

  /** The first step of the scan and how far it gets: on text without `<`,
      putting the delimiters back into what it emits restores the text it
      consumed. */
  lemma BoldHead(s: string) returns (n: nat)
    requires s != [] && '<' !in s
    ensures 0 < n <= |s| && Unbold(BoldScan(s)) == s[..n] + Unbold(BoldScan(s[n..]))
  {
    match BoldMatch(s)
    case Some(k) =>
      var x := s[2..2 + k];
      n := k + 4;
      BoldStepMatch(s, k);
      BoldMatchPrefix(s, k);
      assert '<' !in x;
      UnboldSpan(x, BoldScan(s[n..]));
    case None =>
      n := 1;
      BoldStep(s);
      UnboldPlain([s[0]], BoldScan(s[1..]));
  }

  /** Round trip: on text without `<`, putting the delimiters back undoes the
      bold pass. */
  lemma {:induction false} BoldRoundTrip(s: string)
    requires '<' !in s
    ensures Unbold(BoldScan(s)) == s
    decreases |s|
  {
    if s != [] {
      var n := BoldHead(s);
      BoldRoundTrip(s[n..]);
      assert s[..n] + s[n..] == s;
    }
  }
}
