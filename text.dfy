/** Character classes and line helpers shared by the rewrite passes of the
    markdown renderer. They follow the ECMAScript regular-expression semantics
    that the renderer's patterns rely on. */
module Text {

  datatype Option<T> = None | Some(value: T)

  /** A line terminator as ECMAScript regular expressions see it: `.` never
      matches one, and under the `m` flag `^` and `$` match next to one. */
  predicate IsLineTerminator(c: char) {
    c == '\n' || c == '\r' || c == '\U{2028}' || c == '\U{2029}'
  }

  /** The class `\s`: ECMAScript white space and line terminators. */
  predicate IsSpace(c: char) {
    || IsLineTerminator(c)
    || c == '\t' || c == '\U{000B}' || c == '\U{000C}' || c == ' '
    || c == '\U{00A0}' || c == '\U{1680}' || ('\U{2000}' <= c <= '\U{200A}')
    || c == '\U{202F}' || c == '\U{205F}' || c == '\U{3000}' || c == '\U{FEFF}'
  }

  /** The class `\d`: an ASCII decimal digit. */
  predicate IsDigit(c: char) {
    '0' <= c <= '9'
  }

  predicate NoTerminator(s: string) {
    forall i :: 0 <= i < |s| ==> !IsLineTerminator(s[i])
  }

  predicate AllSpace(s: string) {
    forall i :: 0 <= i < |s| ==> IsSpace(s[i])
  }

  predicate AllDigits(s: string) {
    forall i :: 0 <= i < |s| ==> IsDigit(s[i])
  }

  /** The literal `p` occurs in `s` starting at index `i`. */
  predicate OccursAt(s: string, p: string, i: nat) {
    i + |p| <= |s| && s[i..i + |p|] == p
  }

  /** `String.prototype.includes`: `p` occurs somewhere in `s`. */
  function Contains(s: string, p: string): (b: bool)
    ensures b <==> exists i: nat :: OccursAt(s, p, i)
    decreases |s|
  {
    if p <= s then
      assert OccursAt(s, p, 0);
      true
    else if s == [] then
      false
    else
      var b := Contains(s[1..], p);
      assert forall i: nat :: OccursAt(s[1..], p, i) <==> OccursAt(s, p, i + 1) by {
        forall i: nat ensures OccursAt(s[1..], p, i) <==> OccursAt(s, p, i + 1) {
          if i + |p| <= |s[1..]| {
            assert s[1..][i..i + |p|] == s[i + 1..i + 1 + |p|];
          }
        }
      }
      assert b ==> exists i: nat :: OccursAt(s, p, i) by {
        if b {
          var i: nat :| OccursAt(s[1..], p, i);
          assert OccursAt(s, p, i + 1);
        }
      }
      assert (exists i: nat :: OccursAt(s, p, i)) ==> b by {
        if exists i: nat :: OccursAt(s, p, i) {
          var i: nat :| OccursAt(s, p, i);
          assert i != 0;
          assert OccursAt(s[1..], p, i - 1);
        }
      }
      b
  }

  /** A literal whose first character is absent from `s` does not occur in it. */
  lemma AbsentHead(s: string, p: string)
    requires p != [] && p[0] !in s
    ensures !Contains(s, p)
  {
  }

  /** The greedy `.*`: the length of the longest prefix of `s` that holds no
      line terminator. */
  function LineLength(s: string): (n: nat)
    ensures n <= |s|
    decreases |s|
  {
    if s == [] || IsLineTerminator(s[0]) then 0 else 1 + LineLength(s[1..])
  }

  /** `LineLength` stops at the first line terminator: there is none before
      it, and a terminator or the end right after it. */
  lemma {:induction false} LineLengthMeaning(s: string)
    ensures NoTerminator(s[..LineLength(s)])
    ensures LineLength(s) == |s| || IsLineTerminator(s[LineLength(s)])
    decreases |s|
  {
    if s != [] && !IsLineTerminator(s[0]) {
      LineLengthMeaning(s[1..]);
      assert s[..LineLength(s)] == [s[0]] + s[1..][..LineLength(s[1..])];
    }
  }

  /** The greedy `\s*`: the length of the longest all-white-space prefix of
      `s` (`SpaceRunMaximal` says so). */
  function SpaceRun(s: string): (n: nat)
    ensures n <= |s|
    decreases |s|
  {
    if s == [] || !IsSpace(s[0]) then 0 else 1 + SpaceRun(s[1..])
  }

  lemma {:induction false} SpaceRunMaximal(s: string)
    ensures AllSpace(s[..SpaceRun(s)])
    ensures SpaceRun(s) == |s| || !IsSpace(s[SpaceRun(s)])
    decreases |s|
  {
    if s != [] && IsSpace(s[0]) {
      SpaceRunMaximal(s[1..]);
      assert s[..SpaceRun(s)] == [s[0]] + s[1..][..SpaceRun(s[1..])];
    }
  }

  /** The greedy `\d+` without its lower bound: the length of the longest
      all-digit prefix of `s` (`DigitRunMaximal` says so). */
  function DigitRun(s: string): (n: nat)
    ensures n <= |s|
    decreases |s|
  {
    if s == [] || !IsDigit(s[0]) then 0 else 1 + DigitRun(s[1..])
  }

  lemma {:induction false} DigitRunMaximal(s: string)
    ensures AllDigits(s[..DigitRun(s)])
    ensures DigitRun(s) == |s| || !IsDigit(s[DigitRun(s)])
    decreases |s|
  {
    if s != [] && IsDigit(s[0]) {
      DigitRunMaximal(s[1..]);
      assert s[..DigitRun(s)] == [s[0]] + s[1..][..DigitRun(s[1..])];
    }
  }

  /** The lazy `.*?` followed by the literal `p`, tried at the start of `s`:
      the length of the shortest terminator-free prefix of `s` that `p`
      follows, if there is one. */
  function LazyFind(s: string, p: string): (r: Option<nat>)
    ensures r.Some? ==> OccursAt(s, p, r.value) && NoTerminator(s[..r.value])
    ensures r.Some? ==> forall j: nat :: j < r.value ==> !OccursAt(s, p, j)
    ensures r.None? ==> forall j: nat :: j <= |s| && NoTerminator(s[..j]) ==> !OccursAt(s, p, j)
    decreases |s|
  {
    if p <= s then
      Some(0)
    else if s == [] || IsLineTerminator(s[0]) then
      None
    else
      OccursInTail(s, p);
      match LazyFind(s[1..], p)
      case Some(k) => Some(k + 1)
      case None => None
  }

  /** Occurrences in `s[1..]` are those in `s` shifted by one, and a prefix of
      `s` that starts with a non-terminator is terminator-free exactly when the
      matching prefix of `s[1..]` is. */
  lemma OccursInTail(s: string, p: string)
    requires |s| > 0
    ensures forall j: nat :: 1 <= j ==> (OccursAt(s, p, j) <==> OccursAt(s[1..], p, j - 1))
    ensures !IsLineTerminator(s[0]) ==>
      forall j: nat :: 1 <= j <= |s| ==> (NoTerminator(s[..j]) <==> NoTerminator(s[1..][..j - 1]))
  {
    forall j: nat | 1 <= j
      ensures OccursAt(s, p, j) <==> OccursAt(s[1..], p, j - 1)
    {
      if j + |p| <= |s| {
        assert s[1..][j - 1..j - 1 + |p|] == s[j..j + |p|];
      }
    }
    if !IsLineTerminator(s[0]) {
      forall j: nat | 1 <= j <= |s|
        ensures NoTerminator(s[..j]) <==> NoTerminator(s[1..][..j - 1])
      {
        assert s[..j] == [s[0]] + s[1..][..j - 1];
        NoTerminatorConcat([s[0]], s[1..][..j - 1]);
      }
    }
  }

  lemma NoTerminatorConcat(a: string, b: string)
    ensures NoTerminator(a + b) <==> NoTerminator(a) && NoTerminator(b)
  {
    if NoTerminator(a) && NoTerminator(b) {
      forall i | 0 <= i < |a + b| ensures !IsLineTerminator((a + b)[i]) {
        if i >= |a| {
          assert (a + b)[i] == b[i - |a|];
        }
      }
    }
    if NoTerminator(a + b) {
      forall i | 0 <= i < |a| ensures !IsLineTerminator(a[i]) {
        assert (a + b)[i] == a[i];
      }
      forall i | 0 <= i < |b| ensures !IsLineTerminator(b[i]) {
        assert (a + b)[|a| + i] == b[i];
      }
    }
  }

  /** The lazy search never looks past the end of its line. */
  lemma {:induction false} LazyFindWithinLine(l: string, r: string, p: string)
    requires NoTerminator(l) && NoTerminator(p) && (r == [] || IsLineTerminator(r[0]))
    ensures LazyFind(l + r, p) == LazyFind(l, p)
    decreases |l|
  {
    PrefixWithinLine(p, l, r);
    if l == [] {
      assert l + r == r;
    } else if !(p <= l) {
      assert (l + r)[0] == l[0] && (l + r)[1..] == l[1..] + r;
      LazyFindWithinLine(l[1..], r, p);
    }
  }

  /** Applies `f` to every line of `s` (the text between line terminators),
      keeping the terminators themselves. */
  function MapLines(f: string -> string, s: string): string
    decreases |s|
  {
    var n := LineLength(s);
    if n == |s| then f(s) else f(s[..n]) + [s[n]] + MapLines(f, s[n + 1..])
  }

  /** Re-assembles a sequence from its head and tail inside a concatenation. */
  lemma ConsSplit<T>(a: seq<T>, t: seq<T>)
    requires a != []
    ensures [a[0]] + (a[1..] + t) == a + t
  {
    assert a == [a[0]] + a[1..];
  }

  /** Splits `s` around its element at `n`. */
  lemma SplitAt<T>(s: seq<T>, n: nat)
    requires n < |s|
    ensures s == s[..n] + ([s[n]] + s[n + 1..])
    ensures ([s[n]] + s[n + 1..])[1..] == s[n + 1..]
  {
    assert s == s[..n] + s[n..];
    assert s[n..] == [s[n]] + s[n + 1..];
  }

  lemma Assoc<T>(a: seq<T>, b: seq<T>, c: seq<T>)
    ensures a + (b + c) == (a + b) + c
  {
  }

  /** The first line of `l + r` is `l` when `r` is empty or starts with a
      line terminator. */
  lemma {:induction false} LineLengthOfLine(l: string, r: string)
    requires NoTerminator(l) && (r == [] || IsLineTerminator(r[0]))
    ensures LineLength(l + r) == |l|
    decreases |l|
  {
    if l == [] {
      assert l + r == r;
    } else {
      assert (l + r)[0] == l[0] && (l + r)[1..] == l[1..] + r;
      LineLengthOfLine(l[1..], r);
    }
  }

  /** The first line of `l + [t] + r` is `l` when `t` ends it. */
  lemma LineLengthAt(l: string, t: char, r: string)
    requires NoTerminator(l) && IsLineTerminator(t)
    ensures LineLength(l + [t] + r) == |l|
    ensures (l + [t] + r)[..|l|] == l && (l + [t] + r)[|l| + 1..] == r
  {
    assert l + [t] + r == l + ([t] + r);
    LineLengthOfLine(l, [t] + r);
  }

  /** A terminator-free literal starts `l + r` exactly when it starts the line
      `l`. */
  lemma PrefixWithinLine(p: string, l: string, r: string)
    requires NoTerminator(p) && (r == [] || IsLineTerminator(r[0]))
    ensures p <= l + r <==> p <= l
  {
    assert |p| <= |l| ==> (l + r)[..|p|] == l[..|p|];
    assert |l| < |p| && |p| <= |l + r| ==> (l + r)[|l|] == r[0] && (l + r)[..|p|][|l|] == r[0];
  }

  /** A line with a line of `f` applied in front of it: unfolding `MapLines`
      once on a concatenation. */
  lemma MapLinesCons(f: string -> string, l: string, t: char, r: string)
    requires NoTerminator(l) && IsLineTerminator(t)
    ensures MapLines(f, l + [t] + r) == f(l) + [t] + MapLines(f, r)
  {
    LineLengthAt(l, t, r);
  }

  /** On a single line `MapLines` applies `f` once. */
  lemma MapLinesSingle(f: string -> string, l: string)
    requires NoTerminator(l)
    ensures MapLines(f, l) == f(l)
  {
    LineLengthOfLine(l, []);
    assert l + [] == l;
  }

  /** Mapping lines with `f` and then with `g` maps them with `g` after `f`,
      provided `f` does not introduce line terminators. */
  lemma {:induction false} MapLinesCompose(f: string -> string, g: string -> string, s: string)
    requires forall l :: NoTerminator(l) ==> NoTerminator(f(l))
    ensures MapLines(g, MapLines(f, s)) == MapLines(x => g(f(x)), s)
    decreases |s|
  {
    var n := LineLength(s);
    LineLengthMeaning(s);
    if n == |s| {
      assert s[..n] == s;
      MapLinesSingle(g, f(s));
    } else {
      var l, t, r := s[..n], s[n], s[n + 1..];
      assert s == l + [t] + r;
      MapLinesCons(f, l, t, r);
      MapLinesCons(g, f(l), t, MapLines(f, r));
      MapLinesCons(x => g(f(x)), l, t, r);
      MapLinesCompose(f, g, r);
    }
  }

  /** `MapLines` only looks at `f` on terminator-free lines. */
  lemma {:induction false} MapLinesCongruent(f: string -> string, g: string -> string, s: string)
    requires forall l :: NoTerminator(l) ==> f(l) == g(l)
    ensures MapLines(f, s) == MapLines(g, s)
    decreases |s|
  {
    var n := LineLength(s);
    LineLengthMeaning(s);
    if n == |s| {
      assert s[..n] == s;
    } else {
      MapLinesCongruent(f, g, s[n + 1..]);
    }
  }
}
