/** The list-item passes of the renderer: `/^\s*\- (.*$)/gim` turns a dash
    line into a `list-disc` item and `/^\s*\d+\. (.*$)/gim` turns a numbered
    line into a `list-decimal` item. The leading `\s*` is greedy and `\s`
    includes line terminators, so blank lines in front of an item are consumed
    by its match. */
module Lists {
  import opened Text

  datatype Kind = Disc | Decimal

  function ItemOpen(kind: Kind): string {
    match kind
    case Disc => "<li class=\"ml-6 list-disc\">"
    case Decimal => "<li class=\"ml-6 list-decimal\">"
  }

  const ItemClose := "</li>"

  /** The item marker of a kind: `- ` for a dash item, one or more digits
      followed by `. ` for a numbered one. */
  predicate IsMarker(kind: Kind, mk: string) {
    match kind
    case Disc => mk == "- "
    case Decimal => |mk| >= 3 && AllDigits(mk[..|mk| - 2]) && mk[|mk| - 2..] == ". "
  }

  /** The marker part of the pattern (`\- ` or the greedy `\d+\. `) at the start
      of `s`: the length of the marker that starts `s`, if one does. */
  function MarkerLength(kind: Kind, s: string): (r: Option<nat>)
    ensures r.Some? ==> 2 <= r.value <= |s|
  {
    match kind
    case Disc =>
      if "- " <= s then Some(2) else None
    case Decimal =>
      var d := DigitRun(s);
      if d > 0 && ". " <= s[d..] then Some(d + 2) else None
  }

  /** `MarkerLength` finds a marker exactly when `s` starts with one. */
  lemma MarkerLengthMeaning(kind: Kind, s: string)
    ensures MarkerLength(kind, s).Some? ==> IsMarker(kind, s[..MarkerLength(kind, s).value])
    ensures MarkerLength(kind, s).None? ==> forall m: nat :: m <= |s| ==> !IsMarker(kind, s[..m])
  {
    if kind == Decimal {
      DigitRunMaximal(s);
      var d := DigitRun(s);
      if d > 0 && ". " <= s[d..] {
        assert s[..d + 2][..d] == s[..d] && s[..d + 2][d..] == s[d..d + 2];
      } else {
        forall m: nat | m <= |s| && IsMarker(kind, s[..m]) ensures false {
          DigitRunAt(s, m - 2);
        }
      }
    }
  }

  /** The greedy `\d+` stops exactly at the first non-digit. */
  lemma DigitRunAt(s: string, n: nat)
    requires n < |s| && AllDigits(s[..n]) && !IsDigit(s[n])
    ensures DigitRun(s) == n
  {
    DigitRunMaximal(s);
  }

  /** A match of the item pattern at the start of `s`: where the item text
      `(.*$)` starts, after the white space and the marker. The text runs to
      the end of its line. */
  function ItemMatch(kind: Kind, s: string): (r: Option<nat>)
    ensures r.Some? ==> 2 <= r.value <= |s|
  {
    var w := SpaceRun(s);
    match MarkerLength(kind, s[w..])
    case Some(m) => Some(w + m)
    case None => None
  }

  /** The global replace of the item pattern of `kind` (flags `gim`) over `s`,
      where `atLineStart` says whether `^` holds at the start of `s`. A match
      ends just after a non-terminator, so `^` fails where it ends. */
  function ItemScan(kind: Kind, s: string, atLineStart: bool): string
    decreases |s|
  {
    if s == [] then
      []
    else if atLineStart && ItemMatch(kind, s).Some? then
      var c := ItemMatch(kind, s).value;
      var e := c + LineLength(s[c..]);
      ItemOpen(kind) + s[c..e] + ItemClose + ItemScan(kind, s[e..], false)
    else
      [s[0]] + ItemScan(kind, s[1..], IsLineTerminator(s[0]))
  }

  lemma ItemStep(kind: Kind, s: string, atLineStart: bool)
    requires s != [] && !(atLineStart && ItemMatch(kind, s).Some?)
    ensures ItemScan(kind, s, atLineStart) == [s[0]] + ItemScan(kind, s[1..], IsLineTerminator(s[0]))
  {
  }

  /** The line shape the pattern looks for: white space (blank lines
      included), then a marker of the kind. */
  predicate IsItemLine(kind: Kind, s: string) {
    exists w: nat, c: nat :: w <= c <= |s| && AllSpace(s[..w]) && IsMarker(kind, s[w..c])
  }

  /** `ItemMatch` finds a match exactly when `s` has the item shape. */
  lemma ItemMatchIff(kind: Kind, s: string)
    ensures ItemMatch(kind, s).Some? <==> IsItemLine(kind, s)
  {
    if ItemMatch(kind, s).Some? {
      ItemMatchShape(kind, s);
    }
    if IsItemLine(kind, s) {
      var w: nat, c: nat :| w <= c <= |s| && AllSpace(s[..w]) && IsMarker(kind, s[w..c]);
      ItemShapeMatches(kind, s, w, c);
    }
  }

  lemma ItemMatchShape(kind: Kind, s: string)
    requires ItemMatch(kind, s).Some?
    ensures IsItemLine(kind, s)
  {
    var w := SpaceRun(s);
    SpaceRunMaximal(s);
    MarkerLengthMeaning(kind, s[w..]);
    var m := MarkerLength(kind, s[w..]).value;
    assert s[w..][..m] == s[w..w + m];
    assert AllSpace(s[..w]) && IsMarker(kind, s[w..w + m]);
  }

  lemma ItemShapeMatches(kind: Kind, s: string, w: nat, c: nat)
    requires w <= c <= |s| && AllSpace(s[..w]) && IsMarker(kind, s[w..c])
    ensures ItemMatch(kind, s).Some?
  {
    assert s[w..c][0] == s[w];
    assert s == s[..w] + s[w..];
    SpaceRunOf(s[..w], s[w..]);
    assert s[w..][..c - w] == s[w..c];
    MarkerLengthMeaning(kind, s[w..]);
  }

  /** Text without `-` is left alone by the dash pass. */
  lemma {:induction false} DiscNoDash(s: string, atLineStart: bool)
    requires '-' !in s
    ensures ItemScan(Disc, s, atLineStart) == s
    decreases |s|
  {
    if s != [] {
      var w := SpaceRun(s);
      assert !("- " <= s[w..]) by {
        if w < |s| {
          assert s[w..][0] == s[w] && s[w] in s;
        }
      }
      ItemStep(Disc, s, atLineStart);
      DiscNoDash(s[1..], IsLineTerminator(s[0]));
      assert s == [s[0]] + s[1..];
    }
  }

  /** The two item passes in the order the renderer applies them. */
  function Items(s: string): string {
    ItemScan(Decimal, ItemScan(Disc, s, true), true)
  }

  /** What one item pass does to a line that is not blank. */
  function ItemLine(kind: Kind, l: string): string {
    match ItemMatch(kind, l)
    case Some(c) => ItemOpen(kind) + l[c..] + ItemClose
    case None => l
  }

  /** What the two item passes do to a line that is not blank. */
  function ItemsLine(l: string): string {
    if ItemMatch(Disc, l).Some? then ItemLine(Disc, l) else ItemLine(Decimal, l)
  }

  /** Every line of `s` but the last holds a character that is not white
      space, so no `\s*` run crosses a line break. */
  predicate NoBlankLine(s: string)
    decreases |s|
  {
    var n := LineLength(s);
    n == |s| || (!AllSpace(s[..n]) && NoBlankLine(s[n + 1..]))
  }

  lemma {:induction false} SpaceRunOf(w: string, x: string)
    requires AllSpace(w) && (x == [] || !IsSpace(x[0]))
    ensures SpaceRun(w + x) == |w|
    decreases |w|
  {
    if w == [] {
      assert w + x == x;
    } else {
      assert (w + x)[0] == w[0] && (w + x)[1..] == w[1..] + x;
      SpaceRunOf(w[1..], x);
    }
  }

  lemma {:induction false} SpaceRunWithinLine(l: string, r: string)
    requires !AllSpace(l)
    ensures SpaceRun(l + r) == SpaceRun(l)
    decreases |l|
  {
    assert l != [];
    assert (l + r)[0] == l[0] && (l + r)[1..] == l[1..] + r;
    if IsSpace(l[0]) {
      assert !AllSpace(l[1..]) by {
        var i :| 0 <= i < |l| && !IsSpace(l[i]);
        assert l[1..][i - 1] == l[i];
      }
      SpaceRunWithinLine(l[1..], r);
    }
  }

  lemma {:induction false} DigitRunWithinLine(l: string, r: string)
    requires r == [] || IsLineTerminator(r[0])
    ensures DigitRun(l + r) == DigitRun(l)
    decreases |l|
  {
    if l == [] {
      assert l + r == r;
    } else {
      assert (l + r)[0] == l[0] && (l + r)[1..] == l[1..] + r;
      DigitRunWithinLine(l[1..], r);
    }
  }

  lemma MarkerWithinLine(kind: Kind, l: string, r: string)
    requires r == [] || IsLineTerminator(r[0])
    ensures MarkerLength(kind, l + r) == MarkerLength(kind, l)
  {
    match kind
    case Disc =>
      PrefixWithinLine("- ", l, r);
    case Decimal =>
      DigitRunWithinLine(l, r);
      var d := DigitRun(l);
      assert (l + r)[d..] == l[d..] + r;
      PrefixWithinLine(". ", l[d..], r);
  }

  lemma SpaceRunShort(l: string)
    requires !AllSpace(l)
    ensures SpaceRun(l) < |l|
  {
    SpaceRunMaximal(l);
  }

  /** On a line that is not blank, a match never looks past the line's end. */
  lemma ItemMatchWithinLine(kind: Kind, l: string, r: string)
    requires !AllSpace(l) && (r == [] || IsLineTerminator(r[0]))
    ensures ItemMatch(kind, l + r) == ItemMatch(kind, l)
  {
    var s := l + r;
    SpaceRunWithinLine(l, r);
    SpaceRunShort(l);
    var w := SpaceRun(l);
    assert s[w..] == l[w..] + r;
    MarkerWithinLine(kind, l[w..], r);
  }

  /** The item text from `c` to the end of line `l`. */
  lemma LineRest(l: string, r: string, c: nat)
    requires NoTerminator(l) && c <= |l| && (r == [] || IsLineTerminator(r[0]))
    ensures c + LineLength((l + r)[c..]) == |l|
    ensures (l + r)[c..|l|] == l[c..] && (l + r)[|l|..] == r
  {
    assert (l + r)[c..] == l[c..] + r;
    assert NoTerminator(l[c..]);
    LineLengthOfLine(l[c..], r);
  }

  /** Away from a line start nothing on the current line can match. */
  lemma {:induction false} ItemScanMidLine(kind: Kind, l: string, r: string)
    requires NoTerminator(l)
    ensures ItemScan(kind, l + r, false) == l + ItemScan(kind, r, false)
    decreases |l|
  {
    if l == [] {
      assert l + r == r;
    } else {
      var s := l + r;
      assert s[0] == l[0] && !IsLineTerminator(l[0]);
      assert s[1..] == l[1..] + r;
      ItemScanMidLine(kind, l[1..], r);
      ConsSplit(l, ItemScan(kind, r, false));
    }
  }

  /** At a line start, a pass rewrites a line that is not blank (or the last
      line) by `ItemLine` and resumes at the end of that line. */
  lemma ItemScanLine(kind: Kind, l: string, r: string)
    requires NoTerminator(l)
    requires r == [] || (IsLineTerminator(r[0]) && !AllSpace(l))
    ensures ItemScan(kind, l + r, true) == ItemLine(kind, l) + ItemScan(kind, r, false)
  {
    var s := l + r;
    if r == [] {
      assert s == l;
    } else {
      ItemMatchWithinLine(kind, l, r);
    }
    match ItemMatch(kind, l)
    case Some(c) =>
      LineRest(l, r, c);
      ItemScanMatch(kind, s, c, l[c..], r);
    case None =>
      if l == [] {
        assert s == r;
      } else {
        assert s[0] == l[0] && s[1..] == l[1..] + r;
        ItemStep(kind, s, true);
        ItemScanMidLine(kind, l[1..], r);
        ConsSplit(l, ItemScan(kind, r, false));
      }
  }

  /** A pass over a line break after a line that is not blank. */
  lemma ItemScanBreak(kind: Kind, l: string, t: char, r: string)
    requires NoTerminator(l) && !AllSpace(l) && IsLineTerminator(t)
    ensures ItemScan(kind, l + [t] + r, true) == ItemLine(kind, l) + [t] + ItemScan(kind, r, true)
  {
    Assoc(l, [t], r);
    ItemScanLine(kind, l, [t] + r);
    assert ([t] + r)[1..] == r;
    Assoc(ItemLine(kind, l), [t], ItemScan(kind, r, true));
  }

  /** Without blank lines, an item pass rewrites every line on its own, by
      `ItemLine`. */
  lemma {:induction false} ItemByLines(kind: Kind, s: string)
    requires NoBlankLine(s)
    ensures ItemScan(kind, s, true) == MapLines(l => ItemLine(kind, l), s)
    decreases |s|
  {
    var n := LineLength(s);
    LineLengthMeaning(s);
    if n == |s| {
      assert s[..n] == s && s == s + [];
      ItemScanLine(kind, s, []);
    } else {
      var l, t, r := s[..n], s[n], s[n + 1..];
      assert s == l + [t] + r;
      ItemScanBreak(kind, l, t, r);
      ItemByLines(kind, r);
    }
  }

  /** A blank line stays blank and a line that is not blank stays not blank
      under `f`, so mapping lines with `f` keeps `NoBlankLine`. */
  lemma {:induction false} MapLinesNoBlank(f: string -> string, s: string)
    requires forall l :: NoTerminator(l) ==> NoTerminator(f(l))
    requires forall l :: NoTerminator(l) && !AllSpace(l) ==> !AllSpace(f(l))
    requires NoBlankLine(s)
    ensures NoBlankLine(MapLines(f, s))
    decreases |s|
  {
    var n := LineLength(s);
    LineLengthMeaning(s);
    if n < |s| {
      var l, t, r := s[..n], s[n], s[n + 1..];
      assert s == l + [t] + r;
      MapLinesCons(f, l, t, r);
      LineLengthAt(f(l), t, MapLines(f, r));
      MapLinesNoBlank(f, r);
    } else {
      assert s[..n] == s;
      MapLinesSingle(f, s);
      LineLengthOfLine(f(s), []);
      assert f(s) + [] == f(s);
    }
  }

  /** After a dash item no numbered marker can follow: the item starts with `<`. */
  lemma ItemLinesCompose(l: string)
    ensures ItemLine(Decimal, ItemLine(Disc, l)) == ItemsLine(l)
  {
    if ItemMatch(Disc, l).Some? {
      var x := ItemLine(Disc, l);
      assert x[0] == '<';
      assert SpaceRun(x) == 0;
      assert x[0..] == x;
    }
  }

  /** A pass keeps a line terminator-free, and keeps a line that is not blank
      not blank. */
  lemma ItemLineKeepsLine(kind: Kind, l: string)
    requires NoTerminator(l)
    ensures NoTerminator(ItemLine(kind, l))
    ensures !AllSpace(l) ==> !AllSpace(ItemLine(kind, l))
  {
    match ItemMatch(kind, l)
    case Some(c) =>
      ItemOpenNoTerminator(kind);
      assert NoTerminator(l[c..]);
      NoTerminatorConcat(ItemOpen(kind), l[c..]);
      NoTerminatorConcat(ItemOpen(kind) + l[c..], ItemClose);
      assert ItemLine(kind, l)[0] == '<';
    case None =>
  }

  lemma ItemOpenNoTerminator(kind: Kind)
    ensures NoTerminator(ItemOpen(kind)) && NoTerminator(ItemClose)
  {
    match kind
    case Disc => assert NoTerminator(ItemOpen(Disc));
    case Decimal => assert NoTerminator(ItemOpen(Decimal));
  }

  /** Without blank lines, the two item passes together rewrite every line on
      its own, by `ItemsLine`. */
  lemma ItemsByLines(s: string)
    requires NoBlankLine(s)
    ensures Items(s) == MapLines(ItemsLine, s)
  {
    var f1 := l => ItemLine(Disc, l);
    var f2 := l => ItemLine(Decimal, l);
    forall l | NoTerminator(l) ensures NoTerminator(f1(l)) && (!AllSpace(l) ==> !AllSpace(f1(l))) {
      ItemLineKeepsLine(Disc, l);
    }
    ItemByLines(Disc, s);
    MapLinesNoBlank(f1, s);
    ItemByLines(Decimal, ItemScan(Disc, s, true));
    MapLinesCompose(f1, f2, s);
    forall l | NoTerminator(l) ensures f2(f1(l)) == ItemsLine(l) {
      ItemLinesCompose(l);
    }
    MapLinesCongruent(x => f2(f1(x)), ItemsLine, s);
  }

  lemma {:induction false} DigitRunOf(d: string, x: string)
    requires AllDigits(d) && (x == [] || !IsDigit(x[0]))
    ensures DigitRun(d + x) == |d|
    decreases |d|
  {
    if d == [] {
      assert d + x == x;
    } else {
      assert (d + x)[0] == d[0] && (d + x)[1..] == d[1..] + x;
      DigitRunOf(d[1..], x);
    }
  }

  lemma MarkerOf(kind: Kind, mk: string, y: string)
    requires IsMarker(kind, mk)
    ensures MarkerLength(kind, mk + y) == Some(|mk|)
  {
    match kind
    case Disc =>
    case Decimal =>
      var d := mk[..|mk| - 2];
      assert mk + y == d + (". " + y);
      DigitRunOf(d, ". " + y);
      assert (mk + y)[|d|..] == ". " + y;
  }

  /** At a line start, white space (blank lines included), a marker and the
      item text `t` up to the end of its line become one item: the white space
      and the marker are consumed. */
  lemma ItemAfterSpace(kind: Kind, w: string, mk: string, t: string, r: string)
    requires AllSpace(w) && IsMarker(kind, mk)
    requires NoTerminator(t) && (r == [] || IsLineTerminator(r[0]))
    ensures ItemScan(kind, w + (mk + (t + r)), true) == ItemOpen(kind) + t + ItemClose + ItemScan(kind, r, false)
  {
    var s := w + (mk + (t + r));
    var c := |w| + |mk|;
    ItemMatchOf(kind, w, mk, t + r);
    assert s[c..] == t + r;
    ItemTextAt(s, c, t, r);
    ItemScanMatch(kind, s, c, t, r);
  }

  /** Unfolds `ItemScan` at a line start where the pattern matches: the
      item text `t` runs to the end of the line, and the scan goes on at `r`. */
  lemma ItemScanMatch(kind: Kind, s: string, c: nat, t: string, r: string)
    requires ItemMatch(kind, s) == Some(c) && c + |t| <= |s|
    requires LineLength(s[c..]) == |t| && t == s[c..c + |t|] && r == s[c + |t|..]
    ensures ItemScan(kind, s, true) == ItemOpen(kind) + t + ItemClose + ItemScan(kind, r, false)
  {
    var e := c + |t|;
    var x := ItemScan(kind, r, false);
    assert ItemScan(kind, s, true) == ItemOpen(kind) + s[c..e] + ItemClose + x by {
      ItemStepMatch(kind, s, c, e);
    }
  }

  /** At a line start with a match, a pass emits the item and resumes at the
      end of its line, `e`. */
  lemma ItemStepMatch(kind: Kind, s: string, c: nat, e: nat)
    requires ItemMatch(kind, s) == Some(c) && e == c + LineLength(s[c..])
    ensures e <= |s| && ItemScan(kind, s, true) == ItemOpen(kind) + s[c..e] + ItemClose + ItemScan(kind, s[e..], false)
  {
    assert s != [];
    var x := ItemScan(kind, s[e..], false);
    assert ItemScan(kind, s, true) == ItemOpen(kind) + s[c..e] + ItemClose + x;
  }

  /** White space and a marker are a match whose text starts after them. */
  lemma ItemMatchOf(kind: Kind, w: string, mk: string, y: string)
    requires AllSpace(w) && IsMarker(kind, mk)
    ensures ItemMatch(kind, w + (mk + y)) == Some(|w| + |mk|)
  {
    var s := w + (mk + y);
    assert (mk + y)[0] == mk[0];
    SpaceRunOf(w, mk + y);
    assert s[|w|..] == mk + y;
    MarkerOf(kind, mk, y);
  }

  lemma ItemTextAt(s: string, c: nat, t: string, r: string)
    requires c <= |s| && s[c..] == t + r
    requires NoTerminator(t) && (r == [] || IsLineTerminator(r[0]))
    ensures LineLength(s[c..]) == |t| && s[c..c + |t|] == t && s[c + |t|..] == r
  {
    LineLengthOfLine(t, r);
    assert s[c..c + |t|] == (t + r)[..|t|];
  }
}
