/** `parseMarkdown` of the markdown renderer: the ten global replaces, in the
    order the renderer applies them, from the markdown text to the HTML that
    the component injects. */
module MarkdownRenderer {
  import opened Text
  import opened Headers
  import opened Bold
  import opened Lists
  import opened ListGroups
  import opened Paragraphs
  import opened LineBreaks

  /** The whole chain of passes. */
  function ParseMarkdown(markdown: string): (html: string)
    ensures '\n' !in html
  {
    var headed := HeaderPasses(markdown);
    var bolded := BoldScan(headed);
    var dashed := ItemScan(Disc, bolded, true);
    var numbered := ItemScan(Decimal, dashed, true);
    var stitched := StitchScan(numbered);
    var grouped := GroupScan(stitched);
    var wrapped := ParagraphPass(grouped);
    BreakLines(wrapped)
  }

  lemma NoLineFeed(s: string)
    requires NoTerminator(s)
    ensures '\n' !in s
  {
  }

  /** Plain text passthrough: a single line with no line terminator, no `<`,
      no `**`, no header marker and no list-item shape comes out unchanged. */
  lemma PlainTextPassthrough(s: string)
    requires NoTerminator(s) && '<' !in s && !Contains(s, "**")
    requires !("# " <= s) && !("## " <= s) && !("### " <= s)
    requires !IsItemLine(Disc, s) && !IsItemLine(Decimal, s)
    ensures ParseMarkdown(s) == s
  {
    assert s + [] == s;
    HeadersByLines(s);
    MapLinesSingle(HeadersLine, s);
    BoldNoDelimiter(s);
    ItemMatchIff(Disc, s);
    ItemScanLine(Disc, s, []);
    ItemMatchIff(Decimal, s);
    ItemScanLine(Decimal, s, []);
    AbsentHead(s, Seam);
    StitchNoSeam(s);
    AbsentHead(s, "<li");
    NoOpeningNoMatch(s);
    GroupNone(s);
    ParaLastLine(s, true);
    NoLineFeed(s);
    BreakLinesNone(s);
  }

  /** A line of plain text is not wrapped in a paragraph: the paragraph
      pattern needs a line feed after the line. */
  lemma JustALine(s: string)
    requires s == "just a line"
    ensures ParseMarkdown(s) == s
  {
    assert s[0] == 'j';
    AbsentHead(s, "**");
    ItemMatchIff(Disc, s);
    ItemMatchIff(Decimal, s);
    PlainTextPassthrough(s);
  }

  /** A dash list as markdown: line `i` is the white space `ws[i]`, the
      marker `- ` and the text `ts[i]`, and the lines are joined by line
      feeds. White space may hold line feeds, so blank lines can sit between
      the items. */
  function DashList(ws: seq<string>, ts: seq<string>): string
    requires |ws| == |ts| > 0
    decreases |ts|
  {
    ws[0] + ("- " + (ts[0] + (if |ts| == 1 then [] else "\n" + DashList(ws[1..], ts[1..]))))
  }

  /** One rendered dash item. */
  function Item(t: string): string {
    ItemOpen(Disc) + t + ItemClose
  }

  /** What the dash pass makes of a dash list: one item per line. */
  function ItemLines(ts: seq<string>): string
    requires |ts| > 0
    decreases |ts|, 0
  {
    Item(ts[0]) + LinesTail(ts[1..])
  }

  /** The line feed and item lines that follow a first item, if any. */
  function LinesTail(ts: seq<string>): string
    decreases |ts|, 1
  {
    if ts == [] then [] else "\n" + ItemLines(ts)
  }

  /** The items joined with no line feed between them. */
  function ItemRun(ts: seq<string>): string
    decreases |ts|
  {
    if ts == [] then [] else Item(ts[0]) + ItemRun(ts[1..])
  }

  /** Item text that none of the passes touches and that stays on its line. */
  predicate PlainItemText(t: string) {
    NoTerminator(t) && '<' !in t && '#' !in t && '*' !in t
  }

  /** A character that is neither white space nor the dash, and that no item
      text holds, does not occur in the dash list. */
  lemma {:induction false} DashListLacks(ws: seq<string>, ts: seq<string>, c: char)
    requires |ws| == |ts| > 0 && !IsSpace(c) && c != '-'
    requires forall i :: 0 <= i < |ws| ==> AllSpace(ws[i])
    requires forall i :: 0 <= i < |ts| ==> c !in ts[i]
    ensures c !in DashList(ws, ts)
    decreases |ts|
  {
    assert c !in ws[0];
    if |ts| > 1 {
      DashListLacks(ws[1..], ts[1..], c);
    }
  }

  /** The dash pass turns each line of a dash list into an item; the white
      space and blank lines in front of a marker go with it. Whatever follows
      the list on later lines, `x`, is scanned on as usual. */
  lemma {:induction false} DashPass(ws: seq<string>, ts: seq<string>, x: string)
    requires |ws| == |ts| > 0
    requires forall i :: 0 <= i < |ws| ==> AllSpace(ws[i])
    requires forall i :: 0 <= i < |ts| ==> NoTerminator(ts[i])
    requires x == [] || IsLineTerminator(x[0])
    ensures ItemScan(Disc, DashList(ws, ts) + x, true) == ItemLines(ts) + ItemScan(Disc, x, false)
    decreases |ts|
  {
    var r := if |ts| == 1 then [] else "\n" + DashList(ws[1..], ts[1..]);
    var rx := r + x;
    var tail := ItemScan(Disc, rx, false);
    assert ItemScan(Disc, DashList(ws, ts) + x, true) == Item(ts[0]) + tail by {
      assert DashList(ws, ts) == ws[0] + ("- " + (ts[0] + r));
      Nest(ws[0], "- ", ts[0], r, x);
      ItemAfterSpace(Disc, ws[0], "- ", ts[0], rx);
    }
    if |ts| > 1 {
      var rest := DashList(ws[1..], ts[1..]) + x;
      var done := ItemScan(Disc, x, false);
      assert tail == "\n" + ItemScan(Disc, rest, true) by {
        Assoc("\n", DashList(ws[1..], ts[1..]), x);
        assert rx[0] == '\n' && rx[1..] == rest;
        ItemStep(Disc, rx, false);
      }
      DashPass(ws[1..], ts[1..], x);
      assert ItemLines(ts) == Item(ts[0]) + ("\n" + ItemLines(ts[1..]));
      Assoc("\n", ItemLines(ts[1..]), done);
      Assoc(Item(ts[0]), "\n" + ItemLines(ts[1..]), done);
    } else {
      assert rx == x by {
        assert r == [];
      }
      assert ItemLines(ts) == Item(ts[0]) by {
        assert LinesTail(ts[1..]) == [];
        assert Item(ts[0]) + [] == Item(ts[0]);
      }
    }
  }

  /** Re-nesting a right-nested concatenation with one more part at its end. */
  lemma Nest<T>(a: seq<T>, b: seq<T>, c: seq<T>, r: seq<T>, x: seq<T>)
    ensures (a + (b + (c + r))) + x == a + (b + (c + (r + x)))
  {
  }

  /** A line that starts with a tag is no list item of either kind. */
  lemma TagLineNoItem(kind: Kind, l: string)
    requires l != [] && l[0] == '<'
    ensures ItemMatch(kind, l).None?
  {
    assert SpaceRun(l) == 0 && l[0..] == l;
    assert DigitRun(l) == 0;
  }

  lemma ItemNoTerminator(t: string)
    requires NoTerminator(t)
    ensures NoTerminator(Item(t))
  {
    NoTerminatorConcat(ItemOpen(Disc), t);
    NoTerminatorConcat(ItemOpen(Disc) + t, ItemClose);
  }

  /** The numbered pass leaves the rendered dash items alone, and scans on
      into what follows them, `x`. */
  lemma {:induction false} NumberedPassKeeps(ts: seq<string>, x: string)
    requires |ts| > 0
    requires forall i :: 0 <= i < |ts| ==> NoTerminator(ts[i])
    requires x == [] || IsLineTerminator(x[0])
    ensures ItemScan(Decimal, ItemLines(ts) + x, true) == ItemLines(ts) + ItemScan(Decimal, x, false)
    decreases |ts|
  {
    var line, r := Item(ts[0]), LinesTail(ts[1..]);
    var rx := r + x;
    var tail := ItemScan(Decimal, rx, false);
    assert ItemScan(Decimal, ItemLines(ts) + x, true) == line + tail by {
      assert ItemLines(ts) == line + r;
      Assoc(line, r, x);
      ItemLineKept(ts[0], rx);
    }
    if r != [] {
      var rest := ItemLines(ts[1..]) + x;
      var done := ItemScan(Decimal, x, false);
      assert tail == "\n" + ItemScan(Decimal, rest, true) by {
        assert r == "\n" + ItemLines(ts[1..]);
        Assoc("\n", ItemLines(ts[1..]), x);
        assert rx[0] == '\n' && rx[1..] == rest;
        ItemStep(Decimal, rx, false);
      }
      var more := ItemLines(ts[1..]);
      calc {
        ItemScan(Decimal, ItemLines(ts) + x, true);
        line + tail;
        line + ("\n" + ItemScan(Decimal, rest, true));
        { NumberedPassKeeps(ts[1..], x); }
        line + ("\n" + (more + done));
        { Assoc("\n", more, done); }
        line + (("\n" + more) + done);
        { Assoc(line, "\n" + more, done); }
        (line + ("\n" + more)) + done;
        ItemLines(ts) + done;
      }
    } else {
      assert rx == x by {
        assert r == [];
      }
      assert ItemLines(ts) == line by {
        assert ItemLines(ts) == line + r;
        assert line + [] == line;
      }
    }
  }

  /** A rendered dash item is a line the numbered pass copies. */
  lemma ItemLineKept(t: string, rx: string)
    requires NoTerminator(t) && (rx == [] || IsLineTerminator(rx[0]))
    ensures ItemScan(Decimal, Item(t) + rx, true) == Item(t) + ItemScan(Decimal, rx, false)
  {
    var line := Item(t);
    ItemNoTerminator(t);
    assert line[0] == '<' && !IsSpace(line[0]);
    assert !AllSpace(line);
    TagLineNoItem(Decimal, line);
    ItemScanLine(Decimal, line, rx);
  }

  /** The opening tag of a dash item after its `<li`, and after its `<`. */
  const DiscRest := " class=\"ml-6 list-disc\">"
  const DiscTail := "li" + DiscRest

  /** The opening tag of a dash item shares its `<li` with the seam. */
  lemma OpenParts()
    ensures ItemOpen(Disc) == "<li" + DiscRest && ItemOpen(Disc) == "<" + DiscTail
  {
  }

  lemma SeamParts()
    ensures Seam == ItemClose + "\n" + "<li"
  {
  }

  lemma JoinedParts()
    ensures Joined == ItemClose + "<li"
  {
  }

  lemma DiscTailPlain()
    ensures '<' !in DiscTail && '<' !in DiscRest && DiscTail[0] == 'l'
  {
  }

  lemma Regather<T>(h: seq<T>, o: seq<T>, t: seq<T>, c: seq<T>, r: seq<T>)
    ensures h + o + t + c + r == h + ((o + t) + c + r)
  {
  }

  lemma Regroup<T>(c: seq<T>, n: seq<T>, l: seq<T>, o: seq<T>, t: seq<T>, r: seq<T>)
    ensures c + (n + (l + o + t + c + r)) == (c + n + l) + (o + t + c + r)
  {
  }

  /** A closing tag, the line feed and the next item hold a seam. */
  lemma SeamSplit(t: string, rest: string)
    ensures ItemClose + ("\n" + (Item(t) + rest)) == Seam + (DiscRest + t + ItemClose + rest)
  {
    OpenParts();
    SeamParts();
    Regroup(ItemClose, "\n", "<li", DiscRest, t, rest);
  }

  /** What the seam became, with the next item's opening tag, is the closing
      tag followed by that item. */
  lemma JoinedSplit(t: string, rest: string)
    ensures Joined + (DiscRest + t + ItemClose + rest) == ItemClose + (Item(t) + rest)
  {
    OpenParts();
    JoinedParts();
    Regroup(ItemClose, [], "<li", DiscRest, t, rest);
    assert ItemClose + [] == ItemClose;
  }

  /** Stitching, from the end of one item on: every line feed between two
      items goes, and the text after the last item, `z`, is kept when the
      closing tag before it forms no seam with it. */
  lemma {:induction false} StitchTail(u: string, ts: seq<string>, z: string)
    requires '<' !in u
    requires forall i :: 0 <= i < |ts| ==> '<' !in ts[i]
    requires StitchScan(ItemClose + z) == ItemClose + z
    ensures StitchScan(u + ItemClose + (LinesTail(ts) + z)) == u + ItemClose + (ItemRun(ts) + z)
    decreases |ts|
  {
    if ts == [] {
      assert LinesTail(ts) + z == z && ItemRun(ts) + z == z;
      Assoc(u, ItemClose, z);
      StitchPlain(u, ItemClose + z);
    } else {
      var t, rest := ts[0], LinesTail(ts[1..]) + z;
      var u' := DiscRest + t;
      var x := u' + ItemClose + rest;
      var done := ItemRun(ts[1..]) + z;
      assert u + ItemClose + (LinesTail(ts) + z) == u + (Seam + x) by {
        assert LinesTail(ts) == "\n" + (Item(t) + LinesTail(ts[1..]));
        Nest("\n", Item(t), [], LinesTail(ts[1..]), z);
        assert Item(t) + [] == Item(t);
        SeamSplit(t, rest);
        Assoc(u, ItemClose, "\n" + (Item(t) + rest));
      }
      assert StitchScan(u + (Seam + x)) == u + (Joined + StitchScan(x)) by {
        DiscTailPlain();
        StitchPlain(u, Seam + x);
        StitchSeam(x);
      }
      assert StitchScan(x) == u' + ItemClose + done by {
        StitchTail(u', ts[1..], z);
      }
      assert u + (Joined + (u' + ItemClose + done)) == u + ItemClose + (ItemRun(ts) + z) by {
        JoinedSplit(t, done);
        Assoc(u, ItemClose, Item(t) + done);
        Assoc(Item(t), ItemRun(ts[1..]), z);
      }
    }
  }

  /** Stitching the item lines leaves the items with nothing between them,
      and keeps the text `z` after them. */
  lemma StitchItems(ts: seq<string>, z: string)
    requires |ts| > 0
    requires forall i :: 0 <= i < |ts| ==> '<' !in ts[i]
    requires StitchScan(ItemClose + z) == ItemClose + z
    ensures StitchScan(ItemLines(ts) + z) == ItemRun(ts) + z
  {
    var o, t := DiscTail, ts[0];
    var rest, done := LinesTail(ts[1..]) + z, ItemRun(ts[1..]) + z;
    var x := (o + t) + ItemClose + rest;
    var s := ItemLines(ts) + z;
    OpenParts();
    DiscTailPlain();
    assert s == "<" + x by {
      Assoc(Item(t), LinesTail(ts[1..]), z);
      Regather("<", o, t, ItemClose, rest);
    }
    assert StitchScan(s) == "<" + StitchScan(x) by {
      assert s[1] == 'l' && s[1..] == x;
      StitchStep(s);
    }
    StitchTail(o + t, ts[1..], z);
    assert ItemRun(ts) + z == "<" + ((o + t) + ItemClose + done) by {
      Assoc(Item(t), ItemRun(ts[1..]), z);
      Regather("<", o, t, ItemClose, done);
    }
  }

  /** A rendered item of either kind starts a match of the grouping
      pattern. */
  lemma GroupMatchItem(kind: Kind, y: string)
    ensures GroupMatch(ItemOpen(kind) + y).Some?
  {
    var o := ItemOpen(kind);
    var s, j := o + y, |o| - 1;
    OpenShape(kind);
    assert "<li" <= s by {
      assert s[..3] == o[..3];
    }
    assert s[j] == '>' by {
      assert s[j] == o[j];
    }
    assert s[3..j] == o[3..j];
    GroupMatchMeaning(s);
  }

  /** The opening tag of an item: `<li`, text on one line, and `>`. */
  lemma OpenShape(kind: Kind)
    ensures var o := ItemOpen(kind);
      |o| >= 4 && "<li" <= o && o[|o| - 1] == '>' && NoTerminator(o[3..|o| - 1])
  {
    var o := ItemOpen(kind);
    assert o[..3] == "<li";
    ItemOpenNoTerminator(kind);
    var m := o[3..|o| - 1];
    assert NoTerminator(m) by {
      forall i | 0 <= i < |m| ensures !IsLineTerminator(m[i]) {
        assert m[i] == o[3 + i];
      }
    }
  }

  /** Grouping wraps the items and whatever follows them in one unordered
      list, with the extra closing item tag. */
  lemma GroupItems(ts: seq<string>, x: string)
    requires |ts| > 0
    ensures GroupScan(ItemRun(ts) + x) == UlOpen + (ItemRun(ts) + x) + UlClose
  {
    var s := ItemRun(ts) + x;
    assert s == ItemOpen(Disc) + (ts[0] + ItemClose + ItemRun(ts[1..]) + x);
    GroupMatchItem(Disc, ts[0] + ItemClose + ItemRun(ts[1..]) + x);
    assert OccursAt(s, ItemOpen(Disc), 0);
    GroupAt(s);
  }

  lemma {:induction false} ItemRunNoTerminator(ts: seq<string>)
    requires forall i :: 0 <= i < |ts| ==> NoTerminator(ts[i])
    ensures NoTerminator(ItemRun(ts))
    decreases |ts|
  {
    if ts != [] {
      ItemNoTerminator(ts[0]);
      ItemRunNoTerminator(ts[1..]);
      NoTerminatorConcat(Item(ts[0]), ItemRun(ts[1..]));
    }
  }

  /** The header, bold and item passes on a dash list. */
  lemma DashListItems(ws: seq<string>, ts: seq<string>)
    requires |ws| == |ts| > 0
    requires forall i :: 0 <= i < |ws| ==> AllSpace(ws[i])
    requires forall i :: 0 <= i < |ts| ==> PlainItemText(ts[i])
    ensures ItemScan(Decimal, ItemScan(Disc, BoldScan(HeaderPasses(DashList(ws, ts))), true), true) == ItemLines(ts)
  {
    var src := DashList(ws, ts);
    DashListLacks(ws, ts, '#');
    HeadersNoHash(src);
    DashListLacks(ws, ts, '*');
    BoldNoStar(src, []);
    assert src + [] == src;
    DashPass(ws, ts, []);
    assert src + [] == src && ItemLines(ts) + [] == ItemLines(ts);
    NumberedPassKeeps(ts, []);
  }

  /** The last two passes leave a single line without a terminator alone. */
  lemma OneLineKept(x: string)
    requires NoTerminator(x)
    ensures BreakLines(ParagraphPass(x)) == x
  {
    ParaLastLine(x, true);
    NoLineFeed(x);
    BreakLinesNone(x);
  }

  lemma ListTagsNoTerminator()
    ensures NoTerminator(UlOpen) && NoTerminator(UlClose)
  {
  }

  /** The paragraph and line-break passes keep a list on one line. */
  lemma ListOnOneLine(ts: seq<string>)
    requires forall i :: 0 <= i < |ts| ==> NoTerminator(ts[i])
    ensures BreakLines(ParagraphPass(UlOpen + ItemRun(ts) + UlClose)) == UlOpen + ItemRun(ts) + UlClose
  {
    ItemRunNoTerminator(ts);
    ListTagsNoTerminator();
    NoTerminatorConcat(UlOpen, ItemRun(ts));
    NoTerminatorConcat(UlOpen + ItemRun(ts), UlClose);
    OneLineKept(UlOpen + ItemRun(ts) + UlClose);
  }

  /** A dash list renders as one unordered list of its items. */
  lemma RenderDashList(ws: seq<string>, ts: seq<string>)
    requires |ws| == |ts| > 0
    requires forall i :: 0 <= i < |ws| ==> AllSpace(ws[i])
    requires forall i :: 0 <= i < |ts| ==> PlainItemText(ts[i])
    ensures ParseMarkdown(DashList(ws, ts)) == UlOpen + ItemRun(ts) + UlClose
  {
    DashListItems(ws, ts);
    assert ItemClose + [] == ItemClose;
    StitchNoSeam(ItemClose);
    StitchItems(ts, []);
    assert ItemLines(ts) + [] == ItemLines(ts);
    GroupItems(ts, []);
    assert ItemRun(ts) + [] == ItemRun(ts);
    ListOnOneLine(ts);
  }

  /** A line that starts with a tag, after a line feed, is no item line. */
  lemma TagLineAfterBreak(kind: Kind, e: string)
    requires e != [] && e[0] == '<' && NoTerminator(e)
    ensures ItemScan(kind, "\n" + e, false) == "\n" + e
  {
    var s := "\n" + e;
    assert s[0] == '\n' && s[1..] == e;
    ItemStep(kind, s, false);
    TagLineNoItem(kind, e);
    ItemScanLine(kind, e, []);
    assert e + [] == e;
  }

  /** A closing item tag, a line feed and a line whose second character is
      not `l` hold no seam: the only line feed there is the one after the
      tag, and `<l` does not follow it. */
  lemma StitchBeforeLine(e: string)
    requires NoTerminator(e) && |e| >= 2 && e[1] != 'l'
    ensures StitchScan(ItemClose + ("\n" + e)) == ItemClose + ("\n" + e)
  {
    var y := ItemClose + ("\n" + e);
    assert !Contains(y, Seam) by {
      forall i: nat ensures !OccursAt(y, Seam, i) {
        NoSeamAt(e, i);
      }
    }
    StitchNoSeam(y);
  }

  /** Helper for `StitchBeforeLine`, at one position: a seam needs a line
      feed five characters in, and `<l` after it. */
  lemma NoSeamAt(e: string, i: nat)
    requires NoTerminator(e) && |e| >= 2 && e[1] != 'l'
    ensures !OccursAt(ItemClose + ("\n" + e), Seam, i)
  {
    var y := ItemClose + ("\n" + e);
    if i + |Seam| <= |y| {
      var w := y[i..i + |Seam|];
      assert |ItemClose| == 5 && |Seam| == 9;
      assert Seam[5] == '\n' && Seam[7] == 'l';
      if i == 0 {
        assert w[7] == e[1];
      } else {
        assert w[5] == e[i - 1];
      }
    }
  }

  /** Two lines that start with tags, joined by a line feed: neither is
      wrapped in a paragraph, and the line feed becomes `<br />`. */
  lemma TagLinesJoined(l1: string, l2: string)
    requires l1 != [] && l1[0] == '<' && NoTerminator(l1)
    requires l2 != [] && l2[0] == '<' && NoTerminator(l2)
    ensures BreakLines(ParagraphPass(l1 + ("\n" + l2))) == l1 + Break + l2
  {
    var r := "\n" + l2;
    ParaTagLine(l1, r);
    assert r[0] == '\n' && r[1..] == l2;
    ParaStep(r, false);
    ParaLastLine(l2, true);
    BreakLinesConcat(l1, r);
    BreakLinesConcat("\n", l2);
    BreakLinesChar('\n');
    NoLineFeed(l1);
    BreakLinesNone(l1);
    NoLineFeed(l2);
    BreakLinesNone(l2);
  }

  /** A level-1 header element. */
  function H1(h: string): string {
    Open(1) + h + Close(1)
  }

  lemma H1Shape(h: string)
    requires PlainItemText(h)
    ensures NoTerminator(H1(h)) && '*' !in H1(h) && |H1(h)| >= 2
    ensures H1(h)[0] == '<' && H1(h)[1] == 'h'
  {
    var o, c := Open(1), Close(1);
    assert NoTerminator(H1(h)) by {
      TagsNoTerminator(1);
      NoTerminatorConcat(o, h);
      NoTerminatorConcat(o + h, c);
    }
    H1Tags();
    NotInThree('*', o, h, c);
    assert H1(h)[0] == o[0] && H1(h)[1] == o[1];
  }

  /** What the level-1 tags hold. */
  lemma H1Tags()
    ensures '*' !in Open(1) && '*' !in Close(1)
    ensures |Open(1)| >= 2 && Open(1)[0] == '<' && Open(1)[1] == 'h'
  {
  }

  lemma NotInThree<T>(x: T, a: seq<T>, b: seq<T>, c: seq<T>)
    requires x !in a && x !in b && x !in c
    ensures x !in a + b + c
  {
  }

  /** The header and bold passes on a dash list followed by a header line
      `# h`: only the header line changes. */
  lemma ListHeaderTagged(ws: seq<string>, ts: seq<string>, h: string)
    requires |ws| == |ts| > 0
    requires forall i :: 0 <= i < |ws| ==> AllSpace(ws[i])
    requires forall i :: 0 <= i < |ts| ==> PlainItemText(ts[i])
    requires PlainItemText(h)
    ensures BoldScan(HeaderPasses(DashList(ws, ts) + ("\n" + ("# " + h)))) == DashList(ws, ts) + ("\n" + H1(h))
  {
    var src := DashList(ws, ts);
    var a := src + "\n";
    var headed := a + H1(h);
    assert HeaderPasses(src + ("\n" + ("# " + h))) == headed by {
      Assoc(src, "\n", "# " + h);
      DashListLacks(ws, ts, '#');
      HeaderAfterPlainLines(a, h);
    }
    assert BoldScan(headed) == headed by {
      H1Shape(h);
      DashListLacks(ws, ts, '*');
      assert '*' !in headed;
      BoldNoStar(headed, []);
      assert headed + [] == headed;
    }
    Assoc(src, "\n", H1(h));
  }

  /** The two item passes on a dash list followed by a line that starts with
      a tag: the items as before, the tag line untouched. */
  lemma ListItemsBeforeTag(ws: seq<string>, ts: seq<string>, e: string)
    requires |ws| == |ts| > 0
    requires forall i :: 0 <= i < |ws| ==> AllSpace(ws[i])
    requires forall i :: 0 <= i < |ts| ==> PlainItemText(ts[i])
    requires e != [] && e[0] == '<' && NoTerminator(e)
    ensures ItemScan(Decimal, ItemScan(Disc, DashList(ws, ts) + ("\n" + e), true), true) == ItemLines(ts) + ("\n" + e)
  {
    var x := "\n" + e;
    assert ItemScan(Disc, DashList(ws, ts) + x, true) == ItemLines(ts) + x by {
      DashPass(ws, ts, x);
      TagLineAfterBreak(Disc, e);
    }
    assert ItemScan(Decimal, ItemLines(ts) + x, true) == ItemLines(ts) + x by {
      NumberedPassKeeps(ts, x);
      TagLineAfterBreak(Decimal, e);
    }
  }

  /** The header, bold and item passes on a dash list followed by a header
      line `# h`: the items as before, then the line feed and the header. */
  lemma ListHeaderItems(ws: seq<string>, ts: seq<string>, h: string)
    requires |ws| == |ts| > 0
    requires forall i :: 0 <= i < |ws| ==> AllSpace(ws[i])
    requires forall i :: 0 <= i < |ts| ==> PlainItemText(ts[i])
    requires PlainItemText(h)
    ensures var md := DashList(ws, ts) + ("\n" + ("# " + h));
      ItemScan(Decimal, ItemScan(Disc, BoldScan(HeaderPasses(md)), true), true) == ItemLines(ts) + ("\n" + H1(h))
  {
    ListHeaderTagged(ws, ts, h);
    H1Shape(h);
    ListItemsBeforeTag(ws, ts, H1(h));
  }

  /** Stitching and grouping on item lines followed by a header line: the
      items are joined, and the one list runs on past the header to the end. */
  lemma ListGroupedPastHeader(ts: seq<string>, h: string)
    requires |ts| > 0
    requires forall i :: 0 <= i < |ts| ==> PlainItemText(ts[i])
    requires PlainItemText(h)
    ensures GroupScan(StitchScan(ItemLines(ts) + ("\n" + H1(h)))) == UlOpen + ItemRun(ts) + ("\n" + (H1(h) + UlClose))
  {
    StitchBeforeHeader(ts, h);
    GroupItems(ts, "\n" + H1(h));
    Reshape(UlOpen, ItemRun(ts), "\n", H1(h), UlClose);
  }

  lemma Reshape<T>(o: seq<T>, r: seq<T>, n: seq<T>, e: seq<T>, c: seq<T>)
    ensures o + (r + (n + e)) + c == o + r + (n + (e + c))
  {
  }

  /** Stitching joins item lines that a header line follows, and leaves the
      line feed before the header alone. */
  lemma StitchBeforeHeader(ts: seq<string>, h: string)
    requires |ts| > 0
    requires forall i :: 0 <= i < |ts| ==> PlainItemText(ts[i])
    requires PlainItemText(h)
    ensures StitchScan(ItemLines(ts) + ("\n" + H1(h))) == ItemRun(ts) + ("\n" + H1(h))
  {
    H1Shape(h);
    StitchBeforeLine(H1(h));
    StitchItems(ts, "\n" + H1(h));
  }

  /** A header line after a dash list ends up inside the list: the grouping
      match runs to the end of the input, so the `<ul>` closes after the
      header, and the line feed between them becomes `<br />`. */
  lemma RenderListThenHeader(ws: seq<string>, ts: seq<string>, h: string)
    requires |ws| == |ts| > 0
    requires forall i :: 0 <= i < |ws| ==> AllSpace(ws[i])
    requires forall i :: 0 <= i < |ts| ==> PlainItemText(ts[i])
    requires PlainItemText(h)
    ensures ParseMarkdown(DashList(ws, ts) + ("\n" + ("# " + h))) == UlOpen + ItemRun(ts) + Break + H1(h) + UlClose
  {
    var l1, l2 := UlOpen + ItemRun(ts), H1(h) + UlClose;
    var md := DashList(ws, ts) + ("\n" + ("# " + h));
    assert GroupScan(StitchScan(ItemScan(Decimal, ItemScan(Disc, BoldScan(HeaderPasses(md)), true), true))) == l1 + ("\n" + l2) by {
      ListHeaderItems(ws, ts, h);
      ListGroupedPastHeader(ts, h);
    }
    assert BreakLines(ParagraphPass(l1 + ("\n" + l2))) == l1 + Break + l2 by {
      TagLinesAround(ts, h);
    }
    Assoc(l1 + Break, H1(h), UlClose);
  }

  /** Helper for `RenderListThenHeader`: the two lines of its output start
      with tags and hold no line terminator. */
  lemma TagLinesAround(ts: seq<string>, h: string)
    requires forall i :: 0 <= i < |ts| ==> PlainItemText(ts[i])
    requires PlainItemText(h)
    ensures var l1, l2 := UlOpen + ItemRun(ts), H1(h) + UlClose;
      BreakLines(ParagraphPass(l1 + ("\n" + l2))) == l1 + Break + l2
  {
    ListLineShape(ts);
    HeaderLineShape(h);
    TagLinesJoined(UlOpen + ItemRun(ts), H1(h) + UlClose);
  }

  /** An opened list of items is one line that starts with a tag. */
  lemma ListLineShape(ts: seq<string>)
    requires forall i :: 0 <= i < |ts| ==> PlainItemText(ts[i])
    ensures var l := UlOpen + ItemRun(ts); l != [] && l[0] == '<' && NoTerminator(l)
  {
    ItemRunNoTerminator(ts);
    ListTagsNoTerminator();
    NoTerminatorConcat(UlOpen, ItemRun(ts));
    assert (UlOpen + ItemRun(ts))[0] == UlOpen[0];
  }

  /** A header closed by the end of the list is one line that starts with a
      tag. */
  lemma HeaderLineShape(h: string)
    requires PlainItemText(h)
    ensures var l := H1(h) + UlClose; l != [] && l[0] == '<' && NoTerminator(l)
  {
    H1Shape(h);
    ListTagsNoTerminator();
    NoTerminatorConcat(H1(h), UlClose);
    assert (H1(h) + UlClose)[0] == H1(h)[0];
  }

  /** The rendering of two dash items `a` and `b`: one unordered list, with
      the extra closing item tag before `</ul>`. */
  const TwoItemList :=
    "<ul class=\"my-2 space-y-1\">"
    + "<li class=\"ml-6 list-disc\">a</li>"
    + "<li class=\"ml-6 list-disc\">b</li>"
    + "</li></ul>"

  lemma TwoItems()
    ensures UlOpen + ItemRun(["a", "b"]) + UlClose == TwoItemList
  {
    assert ["a", "b"][1..] == ["b"] && ["b"][1..] == [];
    assert ItemRun(["a", "b"]) == Item("a") + (Item("b") + []);
    assert Item("a") == "<li class=\"ml-6 list-disc\">a</li>";
    assert Item("b") == "<li class=\"ml-6 list-disc\">b</li>";
  }

  lemma DashListExample(s: string)
    requires s == "- a\n- b"
    ensures ParseMarkdown(s) == TwoItemList
  {
    var ws, ts := ["", ""], ["a", "b"];
    assert DashList(ws, ts) == s by {
      assert ws[1..] == [""] && ts[1..] == ["b"];
    }
    RenderDashList(ws, ts);
    TwoItems();
  }

  /** A blank line between the items changes nothing: the white space in
      front of the second marker swallows it. */
  lemma BlankLineExample(s: string)
    requires s == "- a\n\n- b"
    ensures ParseMarkdown(s) == TwoItemList
  {
    var ws, ts := ["", "\n"], ["a", "b"];
    assert DashList(ws, ts) == s by {
      assert ws[1..] == ["\n"] && ts[1..] == ["b"];
    }
    assert AllSpace(ws[1]);
    RenderDashList(ws, ts);
    TwoItems();
  }

  /** The rendering of a dash item `a` followed by the header `T`: the
      header lands inside the list, after a `<br />`. */
  const ItemThenHeader :=
    "<ul class=\"my-2 space-y-1\">"
    + "<li class=\"ml-6 list-disc\">a</li>"
    + "<br />"
    + "<h1 class=\"text-2xl font-bold my-4\">T</h1>"
    + "</li></ul>"

  lemma ItemAndHeader()
    ensures UlOpen + ItemRun(["a"]) + Break + H1("T") + UlClose == ItemThenHeader
  {
    assert ["a"][1..] == [];
    assert ItemRun(["a"]) == Item("a") + [];
    assert Item("a") == "<li class=\"ml-6 list-disc\">a</li>";
    assert H1("T") == "<h1 class=\"text-2xl font-bold my-4\">T</h1>";
  }

  lemma ListThenHeaderExample(s: string)
    requires s == "- a\n# T"
    ensures ParseMarkdown(s) == ItemThenHeader
  {
    var ws, ts := [""], ["a"];
    assert DashList(ws, ts) + ("\n" + ("# " + "T")) == s;
    assert PlainItemText(ts[0]) && PlainItemText("T");
    RenderListThenHeader(ws, ts, "T");
    ItemAndHeader();
  }

  /** One rendered numbered item. */
  function NumberedItem(t: string): string {
    ItemOpen(Decimal) + t + ItemClose
  }

  /** Text without a line feed holds no seam. */
  lemma NoLineFeedNoSeam(x: string)
    requires '\n' !in x
    ensures !Contains(x, Seam)
  {
    forall i: nat ensures !OccursAt(x, Seam, i) {
      if i + |Seam| <= |x| {
        assert x[i..i + |Seam|][5] == x[i + 5];
        assert Seam[5] == '\n';
      }
    }
  }

  /** Two item lines of any kinds joined by a line feed: stitching drops the
      line feed and nothing else. */
  lemma StitchTwoLines(a: string, b: string)
    requires NoTerminator(a) && NoTerminator(b)
    requires |a| >= 5 && a[|a| - 5..] == ItemClose && "<li" <= b
    ensures StitchScan(a + ("\n" + b)) == a + b
  {
    var s := a + ("\n" + b);
    var n := |a| - 5;
    SeamBetween(a, b);
    forall i: nat | i < n ensures !OccursAt(s, Seam, i) {
      NoSeamInLine(a, "\n" + b, i);
    }
    StitchFirstSeam(s, n);
    AfterSeam(a, b);
  }

  /** Helper for `StitchTwoLines`: what follows the seam holds no other, and
      the joined text is the two lines. */
  lemma AfterSeam(a: string, b: string)
    requires NoTerminator(b)
    requires |a| >= 5 && a[|a| - 5..] == ItemClose && "<li" <= b
    ensures var s, n := a + ("\n" + b), |a| - 5;
      s[..n] + Joined + StitchScan(s[n + |Seam|..]) == a + b
  {
    var s, n := a + ("\n" + b), |a| - 5;
    var rest := b[3..];
    assert s[n + |Seam|..] == rest;
    assert StitchScan(rest) == rest by {
      assert '\n' !in rest;
      NoLineFeedNoSeam(rest);
      StitchNoSeam(rest);
    }
    assert a == s[..n] + ItemClose && b == "<li" + rest;
    JoinedParts();
    Nest3(s[..n], ItemClose, "<li", rest);
  }

  lemma Nest3<T>(a: seq<T>, c: seq<T>, l: seq<T>, r: seq<T>)
    ensures a + (c + l) + r == (a + c) + (l + r)
  {
  }

  /** Helper for `StitchTwoLines`: the closing tag, the line feed and `<li`
      form a seam. */
  lemma SeamBetween(a: string, b: string)
    requires |a| >= 5 && a[|a| - 5..] == ItemClose && "<li" <= b
    ensures OccursAt(a + ("\n" + b), Seam, |a| - 5)
  {
    var s, n := a + ("\n" + b), |a| - 5;
    SeamParts();
    assert s[n..n + |Seam|] == a[n..] + "\n" + b[..3];
  }

  /** Helper for `StitchTwoLines`: a seam needs a line feed five characters
      in, so none starts early enough in a line to end inside it. */
  lemma NoSeamInLine(a: string, r: string, i: nat)
    requires NoTerminator(a) && i + 5 < |a|
    ensures !OccursAt(a + r, Seam, i)
  {
    var s := a + r;
    if i + |Seam| <= |s| {
      assert s[i..i + |Seam|][5] == a[i + 5];
      assert Seam[5] == '\n';
    }
  }

  /** The dash pass on `1. a` and `- t`: only the dash line becomes an item. */
  lemma MixedDashPass(t: string)
    requires NoTerminator(t)
    ensures ItemScan(Disc, "1. a" + ("\n" + ("- " + t)), true) == "1. a" + ("\n" + Item(t))
  {
    DashSkipsNumbered("\n" + ("- " + t));
    ScanAfterBreak(Disc, "- " + t);
    DashLineOf(t);
  }

  /** The dash pass keeps the line `1. a`. */
  lemma DashSkipsNumbered(r: string)
    requires r == [] || IsLineTerminator(r[0])
    ensures ItemScan(Disc, "1. a" + r, true) == "1. a" + ItemScan(Disc, r, false)
  {
    NumberedLineShape();
    ItemScanLine(Disc, "1. a", r);
  }

  lemma NumberedLineShape()
    ensures ItemMatch(Disc, "1. a").None? && !AllSpace("1. a") && NoTerminator("1. a")
  {
    var l := "1. a";
    assert SpaceRun(l) == 0 && l[0..] == l;
    assert !IsSpace(l[0]);
  }

  /** After a line feed, a pass goes on at a line start. */
  lemma ScanAfterBreak(kind: Kind, x: string)
    ensures ItemScan(kind, "\n" + x, false) == "\n" + ItemScan(kind, x, true)
  {
    var r := "\n" + x;
    assert r[0] == '\n' && r[1..] == x;
    ItemStep(kind, r, false);
  }

  /** The dash line `- t`, the last of its input, becomes one item. */
  lemma DashLineOf(t: string)
    requires NoTerminator(t)
    ensures ItemScan(Disc, "- " + t, true) == Item(t)
  {
    assert "" + ("- " + (t + [])) == "- " + t;
    ItemAfterSpace(Disc, "", "- ", t, []);
    assert Item(t) + [] == Item(t);
  }

  /** The numbered pass after it: the numbered line becomes an item and the
      dash item is kept. */
  lemma MixedNumberedPass()
    ensures ItemScan(Decimal, "1. a" + ("\n" + Item("b")), true) == NumberedItem("a") + ("\n" + Item("b"))
  {
    var b := Item("b");
    assert IsMarker(Decimal, "1. ") by {
      assert "1. "[..1] == "1" && AllDigits("1");
    }
    assert "" + ("1. " + ("a" + ("\n" + b))) == "1. a" + ("\n" + b);
    ItemAfterSpace(Decimal, "", "1. ", "a", "\n" + b);
    ItemNoTerminator("b");
    assert b[0] == '<';
    TagLineAfterBreak(Decimal, b);
  }

  /** The grouping pass wraps a numbered item followed by a dash item in
      `<ul>`: a dash item anywhere in the match decides the list kind. */
  lemma MixedGroup()
    ensures GroupScan(NumberedItem("a") + Item("b")) == UlOpen + (NumberedItem("a") + Item("b")) + UlClose
  {
    var m := NumberedItem("a") + Item("b");
    assert GroupMatch(m).Some? by {
      assert m == ItemOpen(Decimal) + ("a" + ItemClose + Item("b"));
      GroupMatchItem(Decimal, "a" + ItemClose + Item("b"));
    }
    assert Contains(m, ItemOpen(Disc)) by {
      DiscAfter(NumberedItem("a"), "b");
    }
    GroupAt(m);
  }

  /** A dash item after any text holds the dash opening tag. */
  lemma DiscAfter(a: string, t: string)
    ensures OccursAt(a + Item(t), ItemOpen(Disc), |a|)
  {
    var m, o := a + Item(t), ItemOpen(Disc);
    assert m[|a|..|a| + |o|] == Item(t)[..|o|] == o;
  }

  /** The rendering of a numbered item `a` followed by a dash item `b`: one
      unordered list that holds both. */
  const MixedList :=
    "<ul class=\"my-2 space-y-1\">"
    + "<li class=\"ml-6 list-decimal\">a</li>"
    + "<li class=\"ml-6 list-disc\">b</li>"
    + "</li></ul>"

  lemma MixedItems()
    ensures UlOpen + (NumberedItem("a") + Item("b")) + UlClose == MixedList
  {
    assert NumberedItem("a") == "<li class=\"ml-6 list-decimal\">a</li>";
    assert Item("b") == "<li class=\"ml-6 list-disc\">b</li>";
  }

  /** A numbered list followed by a dash list is rendered as one `<ul>`. */
  lemma NumberedThenDashExample(s: string)
    requires s == "1. a\n- b"
    ensures ParseMarkdown(s) == MixedList
  {
    var a, b := NumberedItem("a"), Item("b");
    assert BoldScan(HeaderPasses(s)) == s by {
      assert '#' !in s && '*' !in s;
      HeadersNoHash(s);
      AbsentHead(s, "**");
      BoldNoDelimiter(s);
    }
    assert ItemScan(Decimal, ItemScan(Disc, s, true), true) == a + ("\n" + b) by {
      assert s == "1. a" + ("\n" + ("- " + "b"));
      MixedDashPass("b");
      MixedNumberedPass();
    }
    assert StitchScan(a + ("\n" + b)) == a + b by {
      MixedLines();
      StitchTwoLines(a, b);
    }
    var u := UlOpen + (a + b) + UlClose;
    assert GroupScan(a + b) == u by {
      MixedGroup();
    }
    assert BreakLines(ParagraphPass(u)) == u by {
      MixedLines();
      ListTagsNoTerminator();
      NoTerminatorConcat(a, b);
      NoTerminatorConcat(UlOpen, a + b);
      NoTerminatorConcat(UlOpen + (a + b), UlClose);
      OneLineKept(u);
    }
    MixedItems();
  }

  /** Helper for `NumberedThenDashExample`: the shapes of the two item lines. */
  lemma MixedLines()
    ensures var a, b := NumberedItem("a"), Item("b");
      NoTerminator(a) && NoTerminator(b) && |a| >= 5 && a[|a| - 5..] == ItemClose && "<li" <= b
  {
    var a := NumberedItem("a");
    ItemOpenNoTerminator(Decimal);
    NoTerminatorConcat(ItemOpen(Decimal), "a");
    NoTerminatorConcat(ItemOpen(Decimal) + "a", ItemClose);
    ItemNoTerminator("b");
    assert a[|a| - 5..] == ItemClose;
    assert Item("b")[..3] == "<li";
  }
}
