/** The list-group passes of the renderer. The first, `/<\/li>\n<li/g`, joins
    an item to the next one by dropping the line feed between them. The
    second, `/<li(.*?)>([^]*)(?=(<h|<li|<\/ul|$))/g` with a callback, wraps
    the items in a list element. Its `[^]*` is greedy and its `$` (no `m`
    flag) holds only at the end of the input, so the first match always runs
    to the end of the input and is the only one. */
module ListGroups {
  import opened Text
  import opened Lists

  /** The text between two items on consecutive lines, and what it becomes. */
  const Seam := ItemClose + "\n" + "<li"
  const Joined := ItemClose + "<li"

  /** The global replace of `Seam` by `Joined`. */
  function StitchScan(s: string): string
    decreases |s|
  {
    if s == [] then []
    else if Seam <= s then Joined + StitchScan(s[|Seam|..])
    else [s[0]] + StitchScan(s[1..])
  }

  /** `s` with every line feed removed. */
  function DropLineFeeds(s: string): string
    decreases |s|
  {
    if s == [] then [] else (if s[0] == '\n' then [] else [s[0]]) + DropLineFeeds(s[1..])
  }

  lemma StitchStep(s: string)
    requires s != [] && !(Seam <= s)
    ensures StitchScan(s) == [s[0]] + StitchScan(s[1..])
  {
  }

  /** Text without a seam is left alone. */
  lemma {:induction false} StitchNoSeam(s: string)
    requires !Contains(s, Seam)
    ensures StitchScan(s) == s
    decreases |s|
  {
    if s != [] {
      assert !OccursAt(s, Seam, 0);
      assert !(Seam <= s);
      assert !Contains(s[1..], Seam) by {
        forall i: nat ensures !OccursAt(s[1..], Seam, i) {
          assert !OccursAt(s, Seam, i + 1);
          if i + |Seam| <= |s[1..]| {
            assert s[1..][i..i + |Seam|] == s[i + 1..i + 1 + |Seam|];
          }
        }
      }
      StitchNoSeam(s[1..]);
      assert s == [s[0]] + s[1..];
    }
  }

  /** Text without `<` before the rest is copied unchanged. */
  lemma {:induction false} StitchPlain(a: string, rest: string)
    requires '<' !in a
    ensures StitchScan(a + rest) == a + StitchScan(rest)
    decreases |a|
  {
    if a == [] {
      assert a + rest == rest;
    } else {
      var s := a + rest;
      assert s[0] == a[0] && s[1..] == a[1..] + rest;
      StitchStep(s);
      StitchPlain(a[1..], rest);
      ConsSplit(a, StitchScan(rest));
    }
  }

  /** A seam becomes `</li><li` and the scan resumes after it. */
  lemma StitchSeam(rest: string)
    ensures StitchScan(Seam + rest) == Joined + StitchScan(rest)
  {
    assert (Seam + rest)[|Seam|..] == rest;
  }

  /** Positions where no seam starts are copied unchanged: the line feeds
      there, whatever tags surround them, stay. */
  lemma {:induction false} StitchSkip(s: string, n: nat)
    requires n <= |s|
    requires forall i: nat :: i < n ==> !OccursAt(s, Seam, i)
    ensures StitchScan(s) == s[..n] + StitchScan(s[n..])
    decreases n
  {
    if n == 0 {
      assert s[..0] + s[0..] == s[0..] == s;
    } else {
      StitchSkip(s, n - 1);
      StitchSkipOne(s, n - 1);
    }
  }

  /** Helper for `StitchSkip`: one more position without a seam. */
  lemma StitchSkipOne(s: string, i: nat)
    requires i < |s| && !OccursAt(s, Seam, i)
    ensures s[..i] + StitchScan(s[i..]) == s[..i + 1] + StitchScan(s[i + 1..])
  {
    var t := s[i..];
    StitchStep(t);
    assert t[0] == s[i] && t[1..] == s[i + 1..];
    assert s[..i] + [s[i]] == s[..i + 1];
    Assoc(s[..i], [s[i]], StitchScan(s[i + 1..]));
  }

  /** The first seam in `s`, at `n`: the text before it is kept, the seam
      becomes `</li><li`, and the scan goes on after it. */
  lemma StitchFirstSeam(s: string, n: nat)
    requires OccursAt(s, Seam, n)
    requires forall i: nat :: i < n ==> !OccursAt(s, Seam, i)
    ensures StitchScan(s) == s[..n] + Joined + StitchScan(s[n + |Seam|..])
  {
    StitchSkip(s, n);
    var t, rest := s[n..], s[n + |Seam|..];
    assert t == Seam + rest;
    StitchSeam(rest);
    Assoc(s[..n], Joined, StitchScan(rest));
  }

  lemma {:induction false} DropLineFeedsConcat(a: string, b: string)
    ensures DropLineFeeds(a + b) == DropLineFeeds(a) + DropLineFeeds(b)
    decreases |a|
  {
    if a == [] {
      assert a + b == b;
    } else {
      assert (a + b)[0] == a[0] && (a + b)[1..] == a[1..] + b;
      DropLineFeedsConcat(a[1..], b);
    }
  }

  /** Text without line feeds is its own `DropLineFeeds`. */
  lemma {:induction false} DropLineFeedsNone(a: string)
    requires '\n' !in a
    ensures DropLineFeeds(a) == a
    decreases |a|
  {
    if a != [] {
      DropLineFeedsNone(a[1..]);
      assert a == [a[0]] + a[1..];
    }
  }

  /** A seam with its line feed dropped is `</li><li`. */
  lemma DropSeam()
    ensures DropLineFeeds(Seam) == Joined && DropLineFeeds(Joined) == Joined
  {
    assert '\n' !in ItemClose && '\n' !in "<li";
    Assoc(ItemClose, "\n", "<li");
    DropLineFeedsConcat(ItemClose, "\n" + "<li");
    DropLineFeed("<li");
    DropLineFeedsNone(ItemClose);
    DropLineFeedsNone("<li");
    DropLineFeedsNone(Joined);
  }

  lemma DropLineFeed(y: string)
    ensures DropLineFeeds("\n" + y) == DropLineFeeds(y)
  {
    var t := "\n" + y;
    assert t[0] == '\n' && t[1..] == y;
  }

  /** Stitching removes line feeds and changes nothing else: with the line
      feeds dropped, the text before and after is the same. */
  lemma {:induction false} StitchOnlyDropsLineFeeds(s: string)
    ensures DropLineFeeds(StitchScan(s)) == DropLineFeeds(s)
    decreases |s|
  {
    if s != [] {
      if Seam <= s {
        var rest := s[|Seam|..];
        assert s == Seam + rest;
        StitchOnlyDropsLineFeeds(rest);
        StitchSeam(rest);
        DropLineFeedsConcat(Joined, StitchScan(rest));
        DropLineFeedsConcat(Seam, rest);
        DropSeam();
      } else {
        StitchStep(s);
        StitchOnlyDropsLineFeeds(s[1..]);
        DropLineFeedsConcat([s[0]], StitchScan(s[1..]));
        assert DropLineFeeds([s[0]]) == if s[0] == '\n' then [] else [s[0]];
      }
    }
  }

  const UlOpen := "<ul class=\"my-2 space-y-1\">"
  const OlOpen := "<ol class=\"my-2 space-y-1\">"
  const UlClose := "</li></ul>"
  const OlClose := "</li></ol>"

  /** A match of the grouping pattern at the start of `s`: `<li`, the shortest
      terminator-free text `p1` that a `>` follows, and then everything to the
      end of the input. The result is the length of `p1`. */
  function GroupMatch(s: string): (r: Option<nat>)
    ensures r.Some? ==> "<li" <= s && 3 + r.value < |s| && s[3 + r.value] == '>'
  {
    if "<li" <= s then
      var r := LazyFind(s[3..], ">");
      if r.Some? then
        assert s[3..][r.value..r.value + 1] == [s[3 + r.value]];
        r
      else
        None
    else
      None
  }

  /** What a match is: `p1` is free of line terminators and of `>`, and
      without a match no `>` follows `<li` on its line. */
  lemma GroupMatchMeaning(s: string)
    ensures GroupMatch(s).Some? ==>
      var k := GroupMatch(s).value; NoTerminator(s[3..3 + k]) && '>' !in s[3..3 + k]
    ensures GroupMatch(s).None? ==>
      !("<li" <= s) || forall j :: 3 <= j < |s| && NoTerminator(s[3..j]) ==> s[j] != '>'
  {
    if "<li" <= s {
      var t := s[3..];
      var r := LazyFind(t, ">");
      if r.Some? {
        GroupFoundPlain(s, t, r.value);
      } else {
        forall j | 3 <= j < |s| && NoTerminator(s[3..j]) ensures s[j] != '>' {
          assert t[..j - 3] == s[3..j];
          assert !OccursAt(t, ">", j - 3);
          assert t[j - 3..j - 2] == [s[j]];
        }
      }
    }
  }

  /** Helper for `GroupMatchMeaning`: the text before the first `>` on the
      line holds no `>` and no line terminator. */
  lemma GroupFoundPlain(s: string, t: string, k: nat)
    requires |s| >= 3 && t == s[3..] && LazyFind(t, ">") == Some(k)
    ensures NoTerminator(s[3..3 + k]) && '>' !in s[3..3 + k]
  {
    assert k < |t|;
    var p1 := t[..k];
    assert p1 == s[3..3 + k];
    forall i | 0 <= i < |p1| ensures p1[i] != '>' {
      assert !OccursAt(t, ">", i);
      assert t[i..i + 1] == [p1[i]];
    }
  }

  /** The callback, as written: a dash item anywhere in the match makes an
      unordered list, else a numbered one makes an ordered list, else the match
      is kept. */
  function Callback(m: string, p1: string, content: string): string {
    if Contains(m, ItemOpen(Disc)) then UlOpen + "<li" + p1 + ">" + content + UlClose
    else if Contains(m, ItemOpen(Decimal)) then OlOpen + "<li" + p1 + ">" + content + OlClose
    else m
  }

  /** What the callback does to a whole match `m`. */
  function Replacement(m: string): string {
    if Contains(m, ItemOpen(Disc)) then UlOpen + m + UlClose
    else if Contains(m, ItemOpen(Decimal)) then OlOpen + m + OlClose
    else m
  }

  /** The global replace of the grouping pattern over `s`. A match takes the
      rest of the input, so the scan stops after it. */
  function GroupScan(s: string): string
    decreases |s|
  {
    if s == [] then []
    else
      match GroupMatch(s)
      case Some(k) => Callback(s, s[3..3 + k], s[4 + k..])
      case None => [s[0]] + GroupScan(s[1..])
  }

  /** A match is `<li`, `p1`, `>` and the content, which is the rest. */
  lemma MatchParts(s: string, k: nat)
    requires GroupMatch(s) == Some(k)
    ensures "<li" + s[3..3 + k] + ">" + s[4 + k..] == s
  {
    assert s[..3] == "<li" && s[3 + k..4 + k] == ">";
    assert s[..4 + k] == s[..3] + s[3..3 + k] + s[3 + k..4 + k];
    assert s == s[..4 + k] + s[4 + k..];
  }

  lemma Regroup(a: string, b: string, c: string, d: string, e: string, f: string)
    ensures a + b + c + d + e + f == a + (b + c + d + e) + f
  {
  }

  /** The callback rebuilds the whole match inside the wrapper. */
  lemma CallbackWrapsMatch(s: string, k: nat)
    requires GroupMatch(s) == Some(k)
    ensures Callback(s, s[3..3 + k], s[4 + k..]) == Replacement(s)
  {
    var p1, content := s[3..3 + k], s[4 + k..];
    MatchParts(s, k);
    Regroup(UlOpen, "<li", p1, ">", content, UlClose);
    Regroup(OlOpen, "<li", p1, ">", content, OlClose);
  }

  lemma GroupStep(s: string)
    requires s != [] && GroupMatch(s).None?
    ensures GroupScan(s) == [s[0]] + GroupScan(s[1..])
  {
  }

  lemma GroupAt(s: string)
    requires GroupMatch(s).Some?
    ensures GroupScan(s) == Replacement(s)
  {
    var k := GroupMatch(s).value;
    GroupScanMatch(s, k);
    CallbackWrapsMatch(s, k);
  }

  lemma GroupScanMatch(s: string, k: nat)
    requires GroupMatch(s) == Some(k)
    ensures GroupScan(s) == Callback(s, s[3..3 + k], s[4 + k..])
  {
    assert s != [];
  }

  /** No position of `s` starts a match. */
  predicate NoGroupMatch(s: string) {
    forall i :: 0 <= i < |s| ==> GroupMatch(s[i..]).None?
  }

  /** Without a match, grouping leaves the text unchanged. */
  lemma {:induction false} GroupNone(s: string)
    requires NoGroupMatch(s)
    ensures GroupScan(s) == s
    decreases |s|
  {
    if s != [] {
      assert s[0..] == s;
      assert NoGroupMatch(s[1..]) by {
        forall i | 0 <= i < |s[1..]| ensures GroupMatch(s[1..][i..]).None? {
          assert s[1..][i..] == s[i + 1..];
        }
      }
      GroupStep(s);
      GroupNone(s[1..]);
      ConsSplit(s, []);
    }
  }

  /** Text without `<li` has no match. */
  lemma NoOpeningNoMatch(s: string)
    requires !Contains(s, "<li")
    ensures NoGroupMatch(s)
  {
    forall i | 0 <= i < |s| ensures GroupMatch(s[i..]).None? {
      if "<li" <= s[i..] {
        assert s[i..][..3] == s[i..i + 3];
        assert OccursAt(s, "<li", i);
      }
    }
  }

  /** Where no match starts, grouping copies the text: the first `n`
      characters are kept when none of them starts a match. */
  lemma {:induction false} GroupSkip(s: string, n: nat)
    requires n <= |s|
    requires forall i :: 0 <= i < n ==> GroupMatch(s[i..]).None?
    ensures GroupScan(s) == s[..n] + GroupScan(s[n..])
    decreases n
  {
    if n == 0 {
      assert s[..0] + s[0..] == s[0..] == s;
    } else {
      GroupSkip(s, n - 1);
      GroupSkipOne(s, n - 1);
    }
  }

  /** Helper for `GroupSkip`: one more position without a match. */
  lemma GroupSkipOne(s: string, i: nat)
    requires i < |s| && GroupMatch(s[i..]).None?
    ensures s[..i] + GroupScan(s[i..]) == s[..i + 1] + GroupScan(s[i + 1..])
  {
    var t := s[i..];
    GroupStep(t);
    assert t[0] == s[i] && t[1..] == s[i + 1..];
    assert s[..i] + [s[i]] == s[..i + 1];
    Assoc(s[..i], [s[i]], GroupScan(s[i + 1..]));
  }

  /** Grouping extent: when no match starts inside `a` and one starts at `b`,
      the text `a` is kept and the whole rest of the input, `b`, goes through
      the callback once. */
  lemma GroupExtent(a: string, b: string)
    requires GroupMatch(b).Some?
    requires forall i :: 0 <= i < |a| ==> GroupMatch((a + b)[i..]).None?
    ensures GroupScan(a + b) == a + Replacement(b)
  {
    var s := a + b;
    GroupSkip(s, |a|);
    assert s[..|a|] == a && s[|a|..] == b;
    GroupAt(b);
  }

  /** The first `<li` that a `>` follows on its line starts the only match:
      text without `<` in front of it is kept. */
  lemma GroupAfterPlain(a: string, b: string)
    requires '<' !in a && GroupMatch(b).Some?
    ensures GroupScan(a + b) == a + Replacement(b)
  {
    forall i | 0 <= i < |a| ensures GroupMatch((a + b)[i..]).None? {
      assert (a + b)[i..][0] == a[i];
    }
    GroupExtent(a, b);
  }
}
