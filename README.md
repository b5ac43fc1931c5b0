# Markdown renderer, modelled in Dafny

The web client renders assistant answers with a small hand-written markdown
converter, `parseMarkdown` in `src/components/MarkdownRenderer.tsx`. It is a
pure `string -> string` function made of ten JavaScript `String.replace` calls,
applied in a fixed order:

1. three header passes (`# `, then `## `, then `### `);
2. one bold pass (`**…**`, lazy);
3. two list-item passes (dash items, then numbered items);
4. one stitching pass (`</li>\n<li` becomes `</li><li`);
5. one grouping pass with a callback that wraps the list in `<ul>` or `<ol>`;
6. one paragraph pass;
7. one pass that turns each remaining `\n` into `<br />`.

This project models every pass as a recursive Dafny function that follows
JavaScript's global-replace semantics literally:

- the leftmost match wins, and the scan resumes where the match ends;
- `^` under the `m` flag holds at position 0 and after any line terminator;
- `.` excludes line terminators;
- `\s` is the ECMAScript white-space set, line terminators included;
- without the `m` flag, `$` holds only at the end of the input.

The four line terminators (`\n`, `\r`, U+2028, U+2029) are all modelled.
`ParseMarkdown` composes the passes.

The modules, one per pass group:

- `Text`: characters, searching, and `MapLines`. `MapLines` applies a function
  to each line and keeps the terminators.
- `Headers`: lines 17-19.
- `Bold`: line 22.
- `Lists`: lines 25-26.
- `ListGroups`: lines 29-37.
- `Paragraphs`: line 40.
- `LineBreaks`: line 43.
- `MarkdownRenderer`: the composition and the end-to-end lemmas.

Each pass has a partner:

- a line-by-line reference definition (headers, bold, list items);
- an inverse on text without `<` (bold, paragraphs, line breaks);
- a statement of what stays unchanged (stitching, grouping).

The behaviour the code really has is proved as it is, including these
surprises:

- the grouping match always runs from the first `<li…>` to the end of the
  input, so it wraps exactly once, and whatever follows the items ends up
  inside the list (`RenderListThenHeader` proves this for a dash list
  followed by a header line);
- the callback looks for a dash item anywhere in the match first, so a
  numbered list that a dash item follows anywhere later ends up inside a
  `<ul>` (`NumberedThenDashExample`); the mock petition answer at
  `src/services/api.ts:105`, whose numbered lists come before its dash
  lists, has this shape;
- grouping adds a second `</li>` before `</ul>`;
- blank lines in front of an item are swallowed by `^\s*`;
- a line is wrapped in a paragraph only when its line feed is followed by the
  end of the input or another line terminator, so `just a line` comes out
  unchanged.

A reader might expect otherwise in four places; the model follows the code:

- a reader might expect several disjoint list blocks to be wrapped
  separately; the code wraps once, from the first item to the end;
- a reader might expect a header that follows a list to stay outside the
  list; the code puts it inside;
- a reader might expect the header passes to run from level 3 down; the code
  runs level 1 first (the markers are disjoint, so the result is the same);
- a reader might expect plain text such as `just a line` to be wrapped in a
  paragraph; the code leaves it alone.

## Model

| member | source | states |
|---|---|---|
| `Text.Contains` | src/components/MarkdownRenderer.tsx:31-33 | `match.includes(p)` is true exactly when `p` occurs at some index of the match |
| `Text.LineLengthMeaning` | src/components/MarkdownRenderer.tsx:17 | `.*$` under `m` runs to the first line terminator or the end: none inside, a terminator or the end right after |
| `Text.SpaceRunMaximal` | src/components/MarkdownRenderer.tsx:25 | the greedy `\s*` takes white space only and stops at the first character that is not white space |
| `Text.DigitRunMaximal` | src/components/MarkdownRenderer.tsx:26 | the greedy `\d+` takes digits only and stops at the first non-digit |
| `Text.LazyFind` | src/components/MarkdownRenderer.tsx:22 | the lazy `.*?` search finds the first occurrence of the delimiter on the current line, with none before it, or reports that the line holds none |
| `Text.MapLinesCompose` | src/components/MarkdownRenderer.tsx:17-19 | two line-by-line passes, the first keeping lines terminator-free, are one line-by-line pass of the composed function |
| `Headers.MarkersDisjoint` | src/components/MarkdownRenderer.tsx:17-19 | no line starts with two different header markers |
| `Headers.FourHashesNotHeader` | src/components/MarkdownRenderer.tsx:17-19 | a line starting with `####` is left alone by each header pass and by all three |
| `Headers.HeaderScanMarked` | src/components/MarkdownRenderer.tsx:17-19 | a line starting with its level's marker becomes the level's opening tag, the rest of the line and the closing tag |
| `Headers.HeaderNoHash` | src/components/MarkdownRenderer.tsx:17-19 | text without `#` is unchanged by a header pass |
| `Headers.HeaderByLines` | src/components/MarkdownRenderer.tsx:17-19 | one header pass is the line-by-line rewrite of each line that starts with the marker |
| `Headers.HeaderLinesCompose` | src/components/MarkdownRenderer.tsx:17-19 | on one line, the three passes in order act as the single rule: `# ` gives `<h1>`, `## ` gives `<h2>`, `### ` gives `<h3>`, and any other line is kept |
| `Headers.HeadersByLines` | src/components/MarkdownRenderer.tsx:17-19 | the three passes together rewrite each line on its own: `# T`, `## T` and `### T` become `<h1 …>T</h1>`, `<h2 …>T</h2>` and `<h3 …>T</h3>`, and every other line is kept |
| `Headers.HeaderAfterPlainLines` | src/components/MarkdownRenderer.tsx:17-19 | lines without `#` are kept by the three passes, and a `# h` line after them becomes `<h1 …>h</h1>` |
| `Headers.HeadersNoHash` | src/components/MarkdownRenderer.tsx:17-19 | text without `#` is unchanged by the three passes |
| `Bold.BoldMatch` | src/components/MarkdownRenderer.tsx:22 | a match is `**`, then text without a line terminator in which no `**` starts, then the first `**` after the opening one; without a match, the text does not start with `**` or no `**` follows on its line |
| `Bold.BoldNoClose` | src/components/MarkdownRenderer.tsx:22 | the converse: a `**` with no `**` after it on its line starts no match |
| `Bold.BoldNone` | src/components/MarkdownRenderer.tsx:22 | where no position starts a match, the pass changes nothing, so every `**` without a partner on its line stays literal text |
| `Bold.BoldNoDelimiter` | src/components/MarkdownRenderer.tsx:22 | text without `**` is unchanged |
| `Bold.BoldNoStar` | src/components/MarkdownRenderer.tsx:22 | a prefix without `*` is copied unchanged |
| `Bold.BoldMatchWithinLine` | src/components/MarkdownRenderer.tsx:22 | whether a bold span matches at a position depends only on the rest of that line |
| `Bold.BoldSplit` | src/components/MarkdownRenderer.tsx:22 | the pass over a line followed by a terminator is the pass over the line followed by the pass over the rest |
| `Bold.BoldByLines` | src/components/MarkdownRenderer.tsx:22 | the bold pass works on each line on its own, so no span crosses a line terminator |
| `Bold.ShortestClose` | src/components/MarkdownRenderer.tsx:22 | the span closes at the first `**` after the opening one |
| `Bold.BoldSpan` | src/components/MarkdownRenderer.tsx:22 | text without `**`, then `**x**` with `x` on one line and without `**`: the prefix is kept and `x` is wrapped in `<strong>` |
| `Bold.BoldUnpaired` | src/components/MarkdownRenderer.tsx:22 | a lone `**` in text with no other `*` stays as literal text (`Bold.BoldNone` states the general case) |
| `Bold.UnboldSpan` | src/components/MarkdownRenderer.tsx:22 | undoing the pass turns one wrapped span back into `**x**` |
| `Bold.BoldRoundTrip` | src/components/MarkdownRenderer.tsx:22 | on text without `<`, undoing the bold pass restores the input |
| `Lists.MarkerLengthMeaning` | src/components/MarkdownRenderer.tsx:25-26 | the marker part (`- ` or `\d+. `) is found exactly when the text starts with such a marker |
| `Lists.ItemMatch` | src/components/MarkdownRenderer.tsx:25-26 | a match starts the item text at least two characters into the line |
| `Lists.ItemMatchIff` | src/components/MarkdownRenderer.tsx:25-26 | an item pattern matches exactly when the text is white space, a marker of its kind, and then anything |
| `Lists.DiscNoDash` | src/components/MarkdownRenderer.tsx:25 | text without `-` is unchanged by the dash pass |
| `Lists.ItemScanLine` | src/components/MarkdownRenderer.tsx:25-26 | from a line start, a line that is not all white space is rewritten on its own |
| `Lists.ItemByLines` | src/components/MarkdownRenderer.tsx:25-26 | without blank lines, an item pass is the line-by-line rewrite of each item line into `<li class="ml-6 list-disc">t</li>` or `<li class="ml-6 list-decimal">t</li>` |
| `Lists.ItemLinesCompose` | src/components/MarkdownRenderer.tsx:25-26 | on one line, the numbered pass after the dash pass gives a dash item, a numbered item or the line itself |
| `Lists.ItemsByLines` | src/components/MarkdownRenderer.tsx:25-26 | without blank lines, the two item passes together rewrite each line on its own |
| `Lists.ItemAfterSpace` | src/components/MarkdownRenderer.tsx:25-26 | at a line start, white space (blank lines included), a marker and one line of text become one item, and the scan goes on at the line's terminator |
| `ListGroups.StitchNoSeam` | src/components/MarkdownRenderer.tsx:29 | text without `</li>\n<li` is unchanged |
| `ListGroups.StitchPlain` | src/components/MarkdownRenderer.tsx:29 | a prefix without `<` is copied unchanged |
| `ListGroups.StitchSkip` | src/components/MarkdownRenderer.tsx:29 | positions where no seam starts are copied unchanged, line feeds and tags included, and the scan goes on after them |
| `ListGroups.StitchFirstSeam` | src/components/MarkdownRenderer.tsx:29 | at the first seam, the text before it is kept, the seam becomes `</li><li`, and the scan goes on after it |
| `ListGroups.StitchSeam` | src/components/MarkdownRenderer.tsx:29 | a seam becomes `</li><li`, and the scan resumes after it |
| `ListGroups.StitchOnlyDropsLineFeeds` | src/components/MarkdownRenderer.tsx:29 | with line feeds removed, the text before and after stitching is the same: the pass only removes line feeds |
| `ListGroups.GroupMatch` | src/components/MarkdownRenderer.tsx:30 | a match starts with `<li`, and the `>` that ends `(.*?)` lies inside the input |
| `ListGroups.GroupMatchMeaning` | src/components/MarkdownRenderer.tsx:30 | a match is `<li`, the shortest `p1` without a line terminator or `>` that a `>` follows, then the rest of the input; there is none exactly when the text does not start with `<li` or no `>` follows on that line |
| `ListGroups.CallbackWrapsMatch` | src/components/MarkdownRenderer.tsx:30-37 | the callback's `<li${p1}>${content}` rebuilds the whole match, so it wraps the match in `<ul>`…`</li></ul>` when the match contains a dash item, else in `<ol>`…`</li></ol>` when it contains a numbered item, and otherwise returns it unchanged |
| `ListGroups.GroupAt` | src/components/MarkdownRenderer.tsx:30-37 | a match at the start takes the whole rest of the input and goes through the callback once |
| `ListGroups.GroupNone` | src/components/MarkdownRenderer.tsx:30 | without a match anywhere, grouping leaves the text unchanged |
| `ListGroups.NoOpeningNoMatch` | src/components/MarkdownRenderer.tsx:30 | text without `<li` has no match anywhere |
| `ListGroups.GroupSkip` | src/components/MarkdownRenderer.tsx:30 | positions where no match starts are copied unchanged, and the scan goes on after them |
| `ListGroups.GroupExtent` | src/components/MarkdownRenderer.tsx:30-37 | the text before the first match is kept, and the whole rest of the input, from that match on, is replaced exactly once |
| `ListGroups.GroupAfterPlain` | src/components/MarkdownRenderer.tsx:30-37 | a prefix without `<` is kept, and the match after it is replaced |
| `Paragraphs.ParaMatch` | src/components/MarkdownRenderer.tsx:40 | a match starts with a character other than `<`, runs to a line feed with no terminator before it, and that line feed is followed by the end or another terminator |
| `Paragraphs.ParaMidLine` | src/components/MarkdownRenderer.tsx:40 | away from a line start, the rest of the line is copied |
| `Paragraphs.ParaLastLine` | src/components/MarkdownRenderer.tsx:40 | a line without a terminator is never wrapped |
| `Paragraphs.ParaTagLine` | src/components/MarkdownRenderer.tsx:40 | a line that starts with `<` is never wrapped |
| `Paragraphs.ParaWrap` | src/components/MarkdownRenderer.tsx:40 | a line not starting with `<`, then a line feed, then the end or another terminator: the line is wrapped in `<p class="my-2">`, and its line feed is dropped |
| `Paragraphs.ParaFollowedByText` | src/components/MarkdownRenderer.tsx:40 | a non-empty line followed by a line feed and more text on the next line is not wrapped |
| `Paragraphs.UnparagraphSpan` | src/components/MarkdownRenderer.tsx:40 | undoing the pass turns a wrapped line back into the line and its line feed |
| `Paragraphs.ParagraphsRoundTrip` | src/components/MarkdownRenderer.tsx:40 | on text without `<`, undoing the paragraph pass restores the input |
| `LineBreaks.BreakLines` | src/components/MarkdownRenderer.tsx:43 | the output holds no line feed |
| `LineBreaks.BreakLinesConcat` | src/components/MarkdownRenderer.tsx:43 | the pass works character by character: it distributes over concatenation |
| `LineBreaks.BreakLinesChar` | src/components/MarkdownRenderer.tsx:43 | a line feed becomes `<br />`, and every other character is kept |
| `LineBreaks.BreakLinesNone` | src/components/MarkdownRenderer.tsx:43 | text without a line feed is unchanged |
| `LineBreaks.BreakLinesRoundTrip` | src/components/MarkdownRenderer.tsx:43 | on text without `<`, undoing the pass restores the input |
| `MarkdownRenderer.ParseMarkdown` | src/components/MarkdownRenderer.tsx:13-46 | the rendered HTML holds no line feed |
| `MarkdownRenderer.PlainTextPassthrough` | src/components/MarkdownRenderer.tsx:17-43 | a single line is returned unchanged by the whole pipeline when it has no `<`, no `**`, no header marker and no list-item shape |
| `MarkdownRenderer.JustALine` | src/components/MarkdownRenderer.tsx:40 | `just a line` is rendered unchanged, without a paragraph |
| `MarkdownRenderer.DashPass` | src/components/MarkdownRenderer.tsx:25 | the dash pass turns each line of a dash list into one item, with the white space and blank lines before each marker swallowed; text after the list that starts with a line terminator is scanned on from there |
| `MarkdownRenderer.NumberedPassKeeps` | src/components/MarkdownRenderer.tsx:26 | the numbered pass leaves rendered dash items alone, and scans the text after them on from there |
| `MarkdownRenderer.StitchItems` | src/components/MarkdownRenderer.tsx:29 | stitching removes every line feed between consecutive items and nothing else, and keeps the text after the last item when no seam forms there |
| `MarkdownRenderer.GroupItems` | src/components/MarkdownRenderer.tsx:30-37 | the dash items and everything after them, up to the end of the input, are wrapped once in `<ul class="my-2 space-y-1">`…`</li></ul>` |
| `MarkdownRenderer.ListOnOneLine` | src/components/MarkdownRenderer.tsx:40-43 | a rendered list stays as it is through the paragraph and line-break passes |
| `MarkdownRenderer.RenderDashList` | src/components/MarkdownRenderer.tsx:13-46 | a dash list of any length, with any white space or blank lines before its markers, renders to one `<ul>` holding its items in order, with one extra `</li>` before `</ul>` |
| `MarkdownRenderer.ListHeaderTagged` | src/components/MarkdownRenderer.tsx:17-22 | on a dash list followed by `# h`, the header and bold passes change only the header line |
| `MarkdownRenderer.TagLineAfterBreak` | src/components/MarkdownRenderer.tsx:25-26 | after a line feed, a line that starts with a tag is no item line and is kept |
| `MarkdownRenderer.ListItemsBeforeTag` | src/components/MarkdownRenderer.tsx:25-26 | on a dash list followed by a tag line, the item passes give the items and keep the tag line |
| `MarkdownRenderer.ListHeaderItems` | src/components/MarkdownRenderer.tsx:17-26 | on a dash list followed by `# h`, the first six passes give the item lines, a line feed and the `<h1>` element |
| `MarkdownRenderer.StitchBeforeLine` | src/components/MarkdownRenderer.tsx:29 | a closing item tag followed by a line feed and a line whose second character is not `l` holds no seam |
| `MarkdownRenderer.StitchBeforeHeader` | src/components/MarkdownRenderer.tsx:29 | stitching joins the items but keeps the line feed before a header line |
| `MarkdownRenderer.ListGroupedPastHeader` | src/components/MarkdownRenderer.tsx:30-37 | the grouping match opened by the first item runs past a following header to the end of the input, so `</li></ul>` comes after the header |
| `MarkdownRenderer.TagLinesJoined` | src/components/MarkdownRenderer.tsx:40-43 | two lines that start with tags, joined by a line feed, get no paragraph, and the line feed becomes `<br />` |
| `MarkdownRenderer.RenderListThenHeader` | src/components/MarkdownRenderer.tsx:13-46 | a dash list followed by a header line renders to one `<ul>` holding the items, `<br />`, the `<h1>` element and then `</li></ul>`: the header lands inside the list |
| `MarkdownRenderer.ScanAfterBreak` | src/components/MarkdownRenderer.tsx:25-26 | after a line feed, an item pass goes on at a line start |
| `MarkdownRenderer.DashLineOf` | src/components/MarkdownRenderer.tsx:25 | a last line `- t` becomes one dash item |
| `MarkdownRenderer.MixedDashPass` | src/components/MarkdownRenderer.tsx:25 | on `1. a` followed by `- t`, the dash pass keeps the numbered line and turns the dash line into an item |
| `MarkdownRenderer.MixedNumberedPass` | src/components/MarkdownRenderer.tsx:26 | the numbered pass then turns `1. a` into a `list-decimal` item and keeps the dash item |
| `MarkdownRenderer.StitchTwoLines` | src/components/MarkdownRenderer.tsx:29 | two item lines of any kinds joined by a line feed are joined with the line feed dropped, and nothing else changes |
| `MarkdownRenderer.MixedGroup` | src/components/MarkdownRenderer.tsx:30-37 | a numbered item followed by a dash item is wrapped in `<ul>`, because the dash item is checked for first |
| `MarkdownRenderer.TwoItems` | src/components/MarkdownRenderer.tsx:32 | the list of the items `a` and `b` is the expected HTML text |
| `MarkdownRenderer.DashListExample` | src/components/MarkdownRenderer.tsx:13-46 | `- a\n- b` renders to `<ul class="my-2 space-y-1"><li class="ml-6 list-disc">a</li><li class="ml-6 list-disc">b</li></li></ul>` |
| `MarkdownRenderer.BlankLineExample` | src/components/MarkdownRenderer.tsx:13-46 | `- a\n\n- b` renders to the same HTML: the blank line is swallowed |
| `MarkdownRenderer.ItemAndHeader` | src/components/MarkdownRenderer.tsx:30-43 | the list of the item `a` with the header `T` inside it is the expected HTML text |
| `MarkdownRenderer.MixedItems` | src/components/MarkdownRenderer.tsx:30-37 | the list of the numbered item `a` and the dash item `b` is the expected HTML text |
| `MarkdownRenderer.NumberedThenDashExample` | src/components/MarkdownRenderer.tsx:13-46 | `1. a\n- b` renders to `<ul class="my-2 space-y-1"><li class="ml-6 list-decimal">a</li><li class="ml-6 list-disc">b</li></li></ul>` |
| `MarkdownRenderer.ListThenHeaderExample` | src/components/MarkdownRenderer.tsx:13-46 | `- a\n# T` renders to `<ul class="my-2 space-y-1"><li class="ml-6 list-disc">a</li><br /><h1 class="text-2xl font-bold my-4">T</h1></li></ul>` |

## Left out

- The React wrapper (lines 9, 11 and 48-49: `useState`, `useEffect` and `setHtmlContent`), and the `dangerouslySetInnerHTML` injection (line 52). These are UI plumbing around the pure function.
- `src/services/api.ts`, `src/lib/apiClient.ts` and the page and UI components. They hold network calls, timers, mock data, browser APIs and React rendering, with no logic of the renderer. `PetitionGenerator` and `LocationFinder` are not part of this model either.
- HTML escaping: the code does none, so the model does none.
- The `i` flag on lines 17-26 has no effect, because the patterns hold no letters; it is not modelled.
- Strings are sequences of code points. JavaScript strings are UTF-16, and a character outside the Basic Multilingual Plane is not split into surrogates here. None of the patterns tells such characters apart.
- PlainTextPassthrough: it asks for no line terminator of any kind, which is stronger than "no `\n`". After a `\r`, for example, a `- a` is a list item.
- ItemByLines: stated only for text without blank lines. Blank lines before an item are swallowed by the `\s*` of the next item; that case is stated by ItemAfterSpace and DashPass.
- ItemsByLines: stated only for text without blank lines, for the same reason.
- RenderDashList: stated for item text without line terminators, `<`, `#` or `*`. The end-to-end results for item text with markup, for numbered lists and for mixed documents other than a dash list followed by one header line, and the example `1. a\n- b`, are not proved; the passes involved are covered one by one.
- RenderListThenHeader: stated for one level-1 header line after the list, with the same limits on its text as on the item text.
