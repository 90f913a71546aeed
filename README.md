# markdown2html in Dafny

A verified model of the converter in `markdown2html.py`, a small
Markdown-to-HTML script. The model has two parts.

- **Block converter.** This is the `for line in f` loop of
  `convert_markdown_to_html` plus the closing of open blocks at end of
  input. Each input line is classified, in this order, as:
  - a heading (`^(#+) (.*)$`);
  - a list item (`^[*-]\s(.*)$`);
  - anything else.

  The converter keeps the script's own state: `inList`, `listType`,
  `inParagraph`, the never-set `inBold` and `inEmphasis`, and the
  append-only `htmlLines`. It emits one HTML fragment line at a time.
- **Inline transformer.** This is `parse_inline_markup`. It applies four
  `re.sub` rewrites in a fixed order:
  1. `**x**` becomes `<b>x</b>`;
  2. `__x__` becomes `<em>x</em>`;
  3. `[[x]]` becomes the MD5 hex digest of `x`;
  4. `((x))` is deleted.

  Each rewrite is lazy, left to right and non-overlapping.

Files:

- `py_text.dfy` (module `PyText`): the Python string helpers used. These
  are `str.isspace`, `rstrip`, `strip` and `str(int)`.
- `inline_markup.dfy` (module `InlineMarkup`): the four patterns.
  - One scanner, `MatchAt`/`ScanClose`, finds the lazy match of a doubled
    opener, an interior without newlines and a doubled closer.
  - `Substitute` is `re.sub`.
  - `ParseInlineMarkup` is the four-step pipeline.
  - The digest is a parameter `md5: string -> string`.
- `inline_laws.dfy` (module `InlineLaws`): laws of one rewrite and of the
  whole pipeline.
- `block_converter.dfy` (module `BlockConverter`):
  - The imperative converter, `ConvertMarkdownToHtml`, is a method with a
    loop over the lines, and helper methods for the three kinds of line.
  - Its reference definition is `Convert`, which works over a tagged state
    (`NoBlock | Paragraph | List(kind)`) and emits typed `Fragment`s.
    `RenderAll` turns those fragments into the strings the script appends.
  - The method is proved to return exactly
    `RenderAll(Convert(lines, InlineTransformer(md5)))`.
- `block_laws.dfy` (module `BlockLaws`):
  - what the two line regexes accept;
  - what each kind of line does to the open block and to the output;
  - that the tag fragments the converter emits (`OpenParagraph`,
    `CloseParagraph`, `OpenList(k)`, `CloseList(k)`) are well nested and
    balanced. A content line whose text is itself a tag, such as
    `"</ul>"`, renders to that same string but is a `Content` fragment
    and is not counted: the lines `"a\n"` and `"</ul>\n"` convert to
    `["<p>", "    a", "</ul>", "</p>"]`, since the script does not
    escape text (`BlockExamples.ExampleTagLikeContent`).
- `block_examples.dfy` (module `BlockExamples`): whole conversions of small
  inputs, down to the output strings.

The block-level reference functions take any inline transformer
`inline: string -> string`. The converter instantiates it with
`InlineTransformer(md5)`, which is `text => ParseInlineMarkup(text, md5)`.

The input is a `seq<string>` of lines. As with Python's file iteration,
each line keeps its trailing `"\n"`, except possibly the last one. The
regexes' `.` does not match `"\n"`, and `$` also matches just before a
final `"\n"`. Both behaviours are modelled (`ToLineEnd`).

The list regex uses `\s` (markdown2html.py:50), so it accepts any
whitespace character after the marker, not only a space, and the newline
included. `"-\n"` is therefore an empty list item.

## Model

| member | source | states |
|---|---|---|
| PyText.IsSpace | markdown2html.py:50 | definition, no contract: the whitespace characters of `str.isspace`, which `\s`, `strip` and `rstrip` use |
| PyText.IsBlank | markdown2html.py:74-79 | definition, no contract: every character is whitespace, which is what `line.strip() == ""` tests (see `StripEmptyIffBlank`) |
| PyText.Strip | markdown2html.py:74-79 | definition, no contract: `strip()` as `LStrip` of `RStrip`; its meaning is stated by `StripEmptyIffBlank` |
| InlineMarkup.LeastMatchAt | markdown2html.py:102-105 | definition, no contract: the declarative lazy match (opener, shortest newline-free interior of the minimum length, nearest closer); `MatchAtIsLeastMatch` ties the scanner to it |
| InlineMarkup.BoldTag | markdown2html.py:106 | definition, no contract: the replacement `<b>\1</b>` |
| InlineMarkup.EmphasisTag | markdown2html.py:107 | definition, no contract: the replacement `<em>\1</em>` |
| InlineMarkup.Removed | markdown2html.py:110 | definition, no contract: the empty replacement of the removal step |
| InlineMarkup.BoldPattern | markdown2html.py:102 | definition, no contract: the regex `\*\*(.+?)\*\*`, doubled `*` around an interior of at least one character |
| InlineMarkup.EmphasisPattern | markdown2html.py:103 | definition, no contract: the regex `__(.+?)__`, doubled `_` around an interior of at least one character |
| InlineMarkup.Md5Pattern | markdown2html.py:104 | definition, no contract: the regex `\[\[(.+?)\]\]`, doubled `[` and `]` around an interior of at least one character |
| InlineMarkup.RemovePattern | markdown2html.py:105 | definition, no contract: the regex `\(\((.*?)\)\)`; its minimum interior length 0 is the `.*?` where the other three use `.+?` |
| BlockConverter.IsListMarker | markdown2html.py:50 | definition, no contract: the character class `[*-]` of the list regex |
| BlockConverter.InlineTransformer | markdown2html.py:45-82 | definition, no contract: the `parse_inline_markup` call applied to heading text, list-item text and ordinary lines |
| BlockConverter.Tag | markdown2html.py:62-66 | definition, no contract: the `list_type` string, `"ul"` or `"ol"`, of a list kind |
| BlockConverter.Render | markdown2html.py:44-85 | definition, no contract: the string appended for each fragment (the f-strings at 44-46, 66, 69, 72, 75, 80, 82 and 85); its per-step results are stated by the `Render*Step` lemmas |
| BlockConverter.LineStep | markdown2html.py:30-82 | definition, no contract: one line, tried as a heading, then as a list item, then as anything else; its laws are `HeadingLine`, `ListItemLine`, `BlankLine`, `TextLine` and `LineStepNests` |
| BlockConverter.HeadingStep | markdown2html.py:33-47 | definition, no contract: the heading branch; stated by `HeadingLine` and `RenderHeadingStep` |
| BlockConverter.KindAfterItem | markdown2html.py:62-65 | definition, no contract: the open list's kind, or, when the item opens the list, ordered exactly for a `*` marker |
| BlockConverter.ListItemStep | markdown2html.py:52-69 | definition, no contract: the list-item branch; stated by `ListItemLine` and `RenderListItemStep` |
| BlockConverter.OtherLineStep | markdown2html.py:70-82 | definition, no contract: closes an open list, then the paragraph handling; stated by `TextLine`, `BlankLine` and `RenderOtherLineStep` |
| BlockConverter.TextLineStep | markdown2html.py:74-82 | definition, no contract: the paragraph handling with no list open; stated by `RenderTextLineStep` and `TextLineStepNests` |
| BlockConverter.Run | markdown2html.py:29-82 | definition, no contract: all lines in order from the state with nothing open; stated by `RunNests` |
| BlockConverter.Closing | markdown2html.py:84-91 | definition, no contract: the close fragment of the block still open at end of input |
| BlockConverter.Convert | markdown2html.py:29-91 | definition, no contract: the run followed by the closing; stated by `ConvertWellNested`, `ConvertBalanced` and `ConvertMarkdownToHtml` |
| BlockConverter.StateIs | markdown2html.py:24-28 | definition, no contract: how the state variables stand for the open block (`in_list` and `list_type` for a list, `in_paragraph` for a paragraph, `in_bold` and `in_emphasis` false); the loop invariant of `ConvertMarkdownToHtml` |
| PyText.RStrip | markdown2html.py:82 | `line.rstrip()`: the result is a prefix of the input; everything cut off is whitespace; the result does not end in whitespace |
| PyText.LStrip | markdown2html.py:74 | the left half of `strip()`: the result is a suffix; everything cut off is whitespace; the result does not start with whitespace |
| PyText.StripEmptyIffBlank | markdown2html.py:74 | `line.strip() == ""` holds exactly when every character of the line is whitespace |
| PyText.RStripBlank | markdown2html.py:79-82 | a blank line rstrips to the empty string |
| PyText.DigitChar | markdown2html.py:45-46 | a digit below 10 becomes a decimal digit character with that value |
| PyText.NatToString | markdown2html.py:42-46 | `str(heading_level)`: non-empty, all decimal digits, no leading zero except for 0 itself |
| PyText.NatToStringRoundTrip | markdown2html.py:42-46 | reading back the decimal digits of `str(n)` gives `n` |
| InlineMarkup.ScanClose | markdown2html.py:102-105 | a closer it finds lies at or after the scan position, leaves room for the shortest interior, and is a doubled closer |
| InlineMarkup.ScanCloseNearest | markdown2html.py:102-105 | the closer found is the nearest one, with no newline before it; when none is found, every later closer has a newline before it |
| InlineMarkup.MatchAt | markdown2html.py:102-105 | a match at `i` starts with the doubled opener and ends with a doubled closer, with an interior of at least the minimum length |
| InlineMarkup.MatchAtIsLeastMatch | markdown2html.py:102-105 | `MatchAt` yields closer position `j` if and only if the lazy regex (`.+?`, or `.*?` for removal) matches at `i` with its closer at `j` |
| InlineMarkup.Substitute | markdown2html.py:106-110 | `re.sub` leaves text without an occurrence of the opener unchanged |
| InlineMarkup.ParseInlineMarkup | markdown2html.py:98-111 | text containing none of `**`, `__`, `[[`, `((` is returned unchanged |
| InlineLaws.SubstituteLiteralPrefix | markdown2html.py:106-110 | text without the opener character passes through, and the rewrite of what follows is unaffected by it |
| InlineLaws.SubstituteNoOpenChar | markdown2html.py:106-110 | text without the opener character is left unchanged |
| InlineLaws.SubstituteSpan | markdown2html.py:106-110 | opener, interior up to the nearest closer, closer, rest: this becomes `f(interior)` followed by the rewrite of the rest |
| InlineLaws.SubstituteWhole | markdown2html.py:106-110 | a whole matched span becomes `f` of its interior |
| InlineLaws.SubstituteTwoSpans | markdown2html.py:106-110 | two spans separated by opener-free text are both rewritten, left to right |
| InlineLaws.SubstituteUnpairedOpener | markdown2html.py:106-110 | an opener pairs with the nearest closer; a later opener with no closer stays as it is |
| InlineLaws.SubstituteFourDelimiters | markdown2html.py:102-103 | four opener characters in a row are no match for a pattern that needs a non-empty interior |
| InlineLaws.SubstituteLoneOpener | markdown2html.py:106-110 | an opener with nothing after it is kept |
| InlineLaws.BoldTwoSpans | markdown2html.py:102-106 | `**x**y**z**` becomes `<b>x</b>y<b>z</b>` |
| InlineLaws.BoldNearestCloserWins | markdown2html.py:102-106 | `**x**y**` becomes `<b>x</b>y**` |
| InlineLaws.BoldTagPlain | markdown2html.py:106 | the bold replacement adds no delimiter characters |
| InlineLaws.EmphasisTagPlain | markdown2html.py:107 | the emphasis replacement adds no delimiter characters |
| InlineLaws.HexDigestHasNoParen | markdown2html.py:108-110 | a hex digest contains no `(`, so the removal step leaves it alone |
| InlineLaws.ParseInlineBold | markdown2html.py:98-111 | `**x**`, with `x` non-empty plain text, becomes `<b>x</b>` |
| InlineLaws.ParseInlineEmphasis | markdown2html.py:98-111 | `__x__` becomes `<em>x</em>` |
| InlineLaws.ParseInlineHash | markdown2html.py:98-111 | `[[x]]` becomes `md5(x)` |
| InlineLaws.ParseInlineHashSeesBold | markdown2html.py:106-109 | the digest is taken after the bold step: `[[**x**]]` becomes `md5("<b>x</b>")` |
| InlineLaws.ParseInlineRemove | markdown2html.py:105-110 | `((x))` is deleted, the empty `(())` included, and the text after it is kept |
| InlineLaws.ParseInlineFourStars | markdown2html.py:102-106 | `****` comes out unchanged |
| InlineLaws.ParseInlineFourUnderscores | markdown2html.py:103-107 | `____` comes out unchanged |
| InlineLaws.ParseInlineTwiceOnMarkupFree | markdown2html.py:98-111 | on text without any opener, applying the transformer twice changes nothing |
| BlockConverter.LeadingHashes | markdown2html.py:31-42 | the count of `#` at the start of the line: all of them are `#`, and the next character is not |
| BlockConverter.ToLineEnd | markdown2html.py:31-50 | `(.*)$` captures text without a newline that is the rest of the line, up to an optional final newline |
| BlockConverter.MatchHeading | markdown2html.py:31-43 | a heading match has level at least 1 and the line starts with `#` |
| BlockConverter.MatchListItem | markdown2html.py:50-61 | a list-item match has a `*` or `-` marker followed by a whitespace character |
| BlockConverter.RenderAll | markdown2html.py:44-91 | one output line per fragment |
| BlockConverter.RenderAllAppend | markdown2html.py:23-91 | rendering distributes over concatenation, as appends to `html_lines` do |
| BlockConverter.RenderHeadingStep | markdown2html.py:33-47 | a heading emits `</p>` if a paragraph was open, then `<hN>` + inline(text) + `</hN>` |
| BlockConverter.RenderListTags | markdown2html.py:62-72 | the list open and close tags are `<ol>`/`</ol>` for ordered and `<ul>`/`</ul>` for unordered lists |
| BlockConverter.RenderListItemStep | markdown2html.py:52-69 | a list item emits `</p>` if a paragraph was open, the list's open tag if no list was open, then `<li>` + inline(text) + `</li>` |
| BlockConverter.RenderTextLineStep | markdown2html.py:74-82 | a non-blank line outside a paragraph emits `<p>` and is indented by four spaces; a blank line in a paragraph emits `</p>`; then `inline(rstrip(line))` |
| BlockConverter.RenderOtherLineStep | markdown2html.py:70-82 | any other line first emits the close tag of an open list |
| BlockConverter.ConvertMarkdownToHtml | markdown2html.py:23-91 | the loop and the end-of-input closing produce exactly `RenderAll(Convert(lines, parse_inline_markup))` |
| BlockConverter.CloseBlocks | markdown2html.py:84-91 | at end of input, the open list or paragraph is closed, and nothing else is emitted |
| BlockConverter.ConvertLine | markdown2html.py:29-82 | one loop iteration appends the rendered fragments of the line's step and moves the flags to that step's block |
| BlockConverter.CloseOpenParagraph | markdown2html.py:33-41 | an open paragraph is closed with `</p>`, and the paragraph, bold and emphasis flags end up false |
| BlockConverter.ConvertHeading | markdown2html.py:33-47 | a heading line appends what `HeadingStep` renders to and leaves the flags for its block |
| BlockConverter.ConvertListItem | markdown2html.py:52-69 | a list-item line appends what `ListItemStep` renders to; after it a list is open with the right `list_type` |
| BlockConverter.OpenListIfNone | markdown2html.py:62-67 | outside a list, opens one, `ol` exactly when the line starts with `*`; inside one, keeps its type |
| BlockConverter.IsBlankLine | markdown2html.py:74-79 | `line.strip() == ""` exactly when the line is all whitespace |
| BlockConverter.ConvertOtherLine | markdown2html.py:70-82 | any other line appends what `OtherLineStep` renders to; no list is open after it |
| BlockConverter.ConvertTextLine | markdown2html.py:74-82 | the paragraph handling appends what `TextLineStep` renders to |
| BlockLaws.ToLineEndIff | markdown2html.py:31-50 | `(.*)$` captures `t` from `s` if and only if `t` has no newline and `s` is `t` or `t` + `"\n"` |
| BlockLaws.LeadingHashesOf | markdown2html.py:31-42 | `n` hashes followed by a non-`#` character count as `n` |
| BlockLaws.MatchHeadingShape | markdown2html.py:31-43 | `n` hashes, a space and `t`: a heading of level `n` exactly when `t` runs to the end of the line |
| BlockLaws.MatchHeadingIff | markdown2html.py:31-43 | the heading regex yields level `n` and text `t` if and only if `n >= 1`, `t` has no newline, and the line is `#`×n + " " + t, possibly with a final newline |
| BlockLaws.MatchListItemIff | markdown2html.py:50-61 | the list regex yields `t` if and only if the line is a marker, one whitespace character, then `t` without a newline, possibly with a final newline |
| BlockLaws.HeadingLineStep | markdown2html.py:31-47 | a line of heading shape takes the heading branch with that level and text |
| BlockLaws.HeadingLine | markdown2html.py:31-47 | a heading closes an open paragraph, leaves an open list open and unchanged, and emits exactly one `<hN>` fragment for any N >= 1 |
| BlockLaws.ListItemLine | markdown2html.py:50-69 | a list item closes an open paragraph, emits `<ol>` or `<ul>` only when no list is open (`<ol>` exactly for `*`), and emits `<li>` + inline(text) + `</li>`; an open list keeps its kind |
| BlockLaws.ListItemLineStep | markdown2html.py:50-69 | a line of list-item shape takes the list branch with that marker and text |
| BlockLaws.BlankLine | markdown2html.py:70-82 | a blank line closes whatever block is open and emits `inline("")` |
| BlockLaws.TextLine | markdown2html.py:70-82 | a non-blank other line closes an open list, opens a paragraph unless one is open (indenting its first line), and emits inline(rstrip) of the line |
| BlockLaws.NestAppend | markdown2html.py:23-91 | nesting is checked fragment by fragment, so it composes over concatenation |
| BlockLaws.TextLineStepNests | markdown2html.py:74-82 | the paragraph handling emits well-placed fragments that lead to its new block |
| BlockLaws.LineStepNests | markdown2html.py:29-82 | every line's fragments are in place for the open block and lead to the line's new block |
| BlockLaws.RunNests | markdown2html.py:29-82 | after any prefix of the input, the output is well nested and leads to the block the run has open |
| BlockLaws.ConvertWellNested | markdown2html.py:23-91 | the tag fragments the converter emits are well nested: `OpenParagraph`/`CloseParagraph` and `OpenList(k)`/`CloseList(k)` alternate, lists never nest, each `CloseList` matches its open's kind, and nothing is left open; content lines that look like tags are not tag fragments and are not covered |
| BlockLaws.NestCounts | markdown2html.py:62-91 | along well-nested fragments, opens minus closes equals the change in open blocks |
| BlockLaws.ConvertBalanced | markdown2html.py:62-91 | the emitted `OpenParagraph` and `CloseParagraph` fragments are equally many, and so are `OpenList(k)` and `CloseList(k)` for each kind; content lines that look like tags are not counted |
| BlockExamples.NoOpenerCharUnchanged | markdown2html.py:98-111 | text with none of `*`, `_`, `[`, `(` is left unchanged by the transformer |
| BlockExamples.OrdinaryLineIsText | markdown2html.py:31-74 | a line starting with a character that is not `#`, not a list marker and not whitespace is neither a heading nor a list item, and is not blank |
| BlockExamples.HeadingExampleStep | markdown2html.py:31-47 | `## Title` is a level-2 heading fragment |
| BlockExamples.ExampleHeading | markdown2html.py:23-91 | the input `## Title` converts to `<h2>Title</h2>` |
| BlockExamples.TwoItemList | markdown2html.py:50-85 | two items with the same marker give the list open tag, two items, and the close tag of the same kind |
| BlockExamples.ExampleUnorderedList | markdown2html.py:23-91 | `- a`, `- b` convert to `<ul>`, `<li>a</li>`, `<li>b</li>`, `</ul>` |
| BlockExamples.ExampleOrderedList | markdown2html.py:23-91 | `* a`, `* b` convert to `<ol>`, `<li>a</li>`, `<li>b</li>`, `</ol>` |
| BlockExamples.FirstParagraphLine | markdown2html.py:74-82 | a plain first line opens a paragraph and is indented by four spaces |
| BlockExamples.NextParagraphLine | markdown2html.py:74-82 | a plain line inside a paragraph is emitted as it is |
| BlockExamples.EmptyLineClosesParagraph | markdown2html.py:79-82 | an empty line in a paragraph emits `</p>` and then an empty content line |
| BlockExamples.TwoLineParagraph | markdown2html.py:70-91 | two plain lines and an empty line give `<p>`, the indented first line, the second line, `</p>`, and an empty line |
| BlockExamples.ExampleParagraph | markdown2html.py:23-91 | `first`, `second`, `""` convert to `<p>`, `    first`, `second`, `</p>`, `""` |
| BlockExamples.TwoLineOpenParagraph | markdown2html.py:70-87 | two plain lines at the end of the input give `<p>`, the indented first line, the second line, and the `</p>` appended after the loop |
| BlockExamples.ExampleTagLikeContent | markdown2html.py:70-87 | `a`, `</ul>` convert to `<p>`, `    a`, `</ul>`, `</p>`: the second line is unescaped content, so the converter emits no `CloseList` fragment for it |

## Left out

- Command-line handling: the argument count, the file-existence check,
  `sys.exit` and the messages on stderr (markdown2html.py:17-19, 145-160).
  These are process I/O.
- Opening and reading the input file and writing the output file
  (markdown2html.py:22, 94-95).
  - The model takes the lines as a `seq<string>` and returns the
    `html_lines` list.
  - The final `"\n".join` is not modelled.
- The MD5 digest (markdown2html.py:108-109). `hashlib` is a foreign
  library, so the digest is a parameter `md5: string -> string`.
  - Lemmas that need the digest's shape require `IsHexDigest`
    (32 lowercase hexadecimal digits).
  - The UTF-8 encoding before hashing is part of that parameter.
- `parse_markup` (markdown2html.py:114-142). The entry point never calls
  it.
- Python's whitespace set for `\s`, `strip` and `rstrip`. It is written
  out as `PyText.IsSpace`. The UTF-8 decoding of the input file is not
  modelled.
- A general regex engine. Each of the six fixed regexes is modelled as a
  hand-written scanner that is proved to find the match the regex finds.
- The `</b>` and `</em>` closes. `in_bold` and `in_emphasis` are kept as
  variables with their guarded appends. The loop invariant (`StateIs`)
  proves they stay false, so `Fragment` has no constructor for those
  closes.
- The loop body is split into helper methods: `ConvertLine`,
  `ConvertHeading`, `ConvertListItem`, `ConvertOtherLine`,
  `ConvertTextLine`, `CloseOpenParagraph`, `OpenListIfNone` and
  `CloseBlocks`. Each one passes the state variables in and hands them
  back.
