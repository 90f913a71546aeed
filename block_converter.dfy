/** The block converter of markdown2html.py: the per-line loop of
    `convert_markdown_to_html` (lines 23-91), which classifies each input
    line as a heading, a list item or anything else and emits HTML
    fragment lines, and the closing of open blocks at end of input.

    `ConvertMarkdownToHtml` keeps the source's own state, the flags
    `inList`, `listType`, `inParagraph`, `inBold`, `inEmphasis`, and its
    append-only `htmlLines`. It is proved equal to `Convert`, a reference
    definition over a tagged state (no block, a paragraph, or a list of a
    given kind) that emits typed fragments; `Render` turns those into the
    strings the source appends. */
module BlockConverter {
  import opened PyText
  import opened InlineMarkup

  // ----- the two `re.match` calls -----

  /** The number of `#` characters `s` starts with. */
  function LeadingHashes(s: string): (n: nat)
    ensures n <= |s| && (forall k :: 0 <= k < n ==> s[k] == '#')
    ensures n < |s| ==> s[n] != '#'
  {
    if |s| > 0 && s[0] == '#' then 1 + LeadingHashes(s[1..]) else 0
  }

  function Hashes(n: nat): string
  {
    seq(n, _ => '#')
  }

  /** `(.*)$` matched against `s` from its start: `.` takes anything but a
      newline and `$` matches at the end or just before a newline that
      ends the string. The group is `s` without that final newline. */
  function ToLineEnd(s: string): (r: Option<string>)
    ensures r.Some? ==> NewlineFree(r.value, 0, |r.value|) && (s == r.value || s == r.value + "\n")
  {
    if NewlineFree(s, 0, |s|) then Some(s)
    else if |s| > 0 && s[|s| - 1] == '\n' && NewlineFree(s, 0, |s| - 1) then Some(s[..|s| - 1])
    else None
  }

  datatype HeadingMatch = HeadingMatch(level: nat, text: string)

  /** `re.match(r"^(#+) (.*)$", line)`: the level is the number of leading
      `#` (no upper bound), the text is group 2. */
  function MatchHeading(line: string): (r: Option<HeadingMatch>)
    ensures r.Some? ==> 1 <= r.value.level < |line| && line[0] == '#'
  {
    var n := LeadingHashes(line);
    if 1 <= n < |line| && line[n] == ' ' then
      match ToLineEnd(line[n + 1..])
      case Some(text) => Some(HeadingMatch(n, text))
      case None => None
    else None
  }

  predicate IsListMarker(c: char)
  {
    c == '*' || c == '-'
  }

  /** `re.match(r"^[*-]\s(.*)$", line)`: a marker, ONE whitespace character
      (which may be the line's newline), and the item text as group 1. */
  function MatchListItem(line: string): (r: Option<string>)
    ensures r.Some? ==> |line| >= 2 && IsListMarker(line[0]) && IsSpace(line[1])
  {
    if |line| >= 2 && IsListMarker(line[0]) && IsSpace(line[1]) then ToLineEnd(line[2..]) else None
  }

  // ----- what the converter emits -----

  datatype ListKind = Unordered | Ordered

  /** The `list_type` string of a list kind. */
  function Tag(k: ListKind): string
  {
    match k
    case Unordered => "ul"
    case Ordered => "ol"
  }

  /** The block open between two lines. */
  datatype Block = NoBlock | Paragraph | List(kind: ListKind)

  /** One fragment line of the output, by what the converter meant by it. */
  datatype Fragment =
    | OpenParagraph
    | CloseParagraph
    | OpenList(kind: ListKind)
    | CloseList(kind: ListKind)
    | Heading(level: nat, html: string)
    | Item(html: string)
    | Content(html: string)

  /** The string the source appends for a fragment. */
  function Render(f: Fragment): string
  {
    match f
    case OpenParagraph => "<p>"
    case CloseParagraph => "</p>"
    case OpenList(k) => "<" + Tag(k) + ">"
    case CloseList(k) => "</" + Tag(k) + ">"
    case Heading(n, h) => "<h" + NatToString(n) + ">" + h + "</h" + NatToString(n) + ">"
    case Item(h) => "<li>" + h + "</li>"
    case Content(h) => h
  }

  /** The strings for a sequence of fragments, one line per fragment. */
  function RenderAll(fs: seq<Fragment>): (r: seq<string>)
    ensures |r| == |fs|
  {
    if |fs| == 0 then [] else RenderAll(fs[..|fs| - 1]) + [Render(fs[|fs| - 1])]
  }

  lemma {:induction false} RenderAllAppend(a: seq<Fragment>, b: seq<Fragment>)
    ensures RenderAll(a + b) == RenderAll(a) + RenderAll(b)
    decreases |b|
  {
    if |b| == 0 {
      assert a + b == a;
    } else {
      RenderAllAppend(a, b[..|b| - 1]);
      assert (a + b)[..|a + b| - 1] == a + b[..|b| - 1];
    }
  }

  lemma RenderAllSnoc(fs: seq<Fragment>, f: Fragment)
    ensures RenderAll(fs + [f]) == RenderAll(fs) + [Render(f)]
  {
    assert (fs + [f])[..|fs|] == fs;
  }

  lemma RenderAllOne(f: Fragment)
    ensures RenderAll([f]) == [Render(f)]
  {
    assert [f][..0] == [];
  }

  /** The lines a heading emits. */
  lemma RenderHeadingStep(b: Block, h: HeadingMatch, inline: string -> string)
    ensures RenderAll(HeadingStep(b, h, inline).out)
            == (if b == Paragraph then ["</p>"] else [])
               + ["<h" + NatToString(h.level) + ">" + inline(h.text) + "</h" + NatToString(h.level) + ">"]
  {
    var f := Heading(h.level, inline(h.text));
    if b == Paragraph {
      RenderAllTwo(CloseParagraph, f);
    } else {
      RenderAllOne(f);
    }
  }

  lemma RenderListTags(k: ListKind)
    ensures Render(OpenList(k)) == (if k == Ordered then "<ol>" else "<ul>")
    ensures Render(CloseList(k)) == (if k == Ordered then "</ol>" else "</ul>")
  {
  }

  /** The lines a list item emits. */
  lemma RenderListItemStep(b: Block, marker: char, text: string, inline: string -> string)
    ensures var kind := KindAfterItem(b, marker);
            RenderAll(ListItemStep(b, marker, text, inline).out)
            == (if b == Paragraph then ["</p>"] else [])
               + (if b.List? then [] else ["<" + Tag(kind) + ">"])
               + ["<li>" + inline(text) + "</li>"]
  {
    var kind := KindAfterItem(b, marker);
    var item := Item(inline(text));
    if b == Paragraph {
      assert ListItemStep(b, marker, text, inline).out == [CloseParagraph, OpenList(kind), item];
      RenderParagraphItem(kind, item);
    } else if b.List? {
      RenderAllOne(item);
    } else {
      RenderOpenItem(kind, item);
    }
  }

  lemma RenderParagraphItem(k: ListKind, item: Fragment)
    ensures RenderAll([CloseParagraph, OpenList(k), item]) == ["</p>", Render(OpenList(k)), Render(item)]
  {
    RenderAllIndex([CloseParagraph, OpenList(k), item]);
  }

  lemma RenderOpenItem(k: ListKind, item: Fragment)
    ensures RenderAll([OpenList(k), item]) == [Render(OpenList(k)), Render(item)]
  {
    RenderAllIndex([OpenList(k), item]);
  }

  /** Each output line is the rendering of its fragment. */
  lemma {:induction false} RenderAllIndex(fs: seq<Fragment>)
    ensures forall i :: 0 <= i < |fs| ==> RenderAll(fs)[i] == Render(fs[i])
    decreases |fs|
  {
    if |fs| > 0 {
      RenderAllIndex(fs[..|fs| - 1]);
    }
  }


  /** The lines a line of text emits once no list is open. */
  lemma RenderTextLineStep(b: Block, line: string, inline: string -> string)
    requires !b.List?
    ensures var opens := b == NoBlock && !IsBlank(line);
            RenderAll(TextLineStep(b, line, inline).out)
            == (if opens then ["<p>"] else if b == Paragraph && IsBlank(line) then ["</p>"] else [])
               + [inline(RStrip(if opens then "    " + line else line))]
  {
    if b == NoBlock && !IsBlank(line) {
      RenderAllTwo(OpenParagraph, Content(inline(RStrip("    " + line))));
    } else if b == Paragraph && IsBlank(line) {
      RenderAllTwo(CloseParagraph, Content(inline(RStrip(line))));
    } else {
      RenderAllOne(Content(inline(RStrip(line))));
    }
  }

  lemma RenderAllTwo(f: Fragment, g: Fragment)
    ensures RenderAll([f, g]) == [Render(f), Render(g)]
  {
    RenderAllSnoc([f], g);
    RenderAllOne(f);
    assert [f] + [g] == [f, g];
  }

  /** The lines any other line emits: the close tag of an open list, then
      the lines of the text handling. */
  lemma RenderOtherLineStep(b: Block, line: string, inline: string -> string)
    ensures RenderAll(OtherLineStep(b, line, inline).out)
            == (if b.List? then ["</" + Tag(b.kind) + ">"] else [])
               + RenderAll(TextLineStep(if b.List? then NoBlock else b, line, inline).out)
  {
    var rest := TextLineStep(if b.List? then NoBlock else b, line, inline);
    if b.List? {
      RenderAllAppend([CloseList(b.kind)], rest.out);
      RenderAllOne(CloseList(b.kind));
    } else {
      assert [] + rest.out == rest.out;
    }
  }

  /** The block open after a line, and the fragments the line emitted. */
  datatype Step = Step(block: Block, out: seq<Fragment>)

  /** What one line does, by its class:
      - a heading closes an open paragraph, leaves an open list as it is,
        and emits the heading;
      - a list item closes an open paragraph, opens a list if none is open
        (ordered when the line starts with `*`), and emits the item;
      - any other line closes an open list; a non-blank line outside a
        paragraph opens one (its text indented by four spaces), a blank
        line inside one closes it; the rstripped line follows in every
        case. */
  function LineStep(b: Block, line: string, inline: string -> string): Step
  {
    match MatchHeading(line)
    case Some(h) => HeadingStep(b, h, inline)
    case None =>
      match MatchListItem(line)
      case Some(text) => ListItemStep(b, line[0], text, inline)
      case None => OtherLineStep(b, line, inline)
  }

  function HeadingStep(b: Block, h: HeadingMatch, inline: string -> string): Step
  {
    Step(if b == Paragraph then NoBlock else b,
         (if b == Paragraph then [CloseParagraph] else [])
         + [Heading(h.level, inline(h.text))])
  }

  /** The kind of the list an item is in: the open list's, or, when the
      item opens the list, ordered exactly when its marker is `*`. */
  function KindAfterItem(b: Block, marker: char): ListKind
  {
    if b.List? then b.kind else if marker == '*' then Ordered else Unordered
  }

  function ListItemStep(b: Block, marker: char, text: string, inline: string -> string): Step
  {
    var kind := KindAfterItem(b, marker);
    Step(List(kind),
         (if b == Paragraph then [CloseParagraph] else [])
         + (if b.List? then [] else [OpenList(kind)])
         + [Item(inline(text))])
  }

  function OtherLineStep(b: Block, line: string, inline: string -> string): Step
  {
    var rest := TextLineStep(if b.List? then NoBlock else b, line, inline);
    Step(rest.block, (if b.List? then [CloseList(b.kind)] else []) + rest.out)
  }

  /** The paragraph part of `OtherLineStep`, from a state with no list open. */
  function TextLineStep(b: Block, line: string, inline: string -> string): Step
    requires !b.List?
  {
    if b == NoBlock && !IsBlank(line) then
      Step(Paragraph, [OpenParagraph, Content(inline(RStrip("    " + line)))])
    else if b == Paragraph && IsBlank(line) then
      Step(NoBlock, [CloseParagraph, Content(inline(RStrip(line)))])
    else
      Step(b, [Content(inline(RStrip(line)))])
  }

  /** All lines, in order, from the state with no block open. */
  function Run(lines: seq<string>, inline: string -> string): Step
  {
    if |lines| == 0 then Step(NoBlock, [])
    else
      var prev := Run(lines[..|lines| - 1], inline);
      var last := LineStep(prev.block, lines[|lines| - 1], inline);
      Step(last.block, prev.out + last.out)
  }

  /** One more line extends the run by that line's step. */
  lemma RunSnoc(lines: seq<string>, i: nat, inline: string -> string)
    requires i < |lines|
    ensures var prev := Run(lines[..i], inline);
            var last := LineStep(prev.block, lines[i], inline);
            Run(lines[..i + 1], inline) == Step(last.block, prev.out + last.out)
  {
    assert lines[..i + 1][..i] == lines[..i];
  }

  /** The close tag of the block still open at end of input. */
  function Closing(b: Block): seq<Fragment>
  {
    match b
    case NoBlock => []
    case Paragraph => [CloseParagraph]
    case List(k) => [CloseList(k)]
  }

  /** The whole conversion: every line, then the closing of the open block. */
  function Convert(lines: seq<string>, inline: string -> string): seq<Fragment>
  {
    var r := Run(lines, inline);
    r.out + Closing(r.block)
  }

  /** The inline transformer the source applies to every text it emits:
      `parse_inline_markup`, with `md5` standing for the hex digest. The
      block-level functions above are written for any transformer. */
  function InlineTransformer(md5: string -> string): string -> string
  {
    text => ParseInlineMarkup(text, md5)
  }

  /** The state variables of the source stand for the block `b`. */
  ghost predicate StateIs(b: Block, inList: bool, listType: string, inParagraph: bool, inBold: bool, inEmphasis: bool)
  {
    inList == b.List? && (inList ==> listType == Tag(b.kind)) && inParagraph == (b == Paragraph)
    && !inBold && !inEmphasis
  }

  /** `convert_markdown_to_html` without its file I/O: the lines in, the
      fragment lines the source joins and writes out. */
  method ConvertMarkdownToHtml(lines: seq<string>, md5: string -> string) returns (htmlLines: seq<string>)
    ensures htmlLines == RenderAll(Convert(lines, InlineTransformer(md5)))
  {
    htmlLines := [];
    var inList := false;
    var listType := "";
    var inParagraph := false;
    var inBold := false;
    var inEmphasis := false;
    for i := 0 to |lines|
      invariant StateIs(Run(lines[..i], InlineTransformer(md5)).block, inList, listType, inParagraph, inBold, inEmphasis)
      invariant htmlLines == RenderAll(Run(lines[..i], InlineTransformer(md5)).out)
    {
      ghost var prev := Run(lines[..i], InlineTransformer(md5));
      htmlLines, inList, listType, inParagraph, inBold, inEmphasis :=
        ConvertLine(lines[i], md5, prev.block, htmlLines, inList, listType, inParagraph, inBold, inEmphasis);
      RunSnoc(lines, i, InlineTransformer(md5));
      RenderAllAppend(prev.out, LineStep(prev.block, lines[i], InlineTransformer(md5)).out);
    }
    assert lines[..|lines|] == lines;
    ghost var r := Run(lines, InlineTransformer(md5));
    htmlLines := CloseBlocks(r.block, htmlLines, inList, listType, inParagraph, inBold, inEmphasis);
    RenderAllAppend(r.out, Closing(r.block));
  }

  /** End of input (markdown2html.py:84-91): whatever is still open is
      closed, list first. */
  method CloseBlocks(ghost b: Block, htmlLines: seq<string>, inList: bool, listType: string, inParagraph: bool,
                     inBold: bool, inEmphasis: bool)
    returns (htmlLines': seq<string>)
    requires StateIs(b, inList, listType, inParagraph, inBold, inEmphasis)
    ensures htmlLines' == htmlLines + RenderAll(Closing(b))
  {
    htmlLines' := htmlLines;
    if inList {
      htmlLines' := htmlLines' + ["</" + listType + ">"];
    }
    if inParagraph {
      htmlLines' := htmlLines' + ["</p>"];
    }
    if inBold {
      htmlLines' := htmlLines' + ["</b>"];
    }
    if inEmphasis {
      htmlLines' := htmlLines' + ["</em>"];
    }
    if b != NoBlock {
      RenderAllOne(Closing(b)[0]);
    }
  }

  /** The body of the source's `for line in f` loop: one line, with the
      converter's state variables passed in and handed back. `b` is the
      block those variables stand for. */
  method ConvertLine(line: string, md5: string -> string, ghost b: Block, htmlLines: seq<string>,
                     inList: bool, listType: string, inParagraph: bool, inBold: bool, inEmphasis: bool)
    returns (htmlLines': seq<string>, inList': bool, listType': string, inParagraph': bool,
             inBold': bool, inEmphasis': bool)
    requires StateIs(b, inList, listType, inParagraph, inBold, inEmphasis)
    ensures StateIs(LineStep(b, line, InlineTransformer(md5)).block, inList', listType', inParagraph', inBold', inEmphasis')
    ensures htmlLines' == htmlLines + RenderAll(LineStep(b, line, InlineTransformer(md5)).out)
  {
    var heading := MatchHeading(line);
    if heading.Some? {
      htmlLines', inParagraph', inBold', inEmphasis' :=
        ConvertHeading(heading.value, md5, b, htmlLines, inParagraph, inBold, inEmphasis);
      inList', listType' := inList, listType;
    } else {
      var item := MatchListItem(line);
      if item.Some? {
        htmlLines', inList', listType', inParagraph', inBold', inEmphasis' :=
          ConvertListItem(line, item.value, md5, b, htmlLines, inList, listType, inParagraph, inBold, inEmphasis);
      } else {
        htmlLines', inList', inParagraph' :=
          ConvertOtherLine(line, md5, b, htmlLines, inList, listType, inParagraph);
        listType', inBold', inEmphasis' := listType, inBold, inEmphasis;
      }
    }
  }

  /** What a heading and a list item do first (markdown2html.py:34-41 and
      55-60): close an open paragraph, and the bold and emphasis flags. */
  method CloseOpenParagraph(ghost b: Block, htmlLines: seq<string>, inParagraph: bool, inBold: bool, inEmphasis: bool)
    returns (htmlLines': seq<string>, inParagraph': bool, inBold': bool, inEmphasis': bool)
    requires inParagraph == (b == Paragraph) && !inBold && !inEmphasis
    ensures htmlLines' == htmlLines + (if b == Paragraph then ["</p>"] else [])
    ensures !inParagraph' && !inBold' && !inEmphasis'
  {
    htmlLines', inParagraph', inBold', inEmphasis' := htmlLines, inParagraph, inBold, inEmphasis;
    if inParagraph' {
      htmlLines' := htmlLines' + ["</p>"];
      inParagraph' := false;
    }
    if inBold' {
      htmlLines' := htmlLines' + ["</b>"];
      inBold' := false;
    }
    if inEmphasis' {
      htmlLines' := htmlLines' + ["</em>"];
      inEmphasis' := false;
    }
  }

  /** A heading line (markdown2html.py:33-47). */
  method ConvertHeading(heading: HeadingMatch, md5: string -> string, ghost b: Block, htmlLines: seq<string>,
                        inParagraph: bool, inBold: bool, inEmphasis: bool)
    returns (htmlLines': seq<string>, inParagraph': bool, inBold': bool, inEmphasis': bool)
    requires inParagraph == (b == Paragraph) && !inBold && !inEmphasis
    ensures var step := HeadingStep(b, heading, InlineTransformer(md5));
            inParagraph' == (step.block == Paragraph) && !inBold' && !inEmphasis'
            && htmlLines' == htmlLines + RenderAll(step.out)
  {
    htmlLines', inParagraph', inBold', inEmphasis' := CloseOpenParagraph(b, htmlLines, inParagraph, inBold, inEmphasis);
    var headingLevel := heading.level;
    var headingText := heading.text;
    htmlLines' := htmlLines' + ["<h" + NatToString(headingLevel) + ">" + ParseInlineMarkup(headingText, md5)
                                + "</h" + NatToString(headingLevel) + ">"];
    RenderHeadingStep(b, heading, InlineTransformer(md5));
  }

  /** A list-item line (markdown2html.py:50-69). */
  method ConvertListItem(line: string, listItemText: string, md5: string -> string, ghost b: Block,
                         htmlLines: seq<string>, inList: bool, listType: string, inParagraph: bool,
                         inBold: bool, inEmphasis: bool)
    returns (htmlLines': seq<string>, inList': bool, listType': string, inParagraph': bool,
             inBold': bool, inEmphasis': bool)
    requires |line| > 0
    requires StateIs(b, inList, listType, inParagraph, inBold, inEmphasis)
    ensures StateIs(ListItemStep(b, line[0], listItemText, InlineTransformer(md5)).block,
                    inList', listType', inParagraph', inBold', inEmphasis')
    ensures htmlLines' == htmlLines + RenderAll(ListItemStep(b, line[0], listItemText, InlineTransformer(md5)).out)
  {
    htmlLines', inParagraph', inBold', inEmphasis' := CloseOpenParagraph(b, htmlLines, inParagraph, inBold, inEmphasis);
    htmlLines', inList', listType' := OpenListIfNone(b, line[0], htmlLines', inList, listType);
    var html := ParseInlineMarkup(listItemText, md5);
    htmlLines' := htmlLines' + ["<li>" + html + "</li>"];
    RenderListItemStep(b, line[0], listItemText, InlineTransformer(md5));
  }

  /** Outside a list, a list item first opens one (markdown2html.py:62-68):
      `<ol>` when the line starts with `*`, `<ul>` otherwise. */
  method OpenListIfNone(ghost b: Block, marker: char, htmlLines: seq<string>, inList: bool, listType: string)
    returns (htmlLines': seq<string>, inList': bool, listType': string)
    requires inList == b.List? && (inList ==> listType == Tag(b.kind))
    ensures inList' && listType' == Tag(KindAfterItem(b, marker))
    ensures htmlLines' == htmlLines + (if b.List? then [] else ["<" + Tag(KindAfterItem(b, marker)) + ">"])
  {
    htmlLines', inList', listType' := htmlLines, inList, listType;
    if !inList' {
      listType' := "ul";
      if marker == '*' {
        listType' := "ol";
      }
      htmlLines' := htmlLines' + ["<" + listType' + ">"];
      inList' := true;
    }
  }

  /** `line.strip() == ""`. */
  method IsBlankLine(line: string) returns (blank: bool)
    ensures blank == IsBlank(line)
  {
    StripEmptyIffBlank(line);
    blank := Strip(line) == "";
  }

  /** Any other line (markdown2html.py:70-82): an open list is closed, the
      rest is the paragraph handling. */
  method ConvertOtherLine(line: string, md5: string -> string, ghost b: Block, htmlLines: seq<string>,
                          inList: bool, listType: string, inParagraph: bool)
    returns (htmlLines': seq<string>, inList': bool, inParagraph': bool)
    requires inList == b.List? && (inList ==> listType == Tag(b.kind)) && inParagraph == (b == Paragraph)
    ensures var step := OtherLineStep(b, line, InlineTransformer(md5));
            !inList' && inParagraph' == (step.block == Paragraph) && !step.block.List?
            && htmlLines' == htmlLines + RenderAll(step.out)
  {
    htmlLines', inList' := htmlLines, inList;
    if inList' {
      htmlLines' := htmlLines' + ["</" + listType + ">"];
      inList' := false;
    }
    ghost var rest := if b.List? then NoBlock else b;
    htmlLines', inParagraph' := ConvertTextLine(line, md5, rest, htmlLines', inParagraph);
    RenderOtherLineStep(b, line, InlineTransformer(md5));
  }

  /** The paragraph handling of a line that is neither a heading nor a list
      item, once no list is open (markdown2html.py:74-82). */
  method ConvertTextLine(line: string, md5: string -> string, ghost b: Block, htmlLines: seq<string>,
                         inParagraph: bool)
    returns (htmlLines': seq<string>, inParagraph': bool)
    requires !b.List? && inParagraph == (b == Paragraph)
    ensures var step := TextLineStep(b, line, InlineTransformer(md5));
            inParagraph' == (step.block == Paragraph) && !step.block.List?
            && htmlLines' == htmlLines + RenderAll(step.out)
  {
    htmlLines', inParagraph' := htmlLines, inParagraph;
    var text := line;
    var blank := IsBlankLine(line);
    if !inParagraph' && !blank {
      htmlLines' := htmlLines' + ["<p>"];
      inParagraph' := true;
      text := "    " + text;
    } else if inParagraph' && blank {
      htmlLines' := htmlLines' + ["</p>"];
      inParagraph' := false;
    }
    var html := ParseInlineMarkup(RStrip(text), md5);
    htmlLines' := htmlLines' + [html];
    RenderTextLineStep(b, line, InlineTransformer(md5));
  }
}
