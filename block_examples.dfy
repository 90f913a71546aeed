/** Worked examples of the block converter: whole conversions of small
    inputs, down to the output lines. Each input line is a parameter fixed
    by the precondition, so that the general per-line laws do the work. */
module BlockExamples {
  import opened PyText
  import opened InlineMarkup
  import opened BlockConverter
  import opened BlockLaws

  // ----- helpers -----

  /** Text with none of the opener characters is left as it is. */
  lemma NoOpenerCharUnchanged(x: string, md5: string -> string)
    requires '*' !in x && '_' !in x && '[' !in x && '(' !in x
    ensures InlineTransformer(md5)(x) == x
  {
    assert MarkupFree(x);
  }

  /** A line that starts with neither `#`, a list marker nor whitespace is
      ordinary text. */
  lemma OrdinaryLineIsText(line: string)
    requires |line| > 0 && line[0] != '#' && !IsListMarker(line[0]) && !IsSpace(line[0])
    ensures MatchHeading(line).None? && MatchListItem(line).None? && !IsBlank(line)
  {
  }

  /** `rstrip` removes the final newline of a line whose text ends in a
      non-space. */
  lemma RStripNewline(t: string)
    requires |t| > 0 && !IsSpace(t[|t| - 1])
    ensures RStrip(t + "\n") == t
  {
    assert (t + "\n")[..|t|] == t;
  }

  lemma ConvertOne(line: string, inline: string -> string)
    ensures var s0 := LineStep(NoBlock, line, inline);
            Convert([line], inline) == s0.out + Closing(s0.block)
  {
    RunSnoc([line], 0, inline);
    assert [line][..0] == [] && [line][..1] == [line];
  }

  lemma RunTwo(l0: string, l1: string, inline: string -> string)
    ensures var s0 := LineStep(NoBlock, l0, inline);
            var s1 := LineStep(s0.block, l1, inline);
            Run([l0, l1], inline) == Step(s1.block, s0.out + s1.out)
  {
    var s0 := LineStep(NoBlock, l0, inline);
    assert Run([l0], inline) == s0 by {
      RunSnoc([l0], 0, inline);
      assert [l0][..0] == [] && [l0][..1] == [l0];
    }
    RunSnoc([l0, l1], 1, inline);
    assert [l0, l1][..1] == [l0] && [l0, l1][..2] == [l0, l1];
  }

  lemma RunThree(l0: string, l1: string, l2: string, inline: string -> string)
    ensures var s0 := LineStep(NoBlock, l0, inline);
            var s1 := LineStep(s0.block, l1, inline);
            var s2 := LineStep(s1.block, l2, inline);
            Run([l0, l1, l2], inline) == Step(s2.block, s0.out + s1.out + s2.out)
  {
    RunTwo(l0, l1, inline);
    RunSnoc([l0, l1, l2], 2, inline);
    assert [l0, l1, l2][..2] == [l0, l1] && [l0, l1, l2][..3] == [l0, l1, l2];
  }

  // ----- a heading -----

  lemma TitleUnchanged(md5: string -> string)
    ensures InlineTransformer(md5)("Title") == "Title"
  {
    NoOpenerCharUnchanged("Title", md5);
  }

  lemma HeadingExampleShape(line: string)
    requires line == "## Title"
    ensures line == Hashes(2) + " " + "Title" + ""
  {
  }

  lemma HeadingExampleStep(line: string, inline: string -> string)
    requires line == "## Title" && inline("Title") == "Title"
    ensures LineStep(NoBlock, line, inline) == Step(NoBlock, [Heading(2, "Title")])
  {
    HeadingExampleShape(line);
    HeadingLineStep(NoBlock, line, 2, "Title", "", inline);
    assert HeadingStep(NoBlock, HeadingMatch(2, "Title"), inline) == Step(NoBlock, [Heading(2, "Title")]);
  }

  lemma RenderHeadingTitle()
    ensures Render(Heading(2, "Title")) == "<h2>Title</h2>"
  {
    assert NatToString(2) == "2";
  }

  lemma RenderHeadingExample()
    ensures RenderAll([Heading(2, "Title")]) == ["<h2>Title</h2>"]
  {
    RenderHeadingTitle();
    RenderAllOne(Heading(2, "Title"));
  }

  /** `## Title` becomes `<h2>Title</h2>`. */
  lemma ExampleHeading(line: string, md5: string -> string)
    requires line == "## Title"
    ensures RenderAll(Convert([line], InlineTransformer(md5))) == ["<h2>Title</h2>"]
  {
    var inline := InlineTransformer(md5);
    TitleUnchanged(md5);
    var fs := [Heading(2, "Title")];
    HeadingExampleStep(line, inline);
    ConvertOne(line, inline);
    assert Convert([line], inline) == fs;
    assert RenderAll(Convert([line], inline)) == RenderAll(fs);
    RenderHeadingExample();
  }

  // ----- a list -----

  /** Two items with the same marker and markup-free text make one list of
      the kind the marker opens. */
  lemma TwoItemList(marker: char, x: string, y: string, l0: string, l1: string, inline: string -> string)
    requires IsListMarker(marker) && NewlineFree(x, 0, |x|) && NewlineFree(y, 0, |y|)
    requires inline(x) == x && inline(y) == y
    requires l0 == [marker, ' '] + x + "\n" && l1 == [marker, ' '] + y + "\n"
    ensures Convert([l0, l1], inline)
            == [OpenList(KindAfterItem(NoBlock, marker)), Item(x), Item(y), CloseList(KindAfterItem(NoBlock, marker))]
  {
    var k := KindAfterItem(NoBlock, marker);
    assert IsSpace(' ');
    ListItemLineStep(NoBlock, l0, marker, ' ', x, "\n", inline);
    ListItemLineStep(List(k), l1, marker, ' ', y, "\n", inline);
    assert LineStep(NoBlock, l0, inline) == Step(List(k), [OpenList(k), Item(x)]);
    assert LineStep(List(k), l1, inline) == Step(List(k), [Item(y)]);
    RunTwo(l0, l1, inline);
  }

  lemma ItemWordsUnchanged(md5: string -> string)
    ensures InlineTransformer(md5)("a") == "a" && InlineTransformer(md5)("b") == "b"
  {
    NoOpenerCharUnchanged("a", md5);
    NoOpenerCharUnchanged("b", md5);
  }

  lemma ListExampleFragments(marker: char, l0: string, l1: string, inline: string -> string)
    requires IsListMarker(marker) && inline("a") == "a" && inline("b") == "b"
    requires l0 == [marker, ' '] + "a" + "\n" && l1 == [marker, ' '] + "b" + "\n"
    ensures Convert([l0, l1], inline)
            == [OpenList(KindAfterItem(NoBlock, marker)), Item("a"), Item("b"), CloseList(KindAfterItem(NoBlock, marker))]
  {
    TwoItemList(marker, "a", "b", l0, l1, inline);
  }

  lemma RenderUnorderedExample()
    ensures RenderAll([OpenList(Unordered), Item("a"), Item("b"), CloseList(Unordered)])
            == ["<ul>", "<li>a</li>", "<li>b</li>", "</ul>"]
  {
    var fs := [OpenList(Unordered), Item("a"), Item("b"), CloseList(Unordered)];
    RenderAllIndex(fs);
    assert Render(fs[0]) == "<ul>";
    assert Render(fs[1]) == "<li>a</li>";
    assert Render(fs[2]) == "<li>b</li>";
    assert Render(fs[3]) == "</ul>";
  }

  lemma RenderOrderedExample()
    ensures RenderAll([OpenList(Ordered), Item("a"), Item("b"), CloseList(Ordered)])
            == ["<ol>", "<li>a</li>", "<li>b</li>", "</ol>"]
  {
    var fs := [OpenList(Ordered), Item("a"), Item("b"), CloseList(Ordered)];
    RenderAllIndex(fs);
    assert Render(fs[0]) == "<ol>";
    assert Render(fs[1]) == "<li>a</li>";
    assert Render(fs[2]) == "<li>b</li>";
    assert Render(fs[3]) == "</ol>";
  }

  lemma UnorderedExampleShape(l0: string, l1: string)
    requires l0 == "- a\n" && l1 == "- b\n"
    ensures l0 == ['-', ' '] + "a" + "\n" && l1 == ['-', ' '] + "b" + "\n"
  {
  }

  lemma OrderedExampleShape(l0: string, l1: string)
    requires l0 == "* a\n" && l1 == "* b\n"
    ensures l0 == ['*', ' '] + "a" + "\n" && l1 == ['*', ' '] + "b" + "\n"
  {
  }

  /** Two `-` items make one unordered list. */
  lemma ExampleUnorderedList(l0: string, l1: string, md5: string -> string)
    requires l0 == "- a\n" && l1 == "- b\n"
    ensures RenderAll(Convert([l0, l1], InlineTransformer(md5))) == ["<ul>", "<li>a</li>", "<li>b</li>", "</ul>"]
  {
    var fs := [OpenList(Unordered), Item("a"), Item("b"), CloseList(Unordered)];
    var inline := InlineTransformer(md5);
    ItemWordsUnchanged(md5);
    UnorderedExampleShape(l0, l1);
    ListExampleFragments('-', l0, l1, inline);
    assert RenderAll(Convert([l0, l1], inline)) == RenderAll(fs);
    RenderUnorderedExample();
  }

  /** Two `*` items make one ordered list. */
  lemma ExampleOrderedList(l0: string, l1: string, md5: string -> string)
    requires l0 == "* a\n" && l1 == "* b\n"
    ensures RenderAll(Convert([l0, l1], InlineTransformer(md5))) == ["<ol>", "<li>a</li>", "<li>b</li>", "</ol>"]
  {
    var fs := [OpenList(Ordered), Item("a"), Item("b"), CloseList(Ordered)];
    var inline := InlineTransformer(md5);
    ItemWordsUnchanged(md5);
    OrderedExampleShape(l0, l1);
    ListExampleFragments('*', l0, l1, inline);
    assert RenderAll(Convert([l0, l1], inline)) == RenderAll(fs);
    RenderOrderedExample();
  }

  // ----- a paragraph -----

  /** Text that begins with an ordinary character and ends in a non-space. */
  predicate OrdinaryLine(x: string)
  {
    |x| > 0 && x[0] != '#' && !IsListMarker(x[0]) && !IsSpace(x[0]) && !IsSpace(x[|x| - 1])
  }

  lemma FirstParagraphLine(x: string, l0: string, inline: string -> string)
    requires OrdinaryLine(x) && inline("    " + x) == "    " + x && l0 == x + "\n"
    ensures LineStep(NoBlock, l0, inline) == Step(Paragraph, [OpenParagraph, Content("    " + x)])
  {
    OrdinaryLineIsText(l0);
    assert "    " + l0 == ("    " + x) + "\n";
    RStripNewline("    " + x);
    TextLine(NoBlock, l0, inline);
  }

  lemma NextParagraphLine(y: string, l1: string, inline: string -> string)
    requires OrdinaryLine(y) && inline(y) == y && l1 == y + "\n"
    ensures LineStep(Paragraph, l1, inline) == Step(Paragraph, [Content(y)])
  {
    OrdinaryLineIsText(l1);
    RStripNewline(y);
    TextLine(Paragraph, l1, inline);
  }

  lemma EmptyLineClosesParagraph(l2: string, inline: string -> string)
    requires l2 == "\n" && inline("") == ""
    ensures LineStep(Paragraph, l2, inline) == Step(NoBlock, [CloseParagraph, Content("")])
  {
    assert IsBlank(l2) by {
      assert l2[0] == '\n';
    }
    BlankLine(Paragraph, l2, inline);
  }

  /** Two plain lines and a blank line: `<p>`, the first line indented by
      four spaces, the second line, `</p>`, and the blank line's empty
      content. */
  lemma TwoLineParagraph(x: string, y: string, l0: string, l1: string, l2: string, inline: string -> string)
    requires OrdinaryLine(x) && OrdinaryLine(y)
    requires inline("    " + x) == "    " + x && inline(y) == y && inline("") == ""
    requires l0 == x + "\n" && l1 == y + "\n" && l2 == "\n"
    ensures Convert([l0, l1, l2], inline)
            == [OpenParagraph, Content("    " + x), Content(y), CloseParagraph, Content("")]
  {
    FirstParagraphLine(x, l0, inline);
    NextParagraphLine(y, l1, inline);
    EmptyLineClosesParagraph(l2, inline);
    RunThree(l0, l1, l2, inline);
  }

  lemma ParagraphWordsOrdinary()
    ensures OrdinaryLine("first") && OrdinaryLine("second")
  {
  }

  lemma IndentedFirstUnchanged(md5: string -> string)
    ensures InlineTransformer(md5)("    first") == "    first"
  {
    NoOpenerCharUnchanged("    first", md5);
  }

  lemma SecondUnchanged(md5: string -> string)
    ensures InlineTransformer(md5)("second") == "second"
  {
    NoOpenerCharUnchanged("second", md5);
  }

  lemma EmptyUnchanged(md5: string -> string)
    ensures InlineTransformer(md5)("") == ""
  {
    NoOpenerCharUnchanged("", md5);
  }

  lemma ParagraphExampleShape(l0: string, l1: string)
    requires l0 == "first\n" && l1 == "second\n"
    ensures l0 == "first" + "\n" && l1 == "second" + "\n" && "    " + "first" == "    first"
  {
  }

  lemma RenderParagraphExample()
    ensures RenderAll([OpenParagraph, Content("    first"), Content("second"), CloseParagraph, Content("")])
            == ["<p>", "    first", "second", "</p>", ""]
  {
    var fs := [OpenParagraph, Content("    first"), Content("second"), CloseParagraph, Content("")];
    RenderAllIndex(fs);
    assert Render(fs[0]) == "<p>";
    assert Render(fs[3]) == "</p>";
  }

  /** Two text lines and a blank line: one paragraph, its first line
      indented, closed by the blank line, which still emits an empty line. */
  lemma ExampleParagraph(l0: string, l1: string, l2: string, md5: string -> string)
    requires l0 == "first\n" && l1 == "second\n" && l2 == "\n"
    ensures RenderAll(Convert([l0, l1, l2], InlineTransformer(md5))) == ["<p>", "    first", "second", "</p>", ""]
  {
    var fs := [OpenParagraph, Content("    first"), Content("second"), CloseParagraph, Content("")];
    ParagraphExampleShape(l0, l1);
    ParagraphWordsOrdinary();
    var inline := InlineTransformer(md5);
    IndentedFirstUnchanged(md5);
    SecondUnchanged(md5);
    EmptyUnchanged(md5);
    TwoLineParagraph("first", "second", l0, l1, l2, inline);
    assert RenderAll(Convert([l0, l1, l2], inline)) == RenderAll(fs);
    RenderParagraphExample();
  }

  // ----- text that looks like a tag -----

  /** Two plain lines at the end of the input: the paragraph they open is
      closed after them. */
  lemma TwoLineOpenParagraph(x: string, y: string, l0: string, l1: string, inline: string -> string)
    requires OrdinaryLine(x) && OrdinaryLine(y)
    requires inline("    " + x) == "    " + x && inline(y) == y
    requires l0 == x + "\n" && l1 == y + "\n"
    ensures Convert([l0, l1], inline) == [OpenParagraph, Content("    " + x), Content(y), CloseParagraph]
  {
    FirstParagraphLine(x, l0, inline);
    NextParagraphLine(y, l1, inline);
    RunTwo(l0, l1, inline);
  }

  lemma TagLikeShape(l0: string, l1: string)
    requires l0 == "a\n" && l1 == "</ul>\n"
    ensures OrdinaryLine("a") && OrdinaryLine("</ul>")
    ensures l0 == "a" + "\n" && l1 == "</ul>" + "\n" && "    " + "a" == "    a"
  {
  }

  lemma IndentedAUnchanged(md5: string -> string)
    ensures InlineTransformer(md5)("    a") == "    a"
  {
    NoOpenerCharUnchanged("    a", md5);
  }

  lemma TagTextUnchanged(md5: string -> string)
    ensures InlineTransformer(md5)("</ul>") == "</ul>"
  {
    NoOpenerCharUnchanged("</ul>", md5);
  }

  lemma RenderTagLikeExample()
    ensures RenderAll([OpenParagraph, Content("    a"), Content("</ul>"), CloseParagraph])
            == ["<p>", "    a", "</ul>", "</p>"]
  {
    var fs := [OpenParagraph, Content("    a"), Content("</ul>"), CloseParagraph];
    RenderAllIndex(fs);
    assert Render(fs[0]) == "<p>";
    assert Render(fs[3]) == "</p>";
  }

  lemma TagLikeNoCloseList()
    ensures Count([OpenParagraph, Content("    a"), Content("</ul>"), CloseParagraph], CloseList(Unordered)) == 0
  {
    var fs := [OpenParagraph, Content("    a"), Content("</ul>"), CloseParagraph];
    assert forall f | f in fs :: !f.CloseList?;
  }

  /** Content is not escaped: a line whose text is `</ul>` is an ordinary
      paragraph line. It renders to the closing-list string, yet it is a
      `Content` fragment, so no `CloseList` is emitted for it. */
  lemma ExampleTagLikeContent(l0: string, l1: string, md5: string -> string)
    requires l0 == "a\n" && l1 == "</ul>\n"
    ensures Convert([l0, l1], InlineTransformer(md5))
            == [OpenParagraph, Content("    a"), Content("</ul>"), CloseParagraph]
    ensures RenderAll(Convert([l0, l1], InlineTransformer(md5))) == ["<p>", "    a", "</ul>", "</p>"]
    ensures Count(Convert([l0, l1], InlineTransformer(md5)), CloseList(Unordered)) == 0
  {
    TagLikeShape(l0, l1);
    IndentedAUnchanged(md5);
    TagTextUnchanged(md5);
    TwoLineOpenParagraph("a", "</ul>", l0, l1, InlineTransformer(md5));
    RenderTagLikeExample();
    TagLikeNoCloseList();
  }
}
