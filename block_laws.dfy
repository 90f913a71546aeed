/** Laws of the block converter: what the two line regexes accept, what
    each kind of line does to the open block, and that the whole output is
    well nested and balanced. */
module BlockLaws {
  import opened PyText
  import opened InlineMarkup
  import opened BlockConverter

  // ----- the line regexes -----

  /** `(.*)$` yields `t` on `s` exactly when `t` has no newline and `s` is
      `t`, possibly followed by one final newline. */
  lemma ToLineEndIff(s: string, t: string)
    ensures ToLineEnd(s) == Some(t) <==> NewlineFree(t, 0, |t|) && (s == t || s == t + "\n")
  {
    if NewlineFree(t, 0, |t|) && s == t + "\n" {
      assert s[|t|] == '\n';
      assert s[..|s| - 1] == t;
    }
  }

  /** `#+` takes every leading `#` and no more. */
  lemma LeadingHashesOf(n: nat, rest: string)
    requires |rest| == 0 || rest[0] != '#'
    ensures LeadingHashes(Hashes(n) + rest) == n
  {
    var s := Hashes(n) + rest;
    assert forall k :: 0 <= k < n ==> s[k] == '#';
    assert n < |s| ==> s[n] == rest[0];
  }

  /** After `n >= 1` hashes and a space, the heading text is what `(.*)$`
      makes of the rest of the line. */
  lemma MatchHeadingShape(n: nat, t: string)
    requires 1 <= n
    ensures MatchHeading(Hashes(n) + " " + t)
            == match ToLineEnd(t) case Some(x) => Some(HeadingMatch(n, x)) case None => None
  {
    var line := Hashes(n) + " " + t;
    assert line == Hashes(n) + (" " + t);
    LeadingHashesOf(n, " " + t);
    assert line[n + 1..] == t;
  }

  /** `^(#+) (.*)$` matches with level `n` and text `text` exactly when the
      line is `n >= 1` hashes, one space and newline-free text, possibly
      followed by the line's final newline. */
  lemma MatchHeadingIff(line: string, n: nat, text: string)
    ensures MatchHeading(line) == Some(HeadingMatch(n, text))
            <==> 1 <= n && NewlineFree(text, 0, |text|)
                 && (line == Hashes(n) + " " + text || line == Hashes(n) + " " + text + "\n")
  {
    if MatchHeading(line) == Some(HeadingMatch(n, text)) {
      assert line[..n] == Hashes(n);
      assert line == Hashes(n) + " " + line[n + 1..];
      MatchHeadingShape(n, line[n + 1..]);
      ToLineEndIff(line[n + 1..], text);
    }
    if 1 <= n && NewlineFree(text, 0, |text|) {
      if line == Hashes(n) + " " + text {
        MatchHeadingShape(n, text);
        ToLineEndIff(text, text);
      } else if line == Hashes(n) + " " + text + "\n" {
        assert line == Hashes(n) + " " + (text + "\n");
        MatchHeadingShape(n, text + "\n");
        ToLineEndIff(text + "\n", text);
      }
    }
  }

  /** `^[*-]\s(.*)$` matches with item text `text` exactly when the line is
      a marker, one whitespace character (the newline included) and
      newline-free text, possibly followed by the line's final newline. */
  lemma MatchListItemIff(line: string, text: string)
    ensures MatchListItem(line) == Some(text)
            <==> |line| >= 2 && IsListMarker(line[0]) && IsSpace(line[1]) && NewlineFree(text, 0, |text|)
                 && (line == line[..2] + text || line == line[..2] + text + "\n")
  {
    if |line| >= 2 {
      ToLineEndIff(line[2..], text);
      assert line == line[..2] + line[2..];
      if line == line[..2] + text + "\n" {
        assert line[2..] == text + "\n";
      }
    }
  }

  // ----- one line -----

  /** A line of the heading shape is classified as a heading of that level
      and text. */
  lemma HeadingLineStep(b: Block, line: string, n: nat, text: string, eol: string, inline: string -> string)
    requires 1 <= n && NewlineFree(text, 0, |text|) && (eol == "" || eol == "\n")
    requires line == Hashes(n) + " " + text + eol
    ensures LineStep(b, line, inline) == HeadingStep(b, HeadingMatch(n, text), inline)
  {
    assert line == Hashes(n) + " " + (text + eol);
    MatchHeadingShape(n, text + eol);
    ToLineEndIff(text + eol, text);
  }

  /** A heading line emits exactly one `<hN>` fragment, after closing an open
      paragraph; an open list stays open and keeps its kind. */
  lemma HeadingLine(b: Block, n: nat, text: string, eol: string, inline: string -> string)
    requires 1 <= n && NewlineFree(text, 0, |text|) && (eol == "" || eol == "\n")
    ensures var step := LineStep(b, Hashes(n) + " " + text + eol, inline);
            step.block == (if b == Paragraph then NoBlock else b)
            && RenderAll(step.out)
               == (if b == Paragraph then ["</p>"] else [])
                  + ["<h" + NatToString(n) + ">" + inline(text) + "</h" + NatToString(n) + ">"]
  {
    HeadingLineStep(b, Hashes(n) + " " + text + eol, n, text, eol, inline);
    var h := Heading(n, inline(text));
    RenderAllOne(h);
    if b == Paragraph {
      RenderAllAppend([CloseParagraph], [h]);
      RenderAllOne(CloseParagraph);
    }
  }

  /** A list-item line closes an open paragraph, opens a list only when none
      is open (`<ol>` when the line starts with `*`, `<ul>` otherwise) and
      emits the item; an open list keeps the kind it was opened with. */
  lemma ListItemLine(b: Block, marker: char, space: char, text: string, eol: string, inline: string -> string)
    requires IsListMarker(marker) && IsSpace(space) && NewlineFree(text, 0, |text|) && (eol == "" || eol == "\n")
    ensures var step := LineStep(b, [marker, space] + text + eol, inline);
            step.block == List(KindAfterItem(b, marker))
            && RenderAll(step.out)
               == (if b == Paragraph then ["</p>"] else [])
                  + (if b.List? then [] else [if marker == '*' then "<ol>" else "<ul>"])
                  + ["<li>" + inline(text) + "</li>"]
  {
    ListItemLineStep(b, [marker, space] + text + eol, marker, space, text, eol, inline);
    RenderListItemStep(b, marker, text, inline);
    RenderListTags(if marker == '*' then Ordered else Unordered);
  }

  /** A line of the list-item shape is classified as an item with that
      marker and text. */
  lemma ListItemLineStep(b: Block, line: string, marker: char, space: char, text: string, eol: string,
                         inline: string -> string)
    requires IsListMarker(marker) && IsSpace(space) && NewlineFree(text, 0, |text|) && (eol == "" || eol == "\n")
    requires line == [marker, space] + text + eol
    ensures LineStep(b, line, inline) == ListItemStep(b, marker, text, inline)
  {
    assert line[..2] == [marker, space];
    if eol == "" {
      assert line == line[..2] + text;
    } else {
      assert line == line[..2] + text + "\n";
    }
    MatchListItemIff(line, text);
  }


  /** A blank line closes whatever block is open and emits one empty line. */
  lemma BlankLine(b: Block, line: string, inline: string -> string)
    requires IsBlank(line)
    ensures LineStep(b, line, inline) == Step(NoBlock, Closing(b) + [Content(inline(""))])
  {
    if |line| > 0 {
      assert IsSpace(line[0]);
    }
    RStripBlank(line);
  }

  /** Any other non-blank line ends inside a paragraph: it closes an open
      list, opens a paragraph unless one is open (the first line indented
      by four spaces), and emits its rstripped, transformed text. */
  lemma TextLine(b: Block, line: string, inline: string -> string)
    requires MatchHeading(line).None? && MatchListItem(line).None? && !IsBlank(line)
    ensures LineStep(b, line, inline)
            == Step(Paragraph,
                    (if b.List? then [CloseList(b.kind)] else [])
                    + (if b == Paragraph then [] else [OpenParagraph])
                    + [Content(inline(RStrip(if b == Paragraph then line else "    " + line)))])
  {
  }

  // ----- nesting -----

  /** The block a fragment leaves open when emitted while `b` is open, or
      `None` if the fragment is out of place there: a paragraph or a list
      opens only when no block is open, each closes only itself (a list
      with its own kind), a heading never sits in a paragraph, an item sits
      only in a list and a content line never does. */
  function NestStep(b: Block, f: Fragment): Option<Block>
  {
    match f
    case OpenParagraph => if b == NoBlock then Some(Paragraph) else None
    case CloseParagraph => if b == Paragraph then Some(NoBlock) else None
    case OpenList(k) => if b == NoBlock then Some(List(k)) else None
    case CloseList(k) => if b == List(k) then Some(NoBlock) else None
    case Heading(_, _) => if b != Paragraph then Some(b) else None
    case Item(_) => if b.List? then Some(b) else None
    case Content(_) => if !b.List? then Some(b) else None
  }

  /** Checks the fragments in order from the open block `b`. */
  function Nest(b: Block, fs: seq<Fragment>): Option<Block>
    decreases |fs|
  {
    if |fs| == 0 then Some(b)
    else match NestStep(b, fs[0])
      case None => None
      case Some(b') => Nest(b', fs[1..])
  }

  lemma {:induction false} NestAppend(b: Block, fs: seq<Fragment>, gs: seq<Fragment>)
    ensures Nest(b, fs + gs) == match Nest(b, fs) case None => None case Some(m) => Nest(m, gs)
    decreases |fs|
  {
    if |fs| == 0 {
      assert fs + gs == gs;
    } else {
      assert (fs + gs)[0] == fs[0];
      assert (fs + gs)[1..] == fs[1..] + gs;
      match NestStep(b, fs[0])
      case None =>
      case Some(b') => NestAppend(b', fs[1..], gs);
    }
  }

  lemma NestCons(b: Block, f: Fragment, fs: seq<Fragment>)
    ensures Nest(b, [f] + fs) == match NestStep(b, f) case None => None case Some(m) => Nest(m, fs)
  {
    assert ([f] + fs)[1..] == fs;
  }

  lemma TextLineStepNests(b: Block, line: string, inline: string -> string)
    requires !b.List?
    ensures Nest(b, TextLineStep(b, line, inline).out) == Some(TextLineStep(b, line, inline).block)
  {
    var step := TextLineStep(b, line, inline);
    var last := step.out[|step.out| - 1];
    NestCons(step.block, last, []);
    if |step.out| == 2 {
      NestCons(b, step.out[0], [last]);
      assert step.out == [step.out[0]] + [last];
    } else {
      assert step.out == [last] + [];
    }
  }

  /** Every line's fragments are in place, and lead to the line's new block. */
  lemma LineStepNests(b: Block, line: string, inline: string -> string)
    ensures Nest(b, LineStep(b, line, inline).out) == Some(LineStep(b, line, inline).block)
  {
    var step := LineStep(b, line, inline);
    match MatchHeading(line)
    case Some(h) =>
      var f := Heading(h.level, inline(h.text));
      NestCons(step.block, f, []);
      if b == Paragraph {
        NestCons(b, CloseParagraph, [f]);
      } else {
        assert step.out == [f] + [];
      }
    case None =>
      match MatchListItem(line)
      case Some(text) =>
        var kind := KindAfterItem(b, line[0]);
        var f := Item(inline(text));
        NestCons(step.block, f, []);
        if b == Paragraph {
          NestCons(NoBlock, OpenList(kind), [f]);
          NestCons(b, CloseParagraph, [OpenList(kind), f]);
          assert step.out == [CloseParagraph] + [OpenList(kind), f];
        } else if !b.List? {
          NestCons(NoBlock, OpenList(kind), [f]);
        } else {
          assert step.out == [f] + [];
        }
      case None =>
        var rest := TextLineStep(if b.List? then NoBlock else b, line, inline);
        TextLineStepNests(if b.List? then NoBlock else b, line, inline);
        if b.List? {
          NestCons(b, CloseList(b.kind), rest.out);
        } else {
          assert step.out == rest.out;
        }
  }

  /** After any prefix of the input, the emitted fragments are in place and
      lead to the block the run has open. */
  lemma {:induction false} RunNests(lines: seq<string>, inline: string -> string)
    ensures Nest(NoBlock, Run(lines, inline).out) == Some(Run(lines, inline).block)
    decreases |lines|
  {
    if |lines| > 0 {
      var prev := Run(lines[..|lines| - 1], inline);
      RunNests(lines[..|lines| - 1], inline);
      LineStepNests(prev.block, lines[|lines| - 1], inline);
      NestAppend(NoBlock, prev.out, LineStep(prev.block, lines[|lines| - 1], inline).out);
    }
  }

  /** The whole output is well nested and closes everything it opens. */
  lemma ConvertWellNested(lines: seq<string>, inline: string -> string)
    ensures Nest(NoBlock, Convert(lines, inline)) == Some(NoBlock)
  {
    var r := Run(lines, inline);
    RunNests(lines, inline);
    NestAppend(NoBlock, r.out, Closing(r.block));
    if r.block != NoBlock {
      assert Closing(r.block)[1..] == [];
    }
  }

  function Count(fs: seq<Fragment>, f: Fragment): nat
  {
    multiset(fs)[f]
  }

  function Depth(b: Block, f: Fragment): nat
  {
    if (f == OpenParagraph && b == Paragraph) || (f.OpenList? && b == List(f.kind)) then 1 else 0
  }

  /** Along well-nested fragments, opens minus closes is the change in open
      blocks, for paragraphs and for lists of each kind. */
  lemma {:induction false} NestCounts(b: Block, fs: seq<Fragment>, k: ListKind)
    requires Nest(b, fs).Some?
    ensures Count(fs, OpenParagraph) + Depth(b, OpenParagraph)
            == Count(fs, CloseParagraph) + Depth(Nest(b, fs).value, OpenParagraph)
    ensures Count(fs, OpenList(k)) + Depth(b, OpenList(k))
            == Count(fs, CloseList(k)) + Depth(Nest(b, fs).value, OpenList(k))
    decreases |fs|
  {
    if |fs| > 0 {
      assert fs == [fs[0]] + fs[1..];
      assert multiset(fs) == multiset([fs[0]]) + multiset(fs[1..]);
      NestCounts(NestStep(b, fs[0]).value, fs[1..], k);
    }
  }

  /** `<p>` and `</p>` are equally many, and so are `<ul>` and `</ul>`, and
      `<ol>` and `</ol>`. */
  lemma ConvertBalanced(lines: seq<string>, inline: string -> string, k: ListKind)
    ensures Count(Convert(lines, inline), OpenParagraph) == Count(Convert(lines, inline), CloseParagraph)
    ensures Count(Convert(lines, inline), OpenList(k)) == Count(Convert(lines, inline), CloseList(k))
  {
    ConvertWellNested(lines, inline);
    NestCounts(NoBlock, Convert(lines, inline), k);
  }
}
