/** Laws of the inline transformer: how one `re.sub` scan behaves on
    concatenations, matched spans and unmatched delimiters, and what the
    whole four-step pipeline makes of the typical inputs. */
module InlineLaws {
  import opened PyText
  import opened InlineMarkup

  /** A character that could start or end one of the four patterns. */
  predicate IsDelimiterChar(c: char)
  {
    c == '*' || c == '_' || c == '[' || c == ']' || c == '(' || c == ')'
  }

  /** Text free of delimiter characters and newlines. */
  predicate PlainText(x: string)
  {
    forall k :: 0 <= k < |x| ==> !IsDelimiterChar(x[k]) && x[k] != '\n'
  }

  /** What `hexdigest()` returns: 32 lowercase hexadecimal digits. */
  predicate IsHexDigest(h: string)
  {
    |h| == 32 && forall k :: 0 <= k < |h| ==> ('0' <= h[k] <= '9' || 'a' <= h[k] <= 'f')
  }

  /** The interior `x` runs up to the nearest closer: it is long enough,
      has no newline, and no closer starts inside it (nor straddles its
      end). */
  predicate NearestCloser(p: Pattern, x: string)
  {
    |x| >= p.minInterior && NewlineFree(x, 0, |x|)
    && forall k :: p.minInterior <= k < |x| ==> !ClosesAt(x + [p.close, p.close], p, k)
  }

  function Opener(p: Pattern): string
  {
    [p.open, p.open]
  }

  function Closer(p: Pattern): string
  {
    [p.close, p.close]
  }

  // ----- one scan -----

  /** Where the regex does not match at the front, the first character is
      kept and the scan moves on. */
  lemma SubstituteNoMatch(p: Pattern, f: string -> string, s: string)
    requires |s| > 0 && MatchAt(s, p, 0) == None
    ensures Substitute(p, f, s) == [s[0]] + Substitute(p, f, s[1..])
  {
  }

  /** `p.open !in a` with its first character removed. */
  lemma NoCharTail(a: string, c: char)
    requires |a| > 0 && c !in a
    ensures c !in a[1..] && a[0] != c
  {
    assert a[0] in a;
    forall k | 0 <= k < |a[1..]|
      ensures a[1..][k] != c
    {
      assert a[1..][k] == a[k + 1] && a[k + 1] in a;
    }
  }

  /** Text without the opener character is copied, and the scan resumes
      cleanly after it: the patterns have no lookbehind. */
  lemma {:induction false} SubstituteLiteralPrefix(p: Pattern, f: string -> string, a: string, b: string)
    requires p.open !in a
    ensures Substitute(p, f, a + b) == a + Substitute(p, f, b)
    decreases |a|
  {
    if |a| > 0 {
      var s := a + b;
      NoCharTail(a, p.open);
      assert s[0] == a[0] && s[1..] == a[1..] + b;
      assert !OpensAt(s, p, 0);
      SubstituteNoMatch(p, f, s);
      SubstituteLiteralPrefix(p, f, a[1..], b);
      assert a == [a[0]] + a[1..];
    } else {
      assert a + b == b;
    }
  }

  /** Text without the opener character is left unchanged. */
  lemma SubstituteNoOpenChar(p: Pattern, f: string -> string, s: string)
    requires p.open !in s
    ensures Substitute(p, f, s) == s
  {
    forall k | 0 <= k < |s|
      ensures !OpensAt(s, p, k)
    {
      assert s[k] in s;
    }
  }

  /** An opener followed by an interior that runs up to the nearest closer
      is replaced by `f` of that interior, and the scan resumes after the
      closer. */
  lemma SubstituteSpan(p: Pattern, f: string -> string, x: string, rest: string)
    requires NearestCloser(p, x)
    ensures Substitute(p, f, Opener(p) + x + Closer(p) + rest) == f(x) + Substitute(p, f, rest)
  {
    var head := Opener(p) + x + Closer(p);
    var s := head + rest;
    var j := |x| + 2;
    forall m | 2 + p.minInterior <= m < j
      ensures !ClosesAt(s, p, m)
    {
      assert s[m] == (x + Closer(p))[m - 2] && s[m + 1] == (x + Closer(p))[m - 1];
      assert !ClosesAt(x + [p.close, p.close], p, m - 2);
    }
    forall m | 2 <= m < j
      ensures s[m] != '\n'
    {
      assert s[m] == x[m - 2];
    }
    assert s[j] == p.close && s[j + 1] == p.close;
    assert LeastMatchAt(s, p, 0, j);
    MatchAtIsLeastMatch(s, p, 0, j);
    assert s[2..j] == x;
    assert s[j + 2..] == rest;
  }

  /** Four opener characters in a row with nothing else (`****`, `____`)
      are no match for a pattern that needs a non-empty interior. */
  lemma SubstituteFourDelimiters(p: Pattern, f: string -> string)
    requires p.open == p.close && p.minInterior == 1
    ensures Substitute(p, f, [p.open, p.open, p.open, p.open]) == [p.open, p.open, p.open, p.open]
  {
    var s := [p.open, p.open, p.open, p.open];
    assert Substitute(p, f, s[2..]) == s[2..] by {
      assert MatchAt(s[2..], p, 0) == None;
      assert Substitute(p, f, s[3..]) == s[3..];
    }
    assert MatchAt(s[1..], p, 0) == None;
    assert s[1..][1..] == s[2..];
    assert MatchAt(s, p, 0) == None;
  }

  /** An opener with no closer after it is kept as it is. */
  lemma SubstituteLoneOpener(p: Pattern, f: string -> string)
    ensures Substitute(p, f, Opener(p)) == Opener(p)
  {
    var s := Opener(p);
    assert ScanClose(s, p, 2, 2) == None;
    assert MatchAt(s, p, 0) == None;
    assert Substitute(p, f, s[1..]) == s[1..];
  }

  /** Every occurrence is rewritten, left to right: opener, `x`, closer,
      `y`, opener, `z`, closer becomes `f(x) + y + f(z)`. */
  lemma SubstituteTwoSpans(p: Pattern, f: string -> string, x: string, y: string, z: string)
    requires NearestCloser(p, x) && NearestCloser(p, z) && p.open !in y
    ensures Substitute(p, f, Opener(p) + x + Closer(p) + y + Opener(p) + z + Closer(p)) == f(x) + y + f(z)
  {
    var tail := Opener(p) + z + Closer(p);
    assert Opener(p) + x + Closer(p) + y + Opener(p) + z + Closer(p) == Opener(p) + x + Closer(p) + (y + tail);
    SubstituteSpan(p, f, x, y + tail);
    SubstituteLiteralPrefix(p, f, y, tail);
    SubstituteWhole(p, f, z);
  }

  /** A whole matched span is replaced by `f` of its interior. */
  lemma SubstituteWhole(p: Pattern, f: string -> string, x: string)
    requires NearestCloser(p, x)
    ensures Substitute(p, f, Opener(p) + x + Closer(p)) == f(x)
  {
    assert Opener(p) + x + Closer(p) == Opener(p) + x + Closer(p) + "";
    SubstituteSpan(p, f, x, "");
  }

  /** `**x**y**z**` becomes `<b>x</b>y<b>z</b>`. */
  lemma BoldTwoSpans(x: string, y: string, z: string)
    requires PlainText(x) && PlainText(y) && PlainText(z) && |x| >= 1 && |z| >= 1
    ensures Substitute(BoldPattern, BoldTag, "**" + x + "**" + y + "**" + z + "**")
            == "<b>" + x + "</b>" + y + "<b>" + z + "</b>"
  {
    var p := BoldPattern;
    PlainNearestCloser(p, x);
    PlainNearestCloser(p, z);
    PlainNoChar(y, '*');
    SubstituteTwoSpans(p, BoldTag, x, y, z);
    BoldTwoSpansShape(x, y, z);
  }

  lemma BoldTwoSpansShape(x: string, y: string, z: string)
    ensures Opener(BoldPattern) + x + Closer(BoldPattern) + y + Opener(BoldPattern) + z + Closer(BoldPattern)
            == "**" + x + "**" + y + "**" + z + "**"
    ensures BoldTag(x) + y + BoldTag(z) == "<b>" + x + "</b>" + y + "<b>" + z + "</b>"
  {
    assert Opener(BoldPattern) == "**" && Closer(BoldPattern) == "**";
  }

  /** An opener pairs with the NEAREST following closer, and an opener
      left without a closer stays: opener, `x`, closer, `y`, opener becomes
      `f(x) + y` followed by the opener. */
  lemma SubstituteUnpairedOpener(p: Pattern, f: string -> string, x: string, y: string)
    requires NearestCloser(p, x) && p.open !in y
    ensures Substitute(p, f, Opener(p) + x + Closer(p) + y + Opener(p)) == f(x) + y + Opener(p)
  {
    assert Opener(p) + x + Closer(p) + y + Opener(p) == Opener(p) + x + Closer(p) + (y + Opener(p));
    SubstituteSpan(p, f, x, y + Opener(p));
    SubstituteLiteralPrefix(p, f, y, Opener(p));
    SubstituteLoneOpener(p, f);
  }

  /** `**x**y**` becomes `<b>x</b>y**`. */
  lemma BoldNearestCloserWins(x: string, y: string)
    requires PlainText(x) && PlainText(y) && |x| >= 1
    ensures Substitute(BoldPattern, BoldTag, "**" + x + "**" + y + "**") == "<b>" + x + "</b>" + y + "**"
  {
    var p := BoldPattern;
    PlainNearestCloser(p, x);
    PlainNoChar(y, '*');
    SubstituteUnpairedOpener(p, BoldTag, x, y);
  }

  // ----- helpers about plain text -----

  lemma PlainNoChar(x: string, c: char)
    requires PlainText(x) && (IsDelimiterChar(c) || c == '\n')
    ensures c !in x
  {
  }

  lemma PlainNearestCloser(p: Pattern, x: string)
    requires PlainText(x) && |x| >= p.minInterior && IsDelimiterChar(p.close)
    ensures NearestCloser(p, x)
  {
    forall k | p.minInterior <= k < |x|
      ensures !ClosesAt(x + [p.close, p.close], p, k)
    {
      assert (x + [p.close, p.close])[k] == x[k];
    }
  }

  lemma PlainConcat(a: string, b: string)
    requires PlainText(a) && PlainText(b)
    ensures PlainText(a + b)
  {
    forall k | 0 <= k < |a + b|
      ensures !IsDelimiterChar((a + b)[k]) && (a + b)[k] != '\n'
    {
      if k >= |a| {
        assert (a + b)[k] == b[k - |a|];
      }
    }
  }

  /** Plain text wrapped in a tag of `<` , letters, `/` and `>` stays plain. */
  lemma PlainWrapped(x: string, t: string, u: string)
    requires PlainText(x) && '*' !in t + u && '_' !in t + u && '[' !in t + u && ']' !in t + u
    requires '(' !in t + u && ')' !in t + u && '\n' !in t + u
    ensures PlainText(t + x + u)
  {
    forall k | 0 <= k < |t|
      ensures !IsDelimiterChar(t[k]) && t[k] != '\n'
    {
      assert t[k] == (t + u)[k];
    }
    forall k | 0 <= k < |u|
      ensures !IsDelimiterChar(u[k]) && u[k] != '\n'
    {
      assert u[k] == (t + u)[|t| + k];
    }
    PlainConcat(t, x);
    PlainConcat(t + x, u);
  }

  /** The bold tags add no delimiter. */
  lemma BoldTagPlain(x: string)
    requires PlainText(x)
    ensures PlainText(BoldTag(x))
  {
    PlainWrapped(x, "<b>", "</b>");
  }

  /** The emphasis tags add no delimiter. */
  lemma EmphasisTagPlain(x: string)
    requires PlainText(x)
    ensures PlainText(EmphasisTag(x))
  {
    PlainWrapped(x, "<em>", "</em>");
  }

  lemma HexDigestHasNoParen(h: string)
    requires IsHexDigest(h)
    ensures '(' !in h
  {
  }

  // ----- the whole transformer -----

  /** `**x**` becomes `<b>x</b>`. */
  lemma ParseInlineBold(x: string, md5: string -> string)
    requires PlainText(x) && |x| >= 1
    ensures ParseInlineMarkup("**" + x + "**", md5) == "<b>" + x + "</b>"
  {
    var p := BoldPattern;
    PlainNearestCloser(p, x);
    SubstituteWhole(p, BoldTag, x);
    var b := BoldTag(x);
    BoldTagPlain(x);
    PlainNoChar(b, '_');
    PlainNoChar(b, '[');
    PlainNoChar(b, '(');
    SubstituteNoOpenChar(EmphasisPattern, EmphasisTag, b);
    SubstituteNoOpenChar(Md5Pattern, md5, b);
    SubstituteNoOpenChar(RemovePattern, Removed, b);
  }

  /** `__x__` becomes `<em>x</em>`. */
  lemma ParseInlineEmphasis(x: string, md5: string -> string)
    requires PlainText(x) && |x| >= 1
    ensures ParseInlineMarkup("__" + x + "__", md5) == "<em>" + x + "</em>"
  {
    var p := EmphasisPattern;
    var s := Opener(p) + x + Closer(p);
    PlainNoChar(x, '*');
    assert '*' !in s;
    SubstituteNoOpenChar(BoldPattern, BoldTag, s);
    PlainNearestCloser(p, x);
    SubstituteWhole(p, EmphasisTag, x);
    var e := EmphasisTag(x);
    EmphasisTagPlain(x);
    PlainNoChar(e, '[');
    PlainNoChar(e, '(');
    SubstituteNoOpenChar(Md5Pattern, md5, e);
    SubstituteNoOpenChar(RemovePattern, Removed, e);
  }

  /** `[[x]]` becomes the digest of `x`. */
  lemma ParseInlineHash(x: string, md5: string -> string)
    requires PlainText(x) && |x| >= 1 && IsHexDigest(md5(x))
    ensures ParseInlineMarkup("[[" + x + "]]", md5) == md5(x)
  {
    var p := Md5Pattern;
    var s := Opener(p) + x + Closer(p);
    PlainNoChar(x, '*');
    PlainNoChar(x, '_');
    assert '*' !in s && '_' !in s;
    SubstituteNoOpenChar(BoldPattern, BoldTag, s);
    SubstituteNoOpenChar(EmphasisPattern, EmphasisTag, s);
    PlainNearestCloser(p, x);
    SubstituteWhole(p, md5, x);
    HexDigestHasNoParen(md5(x));
    SubstituteNoOpenChar(RemovePattern, Removed, md5(x));
  }

  /** The digest is taken AFTER the bold step: `[[**x**]]` becomes the
      digest of `<b>x</b>`, not of `**x**`. */
  lemma ParseInlineHashSeesBold(x: string, md5: string -> string)
    requires PlainText(x) && |x| >= 1 && IsHexDigest(md5("<b>" + x + "</b>"))
    ensures ParseInlineMarkup("[[**" + x + "**]]", md5) == md5("<b>" + x + "</b>")
  {
    var bp := BoldPattern;
    var mp := Md5Pattern;
    var b := BoldTag(x);
    var bolded := Opener(bp) + x + Closer(bp);
    PlainNearestCloser(bp, x);
    assert "[[**" + x + "**]]" == Opener(mp) + (bolded + Closer(mp));
    SubstituteLiteralPrefix(bp, BoldTag, Opener(mp), bolded + Closer(mp));
    assert bolded + Closer(mp) == Opener(bp) + x + Closer(bp) + Closer(mp);
    SubstituteSpan(bp, BoldTag, x, Closer(mp));
    SubstituteNoOpenChar(bp, BoldTag, Closer(mp));
    assert Substitute(bp, BoldTag, "[[**" + x + "**]]") == Opener(mp) + b + Closer(mp);
    BoldTagPlain(x);
    PlainNoChar(b, '_');
    assert '_' !in Opener(mp) + b + Closer(mp);
    SubstituteNoOpenChar(EmphasisPattern, EmphasisTag, Opener(mp) + b + Closer(mp));
    PlainNearestCloser(mp, b);
    SubstituteWhole(mp, md5, b);
    HexDigestHasNoParen(md5(b));
    SubstituteNoOpenChar(RemovePattern, Removed, md5(b));
  }

  /** `((x))` is deleted, the empty `(())` included, and the text after it
      is kept. */
  lemma ParseInlineRemove(x: string, rest: string, md5: string -> string)
    requires PlainText(x) && PlainText(rest)
    ensures ParseInlineMarkup("((" + x + "))" + rest, md5) == rest
  {
    var p := RemovePattern;
    var s := Opener(p) + x + Closer(p) + rest;
    PlainNoChar(x, '*');
    PlainNoChar(x, '_');
    PlainNoChar(x, '[');
    PlainNoChar(rest, '*');
    PlainNoChar(rest, '_');
    PlainNoChar(rest, '[');
    PlainNoChar(rest, '(');
    assert '*' !in s && '_' !in s && '[' !in s;
    SubstituteNoOpenChar(BoldPattern, BoldTag, s);
    SubstituteNoOpenChar(EmphasisPattern, EmphasisTag, s);
    SubstituteNoOpenChar(Md5Pattern, md5, s);
    PlainNearestCloser(p, x);
    SubstituteSpan(p, Removed, x, rest);
    SubstituteNoOpenChar(p, Removed, rest);
  }

  /** `****` comes out unchanged. */
  lemma ParseInlineFourStars(md5: string -> string)
    ensures ParseInlineMarkup("****", md5) == "****"
  {
    SubstituteFourDelimiters(BoldPattern, BoldTag);
    SubstituteNoOpenChar(EmphasisPattern, EmphasisTag, "****");
    SubstituteNoOpenChar(Md5Pattern, md5, "****");
    SubstituteNoOpenChar(RemovePattern, Removed, "****");
  }

  /** `____` comes out unchanged. */
  lemma ParseInlineFourUnderscores(md5: string -> string)
    ensures ParseInlineMarkup("____", md5) == "____"
  {
    SubstituteNoOpenChar(BoldPattern, BoldTag, "____");
    SubstituteFourDelimiters(EmphasisPattern, EmphasisTag);
    SubstituteNoOpenChar(Md5Pattern, md5, "____");
    SubstituteNoOpenChar(RemovePattern, Removed, "____");
  }

  /** Text without any of the four openers is a fixed point, so the
      transformer applied twice to it changes nothing. */
  lemma ParseInlineTwiceOnMarkupFree(text: string, md5: string -> string)
    requires MarkupFree(text)
    ensures ParseInlineMarkup(ParseInlineMarkup(text, md5), md5) == text
  {
  }
}
