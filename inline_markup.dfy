/** `parse_inline_markup` (markdown2html.py:98-111): four `re.sub` rewrites
    applied one after the other. Each of the four fixed patterns is
    hand-written as a scanner over the string; no general regex engine is
    modelled. The MD5 digest is a parameter `md5` of the transformer. */
module InlineMarkup {
  import opened PyText

  /** The regex `OO(.+?)CC` (or `OO(.*?)CC` when `minInterior` is 0): the
      opener is the character `open` twice, the closer the character
      `close` twice, and the interior, which `.` keeps free of newlines,
      has at least `minInterior` characters. */
  datatype Pattern = Pattern(open: char, close: char, minInterior: nat)

  const BoldPattern := Pattern('*', '*', 1)       // \*\*(.+?)\*\*
  const EmphasisPattern := Pattern('_', '_', 1)   // __(.+?)__
  const Md5Pattern := Pattern('[', ']', 1)        // \[\[(.+?)\]\]
  const RemovePattern := Pattern('(', ')', 0)     // \(\((.*?)\)\)

  predicate OpensAt(s: string, p: Pattern, i: int)
  {
    0 <= i && i + 2 <= |s| && s[i] == p.open && s[i + 1] == p.open
  }

  predicate ClosesAt(s: string, p: Pattern, j: int)
  {
    0 <= j && j + 2 <= |s| && s[j] == p.close && s[j + 1] == p.close
  }

  /** No newline in `s[lo..hi]`. */
  predicate NewlineFree(s: string, lo: int, hi: int)
  {
    0 <= lo <= hi <= |s| && forall m :: lo <= m < hi ==> s[m] != '\n'
  }

  /** The regex of `p`, tried at position `i` of `s`, matches `s[i..j+2]`
      with interior `s[i+2..j]`: the opener at `i`, then the NEAREST closer
      that leaves room for the shortest allowed interior, and no newline
      before it. This is what lazy `.+?` / `.*?` yields. */
  predicate LeastMatchAt(s: string, p: Pattern, i: int, j: int)
  {
    OpensAt(s, p, i) && i + 2 + p.minInterior <= j && ClosesAt(s, p, j)
    && NewlineFree(s, i + 2, j)
    && forall m :: i + 2 + p.minInterior <= m < j ==> !ClosesAt(s, p, m)
  }

  /** Scans for the closer of an interior that began at `start`, currently
      at `k`: the first closer at or after `start + minInterior`, giving up
      at a newline or at the end of the string. */
  function ScanClose(s: string, p: Pattern, start: nat, k: nat): (r: Option<nat>)
    requires start <= k
    ensures r.Some? ==> k <= r.value && start + p.minInterior <= r.value && ClosesAt(s, p, r.value)
    decreases |s| - k
  {
    if k + 2 > |s| then None
    else if start + p.minInterior <= k && ClosesAt(s, p, k) then Some(k)
    else if s[k] == '\n' then None
    else ScanClose(s, p, start, k + 1)
  }

  /** The closer the scan finds is the nearest one with no newline before
      it; when it finds none, every later closer has a newline before it. */
  lemma {:induction false} ScanCloseNearest(s: string, p: Pattern, start: nat, k: nat)
    requires start <= k
    ensures var r := ScanClose(s, p, start, k);
            (r.Some? ==>
               NewlineFree(s, k, r.value)
               && forall m :: k <= m < r.value && start + p.minInterior <= m ==> !ClosesAt(s, p, m))
            && (r.None? ==>
                  forall j :: k <= j && start + p.minInterior <= j && ClosesAt(s, p, j) ==> !NewlineFree(s, k, j))
    decreases |s| - k
  {
    if k + 2 <= |s| && !(start + p.minInterior <= k && ClosesAt(s, p, k)) && s[k] != '\n' {
      ScanCloseNearest(s, p, start, k + 1);
    }
  }

  /** One attempt of the regex at position `i`: `Some(j)` exactly when it
      matches there with interior `s[i+2..j]`. */
  function MatchAt(s: string, p: Pattern, i: nat): (r: Option<nat>)
    ensures r.Some? ==> OpensAt(s, p, i) && i + 2 + p.minInterior <= r.value && ClosesAt(s, p, r.value)
  {
    if OpensAt(s, p, i) then ScanClose(s, p, i + 2, i + 2) else None
  }

  /** The scan finds exactly the lazy regex match: `MatchAt` yields `j`
      if and only if the match at `i` has its closer at `j`. */
  lemma MatchAtIsLeastMatch(s: string, p: Pattern, i: nat, j: int)
    ensures MatchAt(s, p, i) == Some(j) <==> LeastMatchAt(s, p, i, j)
  {
    if OpensAt(s, p, i) {
      ScanCloseNearest(s, p, i + 2, i + 2);
    }
  }

  predicate NoOpener(s: string, p: Pattern)
  {
    forall k :: 0 <= k < |s| ==> !OpensAt(s, p, k)
  }

  /** `re.sub(pattern, f, s)`: where the regex matches at the front, the
      match is replaced by `f` of its interior and the scan resumes after
      the closer; elsewhere one character is kept and the scan moves on by
      one. Text with no opener comes back unchanged. */
  function Substitute(p: Pattern, f: string -> string, s: string): (r: string)
    ensures NoOpener(s, p) ==> r == s
    decreases |s|
  {
    if |s| == 0 then ""
    else match MatchAt(s, p, 0)
      case Some(j) => f(s[2..j]) + Substitute(p, f, s[j + 2..])
      case None =>
        assert NoOpener(s, p) ==> NoOpener(s[1..], p) by {
          if NoOpener(s, p) {
            forall k | 0 <= k < |s[1..]|
              ensures !OpensAt(s[1..], p, k)
            {
              assert !OpensAt(s, p, k + 1);
            }
          }
        }
        [s[0]] + Substitute(p, f, s[1..])
  }

  function BoldTag(x: string): string
  {
    "<b>" + x + "</b>"
  }

  function EmphasisTag(x: string): string
  {
    "<em>" + x + "</em>"
  }

  function Removed(x: string): string
  {
    ""
  }

  /** Text in which none of the four openers `**`, `__`, `[[`, `((` occurs. */
  predicate MarkupFree(s: string)
  {
    NoOpener(s, BoldPattern) && NoOpener(s, EmphasisPattern)
    && NoOpener(s, Md5Pattern) && NoOpener(s, RemovePattern)
  }

  /** parse_inline_markup: bold, then emphasis, then the MD5 substitution
      (which therefore hashes already rewritten text), then removal. */
  function ParseInlineMarkup(text: string, md5: string -> string): (r: string)
    ensures MarkupFree(text) ==> r == text
  {
    var bolded := Substitute(BoldPattern, BoldTag, text);
    var emphasised := Substitute(EmphasisPattern, EmphasisTag, bolded);
    var hashed := Substitute(Md5Pattern, md5, emphasised);
    Substitute(RemovePattern, Removed, hashed)
  }
}
