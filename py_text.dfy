// Python's string whitespace handling and the tag extraction that the agent
// classes share: `str.isspace`, `str.strip()`, `str.split()` with and without
// a separator, slice-bound normalisation, and `_extract_tag` (defined
// identically in the QA agent base class, the report evaluator and the
// report generator).
module PyText {
  import opened Wrappers
  import opened Strings

  // ---------------------------------------------------------------------
  // Whitespace, strip and split()

  /** `str.isspace` for one character: the Unicode whitespace Python recognises. */
  predicate IsSpace(c: char)
  {
    c == ' ' || '\t' <= c <= '\r' || '\U{1C}' <= c <= '\U{1F}' || c == '\U{85}' || c == '\U{A0}' ||
    c == '\U{1680}' || '\U{2000}' <= c <= '\U{200A}' || c == '\U{2028}' || c == '\U{2029}' ||
    c == '\U{202F}' || c == '\U{205F}' || c == '\U{3000}'
  }

  /** No whitespace anywhere in `s`. */
  predicate Spaceless(s: string)
  {
    forall i | 0 <= i < |s| :: !IsSpace(s[i])
  }

  /** Whitespace only (the empty string included). */
  predicate Blank(s: string)
  {
    forall i | 0 <= i < |s| :: IsSpace(s[i])
  }

  function StripStart(s: string): (r: string)
    ensures |r| <= |s| && r == s[|s| - |r|..]
    ensures r == [] || !IsSpace(r[0])
    ensures Blank(s[..|s| - |r|])
    decreases |s|
  {
    if |s| > 0 && IsSpace(s[0]) then
      var r := StripStart(s[1..]);
      assert s[..|s| - |r|] == [s[0]] + s[1..][..|s| - 1 - |r|];
      r
    else s
  }

  function StripEnd(s: string): (r: string)
    ensures r <= s
    ensures r == [] || !IsSpace(r[|r| - 1])
    ensures Blank(s[|r|..])
    decreases |s|
  {
    if |s| > 0 && IsSpace(s[|s| - 1]) then
      var r := StripEnd(s[..|s| - 1]);
      assert s[|r|..] == s[..|s| - 1][|r|..] + [s[|s| - 1]];
      r
    else s
  }

  /** `str.strip()`: `s` without its leading and trailing whitespace. */
  function Strip(s: string): (r: string)
    ensures r == [] || (!IsSpace(r[0]) && !IsSpace(r[|r| - 1]))
  {
    StripEnd(StripStart(s))
  }

  /** The stripped text is a slice of `s` with only whitespace around it. */
  lemma StripSlice(s: string) returns (i: nat)
    ensures i + |Strip(s)| <= |s| && Strip(s) == s[i..i + |Strip(s)|]
    ensures Blank(s[..i]) && Blank(s[i + |Strip(s)|..])
  {
    var t := StripStart(s);
    var r := StripEnd(t);
    i := |s| - |t|;
    SuffixPrefix(s, i, r);
  }

  /** A prefix of a suffix is a slice, and what follows it is the rest of the whole. */
  lemma SuffixPrefix<T>(s: seq<T>, i: nat, r: seq<T>)
    requires i <= |s| && r <= s[i..]
    ensures i + |r| <= |s| && r == s[i..i + |r|] && s[i..][|r|..] == s[i + |r|..]
  {
  }

  /** Stripping is empty exactly for blank text. */
  lemma StripEmpty(s: string)
    ensures Strip(s) == [] <==> Blank(s)
  {
    var i := StripSlice(s);
    if Strip(s) == [] {
      assert s == s[..i] + s[i..];
      assert forall k | 0 <= k < |s| :: IsSpace(s[k]) by {
        forall k | 0 <= k < |s| ensures IsSpace(s[k]) {
          if k < i { assert s[k] == s[..i][k]; } else { assert s[k] == s[i..][k - i]; }
        }
      }
    } else {
      assert !IsSpace(s[i]);
    }
  }

  /** Text without whitespace at its ends strips to itself. */
  lemma StripUnchanged(s: string)
    requires s == [] || (!IsSpace(s[0]) && !IsSpace(s[|s| - 1]))
    ensures Strip(s) == s
  {
  }

  /** Stripping twice strips no more than once. */
  lemma StripIdempotent(s: string)
    ensures Strip(Strip(s)) == Strip(s)
  {
    var _ := StripSlice(s);
    StripUnchanged(Strip(s));
  }

  /** Length of the leading run of non-whitespace characters. */
  function WordEnd(s: string): (n: nat)
    ensures n <= |s| && Spaceless(s[..n]) && (n < |s| ==> IsSpace(s[n]))
    decreases |s|
  {
    if |s| == 0 || IsSpace(s[0]) then 0
    else
      var n := WordEnd(s[1..]);
      assert s[..n + 1] == [s[0]] + s[1..][..n];
      n + 1
  }

  /** `str.split()` with no separator: the maximal runs of non-whitespace characters. */
  function Words(s: string): (ws: seq<string>)
    decreases |s|
  {
    var t := StripStart(s);
    if t == [] then []
    else
      var n := WordEnd(t);
      [t[..n]] + Words(t[n..])
  }

  /** Every word is non-empty and holds no whitespace. */
  lemma {:induction false} WordsShape(s: string)
    ensures forall w | w in Words(s) :: w != [] && Spaceless(w)
    decreases |s|
  {
    var t := StripStart(s);
    if t != [] {
      var n := WordEnd(t);
      assert n > 0;
      assert Words(s) == [t[..n]] + Words(t[n..]);
      WordsShape(t[n..]);
    }
  }

  /** A text has at most as many words as characters. */
  lemma {:induction false} WordsBound(s: string)
    ensures |Words(s)| <= |s|
    decreases |s|
  {
    var t := StripStart(s);
    if t != [] {
      var n := WordEnd(t);
      assert n > 0;
      WordsBound(t[n..]);
    }
  }

  /** There are no words exactly when the text is blank. */
  lemma WordsNone(s: string)
    ensures Words(s) == [] <==> Blank(s)
  {
    var t := StripStart(s);
    if t == [] {
      assert s == s[..|s| - |t|];
    } else {
      assert !IsSpace(s[|s| - |t|]);
    }
  }

  /** Words of text that already is one word. */
  lemma OneWord(w: string)
    requires w != [] && Spaceless(w)
    ensures Words(w) == [w]
  {
    assert WordEnd(w) == |w|;
    assert w[..|w|] == w && w[|w|..] == [];
    assert Words([]) == [];
  }

  /** Leading whitespace does not change the words. */
  lemma {:induction false} WordsAfterBlank(b: string, s: string)
    requires Blank(b)
    ensures Words(b + s) == Words(s)
    decreases |b|
  {
    if |b| > 0 {
      var t := b + s;
      assert t[1..] == b[1..] + s;
      assert IsSpace(t[0]);
      assert StripStart(t) == StripStart(t[1..]);
      WordsAfterBlank(b[1..], s);
    } else {
      assert b + s == s;
    }
  }

  /** A word followed by whitespace starts the word list of the whole. */
  lemma {:induction false} WordsCons(w: string, c: char, s: string)
    requires w != [] && Spaceless(w) && IsSpace(c)
    ensures Words(w + [c] + s) == [w] + Words(s)
  {
    var t := w + [c] + s;
    assert StripStart(t) == t;
    assert t[|w|] == c;
    assert forall k | 0 <= k < |w| :: t[k] == w[k];
    assert WordEnd(t) == |w|;
    assert t[..|w|] == w;
    assert t[|w|..] == [c] + s;
    WordsAfterBlank([c], s);
  }

  // ---------------------------------------------------------------------
  // split(sep)

  /** `s.split(sep, 1)[0]`: the text before the first `sep`, or all of `s`. */
  function BeforeSub(s: string, sep: string): (r: string)
    ensures r <= s
    ensures Find(s, sep).None? ==> r == s
    ensures Find(s, sep).Some? ==> |r| == Find(s, sep).value
  {
    match Find(s, sep)
    case None => s
    case Some(i) => s[..i]
  }

  /** `s.split(sep, 1)[1]` when `sep` occurs: the text after the first `sep`. */
  function AfterSub(s: string, sep: string): (r: string)
    requires Contains(s, sep)
    ensures |r| <= |s|
  {
    FindContains(s, sep);
    s[Find(s, sep).value + |sep|..]
  }

  /** `s.split(sep)` for a non-empty separator: the pieces between non-overlapping occurrences, left to right. */
  function SplitSep(s: string, sep: string): (ps: seq<string>)
    requires sep != []
    ensures |ps| >= 1
    decreases |s|
  {
    match Find(s, sep)
    case None => [s]
    case Some(i) => [s[..i]] + SplitSep(s[i + |sep|..], sep)
  }

  /** Joining the pieces with the separator gives the text back. */
  lemma {:induction false} SplitSepJoin(s: string, sep: string)
    requires sep != []
    ensures Join(sep, SplitSep(s, sep)) == s
    decreases |s|
  {
    match Find(s, sep)
    case None =>
    case Some(i) =>
      var rest := s[i + |sep|..];
      SplitSepJoin(rest, sep);
      JoinCons(sep, s[..i], SplitSep(rest, sep));
      Reassemble(s, sep, i);
  }

  /** Text is what precedes an occurrence, the occurrence, and what follows it. */
  lemma Reassemble(s: string, sub: string, i: nat)
    requires OccursAt(s, sub, i)
    ensures s[..i] + sub + s[i + |sub|..] == s
  {
    assert s == s[..i] + s[i..i + |sub|] + s[i + |sub|..];
  }

  /** No piece holds the separator. */
  lemma {:induction false} SplitSepPieces(s: string, sep: string)
    requires sep != []
    ensures forall p | p in SplitSep(s, sep) :: !Contains(p, sep)
    decreases |s|
  {
    match Find(s, sep)
    case None =>
      NoOccurrence(s, sep);
    case Some(i) =>
      SplitSepPieces(s[i + |sep|..], sep);
      assert !Contains(s[..i], sep) by {
        if Contains(s[..i], sep) {
          var k :| 0 <= k <= i && OccursAt(s[..i], sep, k);
          assert s[k..k + |sep|] == s[..i][k..k + |sep|];
          assert OccursAt(s, sep, k);
        }
      }
  }

  lemma NoOccurrence(s: string, sep: string)
    requires Find(s, sep).None?
    ensures !Contains(s, sep)
  {
    FindContains(s, sep);
  }

  // ---------------------------------------------------------------------
  // Slices

  /** Where the slice `s[:n]` ends: a negative `n` counts from the end, and the bound is clamped to the string. */
  function SliceEnd(n: int, len: nat): (e: nat)
    ensures e <= len
    ensures 0 <= n <= len ==> e == n
    ensures n > len ==> e == len
    ensures n < 0 ==> e == if len + n < 0 then 0 else len + n
  {
    if n < 0 then (if len + n < 0 then 0 else len + n)
    else if n > len then len
    else n
  }

  /** `s[:n]`. */
  function Prefix<T>(s: seq<T>, n: int): (r: seq<T>)
    ensures r <= s && |r| == SliceEnd(n, |s|)
  {
    s[..SliceEnd(n, |s|)]
  }

  // ---------------------------------------------------------------------
  // _extract_tag

  function OpenTag(tag: string): string { "<" + tag + ">" }

  function CloseTag(tag: string): string { "</" + tag + ">" }

  /**
   * `_extract_tag(text, tag)`: None unless both `<tag>` and `</tag>` occur
   * in `text`; otherwise the stripped text after the first `<tag>` up to the
   * next `</tag>` (or to the end, when `</tag>` occurs only before it).
   */
  function ExtractTag(text: string, tag: string): (r: Option<string>)
    ensures r.None? <==> !Contains(text, OpenTag(tag)) || !Contains(text, CloseTag(tag))
    ensures r.Some? ==> r.value == [] || (!IsSpace(r.value[0]) && !IsSpace(r.value[|r.value| - 1]))
  {
    if Contains(text, OpenTag(tag)) && Contains(text, CloseTag(tag)) then
      var body := Strip(BeforeSub(AfterSub(text, OpenTag(tag)), CloseTag(tag)));
      Some(body)
    else None
  }

  /** `sub` cannot occur before the first position holding its first character. */
  lemma FirstAt(s: string, sub: string, k: nat)
    requires sub != [] && k + |sub| <= |s| && s[k..k + |sub|] == sub
    requires forall j | 0 <= j < k :: s[j] != sub[0]
    ensures Find(s, sub) == Some(k)
  {
    forall j | 0 <= j < k ensures !OccursAt(s, sub, j) {
      assert s[j] != sub[0];
    }
    FindIsFirst(s, sub, k);
  }

  /** Every `<` in `s` is followed, within `s`, by a character other than the tag's first. */
  predicate OpensOthers(s: string, tag: string)
    requires tag != []
  {
    forall j | 0 <= j < |s| && s[j] == '<' :: j + 1 < |s| && s[j + 1] != tag[0]
  }

  /** Text that does not open the tag, followed by more such text, does not open it either. */
  lemma OpensOthersAppend(a: string, b: string, tag: string)
    requires tag != [] && (OpensOthers(a, tag) || '<' !in a) && (OpensOthers(b, tag) || '<' !in b)
    ensures OpensOthers(a + b, tag)
  {
    forall j | 0 <= j < |a + b| && (a + b)[j] == '<'
      ensures j + 1 < |a + b| && (a + b)[j + 1] != tag[0]
    {
      if j < |a| {
        assert a[j] == '<';
      } else {
        assert b[j - |a|] == '<';
      }
    }
  }

  /**
   * A well-formed tagged answer gives back its body, stripped: the text
   * before the opening tag opens only other tags and the body holds no `<`,
   * so the first `<tag>` and the next `</tag>` are the ones around the body.
   */
  lemma ExtractTagOf(pre: string, tag: string, body: string, post: string)
    requires tag != [] && OpensOthers(pre, tag) && '<' !in body
    ensures ExtractTag(pre + OpenTag(tag) + body + CloseTag(tag) + post, tag) == Some(Strip(body))
  {
    var open, close := OpenTag(tag), CloseTag(tag);
    var text := pre + open + body + close + post;
    assert text[|pre|..|pre| + |open|] == open;
    forall j | 0 <= j < |pre|
      ensures !OccursAt(text, open, j)
    {
      if pre[j] == '<' {
        assert text[j + 1] == pre[j + 1] != open[1];
      } else {
        assert text[j] != open[0];
      }
    }
    FindIsFirst(text, open, |pre|);
    FindContains(text, open);
    var after := AfterSub(text, open);
    assert after == body + close + post;
    assert after[|body|..|body| + |close|] == close;
    FirstAt(after, close, |body|);
    FindContains(after, close);
    assert OccursAt(text, close, |pre| + |open| + |body|) by {
      assert text[|pre| + |open| + |body|..|pre| + |open| + |body| + |close|] == close;
    }
    assert Contains(text, close);
    assert BeforeSub(after, close) == body;
  }
}
