// Query expansion with a synonym file (src/InfoRetrieval/Search/SynonymExpander.java):
// each non-comment line of the file lists comma-separated equivalent terms;
// every term is mapped (lower-cased) to the other terms of its line, a later
// line replacing an earlier entry; a query expands to itself followed by
// every variant with one whitespace-separated term replaced by a synonym,
// without repeats and in order of first appearance. The file's lines are an
// input (reading the file is I/O).
module Synonyms {
  import opened Wrappers
  import opened Strings

  // ---------------------------------------------------------------------
  // Java's `trim` and `split`

  /** Characters `String.trim` removes: every one up to U+0020. */
  predicate Trimmable(c: char)
  {
    c as int <= 0x20
  }

  function TrimStart(s: string): (r: string)
    ensures |r| <= |s| && r == s[|s| - |r|..]
    ensures r == [] || !Trimmable(r[0])
    ensures forall i :: 0 <= i < |s| - |r| ==> Trimmable(s[i])
  {
    if |s| > 0 && Trimmable(s[0]) then TrimStart(s[1..]) else s
  }

  function TrimEnd(s: string): (r: string)
    ensures r <= s
    ensures r == [] || !Trimmable(r[|r| - 1])
    ensures forall i :: |r| <= i < |s| ==> Trimmable(s[i])
  {
    if |s| > 0 && Trimmable(s[|s| - 1]) then TrimEnd(s[..|s| - 1]) else s
  }

  /** `String.trim`: the middle of `s` between its runs of control characters and spaces. */
  function JavaTrim(s: string): (r: string)
    ensures r == [] || (!Trimmable(r[0]) && !Trimmable(r[|r| - 1]))
  {
    TrimEnd(TrimStart(s))
  }

  /** Trimming adds no character: a token without a comma trims to a term the file can hold, or to nothing. */
  lemma TrimmedTerm(t: string)
    requires ',' !in t
    ensures JavaTrim(t) == [] || GoodTerm(JavaTrim(t))
  {
  }

  /** Trimming twice trims no more than once. */
  lemma TrimIdempotent(s: string)
    ensures JavaTrim(JavaTrim(s)) == JavaTrim(s)
  {
    var r := JavaTrim(s);
    if r != [] {
      assert TrimStart(r) == r;
      assert TrimEnd(r) == r;
    }
  }

  /** The pieces of `s` between occurrences of `c`, empty ones included (`split` before trailing empties go). */
  function SplitOn(s: string, c: char): (r: seq<string>)
    ensures |r| >= 1
    ensures forall p | p in r :: c !in p
    decreases |s|
  {
    match IndexOf(s, c)
    case None => [s]
    case Some(i) => [s[..i]] + SplitOn(s[i + 1..], c)
  }

  /** Joining the pieces with the separator gives the string back. */
  lemma {:induction false} SplitOnJoin(s: string, c: char)
    ensures Join([c], SplitOn(s, c)) == s
    decreases |s|
  {
    match IndexOf(s, c)
    case None =>
    case Some(i) =>
      SplitOnJoin(s[i + 1..], c);
      JoinCons([c], s[..i], SplitOn(s[i + 1..], c));
      assert s == s[..i] + [c] + s[i + 1..];
  }

  /** Java's `\s`: space, tab, line feed, vertical tab, form feed, carriage return. */
  predicate IsJavaSpace(c: char)
  {
    c == ' ' || c == '\t' || c == '\n' || c == '\U{0B}' || c == '\U{0C}' || c == '\r'
  }

  /** The first whitespace at or after `from`, or `|s|`. */
  function NextSpace(s: string, from: nat): (r: nat)
    requires from <= |s|
    ensures from <= r <= |s| && (r < |s| ==> IsJavaSpace(s[r]))
    ensures forall k :: from <= k < r ==> !IsJavaSpace(s[k])
    decreases |s| - from
  {
    if from == |s| || IsJavaSpace(s[from]) then from else NextSpace(s, from + 1)
  }

  /** The end of the whitespace run starting at `from`. */
  function RunEnd(s: string, from: nat): (r: nat)
    requires from <= |s|
    ensures from <= r <= |s| && (r < |s| ==> !IsJavaSpace(s[r]))
    ensures forall k :: from <= k < r ==> IsJavaSpace(s[k])
    decreases |s| - from
  {
    if from == |s| || !IsJavaSpace(s[from]) then from else RunEnd(s, from + 1)
  }

  /** The pieces of `s` between maximal whitespace runs, a leading or trailing empty one included. */
  function Pieces(s: string): (r: seq<string>)
    ensures |r| >= 1
    decreases |s|
  {
    var i := NextSpace(s, 0);
    if i == |s| then [s] else [s[..i]] + Pieces(s[RunEnd(s, i)..])
  }

  function DropTrailingEmpty(ps: seq<string>): (r: seq<string>)
    ensures r <= ps && (r == [] || r[|r| - 1] != [])
    ensures forall k :: |r| <= k < |ps| ==> ps[k] == []
  {
    if |ps| > 0 && ps[|ps| - 1] == [] then DropTrailingEmpty(ps[..|ps| - 1]) else ps
  }

  /** `s.split("\\s+")`: a string without whitespace (the empty one included) is its own only piece; otherwise trailing empty pieces are dropped. */
  function SplitSpaces(s: string): seq<string>
  {
    if NextSpace(s, 0) == |s| then [s] else DropTrailingEmpty(Pieces(s))
  }

  /** Only the first piece can be empty: it is when `s` starts with whitespace. */
  lemma {:induction false} PiecesInnerNonEmpty(s: string)
    ensures forall k | 0 < k < |Pieces(s)| - 1 :: Pieces(s)[k] != []
    ensures Pieces(s)[0] == [] ==> s == [] || IsJavaSpace(s[0])
    decreases |s|
  {
    var i := NextSpace(s, 0);
    if i < |s| {
      var rest := s[RunEnd(s, i)..];
      PiecesInnerNonEmpty(rest);
      if |rest| > 0 {
        assert !IsJavaSpace(rest[0]);
      }
      assert Pieces(rest)[0] != [] || |Pieces(rest)| == 1;
    }
  }

  predicate NoSpace(p: string)
  {
    forall k | 0 <= k < |p| :: !IsJavaSpace(p[k])
  }

  /** No piece holds whitespace. */
  lemma {:induction false} PiecesNoSpace(s: string)
    ensures forall p | p in Pieces(s) :: NoSpace(p)
    decreases |s|
  {
    var i := NextSpace(s, 0);
    if i < |s| {
      PiecesNoSpace(s[RunEnd(s, i)..]);
    }
  }

  /** Every term of the split is non-empty except the first, which is empty exactly when the query starts with whitespace. */
  lemma SplitTerms(s: string)
    ensures forall k | 0 < k < |SplitSpaces(s)| :: SplitSpaces(s)[k] != []
    ensures |SplitSpaces(s)| > 0 && SplitSpaces(s)[0] == [] ==> s == [] || IsJavaSpace(s[0])
  {
    if NextSpace(s, 0) < |s| {
      PiecesInnerNonEmpty(s);
    }
  }

  /** No term of the split holds whitespace. */
  lemma SplitNoSpace(s: string)
    ensures forall p | p in SplitSpaces(s) :: NoSpace(p)
  {
    if NextSpace(s, 0) < |s| {
      PiecesNoSpace(s);
      assert forall p | p in SplitSpaces(s) :: p in Pieces(s);
    } else {
      assert SplitSpaces(s) == [s];
    }
  }

  /** Whitespace at `k` and right after it. */
  predicate SpacePair(s: string, k: nat)
    requires k + 1 < |s|
  {
    IsJavaSpace(s[k]) && IsJavaSpace(s[k + 1])
  }

  /** Plain spaces only, and never two whitespace characters in a row. */
  predicate SingleSpaced(s: string)
  {
    (forall k | 0 <= k < |s| :: IsJavaSpace(s[k]) ==> s[k] == ' ') &&
    (forall k: nat | k + 1 < |s| :: !SpacePair(s, k))
  }

  lemma SingleSpacedSuffix(s: string, j: nat)
    requires SingleSpaced(s) && j <= |s|
    ensures SingleSpaced(s[j..])
  {
    var rest := s[j..];
    forall k: nat | k + 1 < |rest|
      ensures !SpacePair(rest, k)
    {
      assert !SpacePair(s, j + k);
    }
  }

  /** In a single-spaced string the first whitespace is one space, and the pieces go on right after it. */
  lemma PiecesAfterSpace(s: string)
    requires SingleSpaced(s) && NextSpace(s, 0) < |s|
    ensures var i := NextSpace(s, 0);
            s[i] == ' ' && Pieces(s) == [s[..i]] + Pieces(s[i + 1..])
  {
    var i := NextSpace(s, 0);
    if i + 1 < |s| {
      assert !SpacePair(s, i);
    }
    assert RunEnd(s, i) == i + 1;
  }

  /** Joining the piece before a space to the pieces that rebuild what follows it rebuilds the whole. */
  lemma JoinAfterSpace(s: string, i: nat, ps: seq<string>)
    requires i < |s| && s[i] == ' ' && |ps| >= 1 && Join(" ", ps) == s[i + 1..]
    ensures Join(" ", [s[..i]] + ps) == s
  {
    JoinCons(" ", s[..i], ps);
    Around(s, i);
  }

  /** A string is what comes before its space at `i`, the space, and what comes after. */
  lemma Around(s: string, i: nat)
    requires i < |s| && s[i] == ' '
    ensures s[..i] + " " + s[i + 1..] == s
  {
    assert s == s[..i] + [s[i]] + s[i + 1..];
  }

  lemma {:induction false} PiecesJoin(s: string)
    requires SingleSpaced(s)
    ensures Join(" ", Pieces(s)) == s
    decreases |s|
  {
    var i := NextSpace(s, 0);
    if i < |s| {
      var rest := s[i + 1..];
      PiecesAfterSpace(s);
      SingleSpacedSuffix(s, i + 1);
      PiecesJoin(rest);
      JoinAfterSpace(s, i, Pieces(rest));
    }
  }

  /** Splitting a single-spaced query without leading or trailing whitespace and joining with spaces gives it back. */
  lemma SplitSpacesJoin(s: string)
    requires SingleSpaced(s) && (s == [] || (!IsJavaSpace(s[0]) && !IsJavaSpace(s[|s| - 1])))
    ensures Join(" ", SplitSpaces(s)) == s
  {
    if NextSpace(s, 0) < |s| {
      PiecesJoin(s);
      LastPieceNonEmpty(s);
    }
  }

  lemma {:induction false} LastPieceNonEmpty(s: string)
    requires s != [] && !IsJavaSpace(s[|s| - 1])
    ensures Pieces(s)[|Pieces(s)| - 1] != []
    decreases |s|
  {
    var i := NextSpace(s, 0);
    if i < |s| {
      LastPieceNonEmpty(s[RunEnd(s, i)..]);
    }
  }

  // ---------------------------------------------------------------------
  // Loading the synonym file

  /** The terms of a line: its comma-separated tokens, trimmed, empty ones dropped (the inner loop). */
  function Entries(tokens: seq<string>): seq<string>
    decreases |tokens|
  {
    if |tokens| == 0 then []
    else
      var t := JavaTrim(tokens[|tokens| - 1]);
      Entries(tokens[..|tokens| - 1]) + if t == [] then [] else [t]
  }

  /** Every term is non-empty and trimmed, and holds no comma when no token does. */
  lemma {:induction false} EntriesWellFormed(tokens: seq<string>)
    requires forall t | t in tokens :: ',' !in t
    ensures GoodTerms(Entries(tokens))
    decreases |tokens|
  {
    if |tokens| > 0 {
      var last := tokens[|tokens| - 1];
      var init := Entries(tokens[..|tokens| - 1]);
      var t := JavaTrim(last);
      assert last in tokens;
      TrimmedTerm(last);
      EntriesWellFormed(tokens[..|tokens| - 1]);
      var extra := if t == [] then [] else [t];
      assert Entries(tokens) == init + extra;
      assert forall e | e in init + extra :: e in init || e in extra;
    }
  }

  /** `List.remove(Object)`: the first element equal to `x` goes. */
  function RemoveFirst<T(==)>(xs: seq<T>, x: T): (r: seq<T>)
    ensures x in xs ==> |r| == |xs| - 1
    ensures x !in xs ==> r == xs
    ensures forall y | y in r :: y in xs
  {
    if |xs| == 0 then []
    else
      assert xs == [xs[0]] + xs[1..];
      if xs[0] == x then xs[1..] else [xs[0]] + RemoveFirst(xs[1..], x)
  }

  /** `remove` takes out exactly one copy of an element present. */
  lemma {:induction false} RemoveFirstCounts<T>(xs: seq<T>, x: T)
    requires x in xs
    ensures multiset(RemoveFirst(xs, x)) == multiset(xs) - multiset{x}
    decreases |xs|
  {
    assert xs == [xs[0]] + xs[1..];
    if xs[0] != x {
      RemoveFirstCounts(xs[1..], x);
    }
  }

  type SynonymMap = map<string, seq<string>>

  /** The first `k` terms of a line each mapped, lower-cased, to the line's terms less one copy of itself. */
  function PutTerms(m: SynonymMap, es: seq<string>, k: nat): SynonymMap
    requires k <= |es|
  {
    if k == 0 then m else PutTerms(m, es, k - 1)[LowerAscii(es[k - 1]) := RemoveFirst(es, es[k - 1])]
  }

  /** Blank lines and comment lines add nothing. */
  predicate Skipped(line: string)
  {
    var t := JavaTrim(line);
    t == [] || t[0] == '#'
  }

  function LineEntries(line: string): seq<string>
  {
    Entries(SplitOn(JavaTrim(line), ','))
  }

  /** One line of the file applied to the map. */
  function LineInto(m: SynonymMap, line: string): SynonymMap
  {
    if Skipped(line) then m else PutTerms(m, LineEntries(line), |LineEntries(line)|)
  }

  /** The map `loadSynonyms` builds from the file's lines. */
  function Load(lines: seq<string>): SynonymMap
  {
    if |lines| == 0 then map[] else LineInto(Load(lines[..|lines| - 1]), lines[|lines| - 1])
  }

  /** A term as the file can hold it: non-empty, nothing to trim at either end, without a comma. */
  predicate GoodTerm(s: string)
  {
    s != [] && !Trimmable(s[0]) && !Trimmable(s[|s| - 1]) && ',' !in s
  }

  /** A key: non-empty, without upper-case ASCII letters. */
  predicate GoodKey(key: string)
  {
    key != [] && forall i | 0 <= i < |key| :: !('A' <= key[i] <= 'Z')
  }

  predicate GoodTerms(v: seq<string>)
  {
    forall s | s in v :: GoodTerm(s)
  }

  /** Every key is a non-empty lower-cased term; every synonym a term the file can hold. */
  ghost predicate WellFormed(m: SynonymMap)
  {
    forall key | key in m :: GoodKey(key) && GoodTerms(m[key])
  }

  lemma GoodKeyOf(e: string)
    requires GoodTerm(e)
    ensures GoodKey(LowerAscii(e))
  {
  }

  lemma WellFormedPut(m: SynonymMap, key: string, v: seq<string>)
    requires WellFormed(m) && GoodKey(key) && GoodTerms(v)
    ensures WellFormed(m[key := v])
  {
  }

  lemma {:induction false} PutTermsWellFormed(m: SynonymMap, es: seq<string>, k: nat)
    requires k <= |es| && WellFormed(m) && GoodTerms(es)
    ensures WellFormed(PutTerms(m, es, k))
    decreases k
  {
    if k > 0 {
      PutTermsWellFormed(m, es, k - 1);
      var e := es[k - 1];
      assert e in es;
      GoodKeyOf(e);
      assert GoodTerms(RemoveFirst(es, e));
      WellFormedPut(PutTerms(m, es, k - 1), LowerAscii(e), RemoveFirst(es, e));
    }
  }

  lemma {:induction false} LoadWellFormed(lines: seq<string>)
    ensures WellFormed(Load(lines))
    decreases |lines|
  {
    if |lines| > 0 {
      var line := lines[|lines| - 1];
      LoadWellFormed(lines[..|lines| - 1]);
      if !Skipped(line) {
        EntriesWellFormed(SplitOn(JavaTrim(line), ','));
        PutTermsWellFormed(Load(lines[..|lines| - 1]), LineEntries(line), |LineEntries(line)|);
      }
    }
  }

  lemma {:induction false} PutTermsLast(m: SynonymMap, es: seq<string>, k: nat, i: nat)
    requires i < k <= |es|
    requires forall j | i < j < k :: LowerAscii(es[j]) != LowerAscii(es[i])
    ensures LowerAscii(es[i]) in PutTerms(m, es, k)
    ensures PutTerms(m, es, k)[LowerAscii(es[i])] == RemoveFirst(es, es[i])
    decreases k
  {
    if i < k - 1 {
      PutTermsLast(m, es, k - 1, i);
    }
  }

  lemma {:induction false} PutTermsOther(m: SynonymMap, es: seq<string>, k: nat, key: string)
    requires k <= |es|
    requires forall j | 0 <= j < k :: LowerAscii(es[j]) != key
    ensures key in PutTerms(m, es, k) <==> key in m
    ensures key in m ==> PutTerms(m, es, k)[key] == m[key]
    decreases k
  {
    if k > 0 {
      PutTermsOther(m, es, k - 1, key);
    }
  }

  /**
   * A line overrides: a term of it maps to its line's terms less one copy of
   * itself (taking the line's last term with that lower-case form).
   */
  lemma LoadLineOverrides(lines: seq<string>, line: string, i: nat)
    requires !Skipped(line) && i < |LineEntries(line)|
    requires forall j | i < j < |LineEntries(line)| :: LowerAscii(LineEntries(line)[j]) != LowerAscii(LineEntries(line)[i])
    ensures var es := LineEntries(line);
            LowerAscii(es[i]) in Load(lines + [line]) &&
            Load(lines + [line])[LowerAscii(es[i])] == RemoveFirst(es, es[i])
  {
    assert (lines + [line])[..|lines|] == lines;
    PutTermsLast(Load(lines), LineEntries(line), |LineEntries(line)|, i);
  }

  /** A key no term of the line lower-cases to keeps its entry, or its absence; a skipped line changes nothing. */
  lemma LoadLineKeeps(lines: seq<string>, line: string, key: string)
    requires Skipped(line) || forall e | e in LineEntries(line) :: LowerAscii(e) != key
    ensures key in Load(lines + [line]) <==> key in Load(lines)
    ensures key in Load(lines) ==> Load(lines + [line])[key] == Load(lines)[key]
  {
    assert (lines + [line])[..|lines|] == lines;
    if !Skipped(line) {
      var es := LineEntries(line);
      assert forall j | 0 <= j < |es| :: LowerAscii(es[j]) != key by {
        forall j | 0 <= j < |es| ensures LowerAscii(es[j]) != key {
          assert es[j] in es;
        }
      }
      PutTermsOther(Load(lines), es, |es|, key);
    }
  }

  /** `loadSynonyms`, after `readAllLines`. */
  method LoadSynonyms(lines: seq<string>) returns (m: SynonymMap)
    ensures m == Load(lines)
  {
    m := map[];
    var n := 0;
    while n < |lines|
      invariant 0 <= n <= |lines|
      invariant m == Load(lines[..n])
    {
      assert lines[..n + 1][..n] == lines[..n];
      var line := JavaTrim(lines[n]);
      if line != [] && line[0] != '#' {
        var tokens := SplitOn(line, ',');
        var entries := CollectEntries(tokens);
        m := PutLine(m, entries);
      }
      n := n + 1;
    }
    assert lines[..n] == lines;
  }

  /** The loop over a line's terms. */
  method PutLine(m0: SynonymMap, entries: seq<string>) returns (m: SynonymMap)
    ensures m == PutTerms(m0, entries, |entries|)
  {
    m := m0;
    var k := 0;
    while k < |entries|
      invariant 0 <= k <= |entries|
      invariant m == PutTerms(m0, entries, k)
    {
      var syns := RemoveFirst(entries, entries[k]);
      m := m[LowerAscii(entries[k]) := syns];
      k := k + 1;
    }
  }

  /** The loop over a line's tokens. */
  method CollectEntries(tokens: seq<string>) returns (entries: seq<string>)
    ensures entries == Entries(tokens)
  {
    entries := [];
    var k := 0;
    while k < |tokens|
      invariant 0 <= k <= |tokens|
      invariant entries == Entries(tokens[..k])
    {
      assert tokens[..k + 1][..k] == tokens[..k];
      var term := JavaTrim(tokens[k]);
      if term != [] {
        entries := entries + [term];
      }
      k := k + 1;
    }
    assert tokens[..k] == tokens;
  }

  // ---------------------------------------------------------------------
  // Expanding a query

  /** The query with its `i`-th term replaced by `syn`, the terms joined by single spaces. */
  function Variant(terms: seq<string>, i: nat, syn: string): string
    requires i < |terms|
  {
    Join(" ", terms[i := syn])
  }

  /** The variants the `i`-th term yields with `syns`, one per synonym, in list order. */
  function VariantsOf(terms: seq<string>, i: nat, syns: seq<string>): (r: seq<string>)
    requires i < |terms|
    ensures |r| == |syns|
  {
    if |syns| == 0 then [] else VariantsOf(terms, i, syns[..|syns| - 1]) + [Variant(terms, i, syns[|syns| - 1])]
  }

  /** The variants the `i`-th term contributes: none unless its lower-cased form has synonyms. */
  function VariantsAt(terms: seq<string>, i: nat, m: SynonymMap): seq<string>
    requires i < |terms|
  {
    var key := LowerAscii(terms[i]);
    if key in m then VariantsOf(terms, i, m[key]) else []
  }

  /** The variants of the first `n` terms, in the order the loops produce them. */
  function Candidates(terms: seq<string>, m: SynonymMap, n: nat): seq<string>
    requires n <= |terms|
  {
    if n == 0 then [] else Candidates(terms, m, n - 1) + VariantsAt(terms, n - 1, m)
  }

  /** How many synonyms the first `n` terms have between them. */
  function SynonymCount(terms: seq<string>, m: SynonymMap, n: nat): nat
    requires n <= |terms|
  {
    if n == 0 then 0
    else SynonymCount(terms, m, n - 1) + if LowerAscii(terms[n - 1]) in m then |m[LowerAscii(terms[n - 1])]| else 0
  }

  lemma {:induction false} CandidatesLength(terms: seq<string>, m: SynonymMap, n: nat)
    requires n <= |terms|
    ensures |Candidates(terms, m, n)| == SynonymCount(terms, m, n)
    decreases n
  {
    if n > 0 {
      CandidatesLength(terms, m, n - 1);
    }
  }

  /** What `expandQuery` returns. */
  function Expansion(query: string, m: SynonymMap): seq<string>
  {
    var terms := SplitSpaces(query);
    Dedup([query] + Candidates(terms, m, |terms|))
  }

  /** `x` is the query's terms with the `i`-th replaced by one of its synonyms. */
  predicate IsVariant(terms: seq<string>, i: nat, m: SynonymMap, x: string)
    requires i < |terms|
  {
    LowerAscii(terms[i]) in m && exists s | s in m[LowerAscii(terms[i])] :: x == Variant(terms, i, s)
  }

  /** Each variant comes from some synonym. */
  lemma {:induction false} VariantSource(terms: seq<string>, i: nat, syns: seq<string>, x: string) returns (syn: string)
    requires i < |terms| && x in VariantsOf(terms, i, syns)
    ensures syn in syns && x == Variant(terms, i, syn)
    decreases |syns|
  {
    var init := syns[..|syns| - 1];
    assert VariantsOf(terms, i, syns) == VariantsOf(terms, i, init) + [Variant(terms, i, syns[|syns| - 1])];
    if x == Variant(terms, i, syns[|syns| - 1]) {
      syn := syns[|syns| - 1];
    } else {
      syn := VariantSource(terms, i, init, x);
      assert init <= syns;
    }
  }

  /** Each synonym yields its variant. */
  lemma {:induction false} VariantOf(terms: seq<string>, i: nat, syns: seq<string>, syn: string)
    requires i < |terms| && syn in syns
    ensures Variant(terms, i, syn) in VariantsOf(terms, i, syns)
    decreases |syns|
  {
    var init := syns[..|syns| - 1];
    assert syns == init + [syns[|syns| - 1]];
    if syn != syns[|syns| - 1] {
      VariantOf(terms, i, init, syn);
    }
  }

  /** Every candidate replaces some term by one of its synonyms. */
  lemma {:induction false} CandidateSource(terms: seq<string>, m: SynonymMap, n: nat, x: string) returns (i: nat)
    requires n <= |terms| && x in Candidates(terms, m, n)
    ensures i < n && IsVariant(terms, i, m, x)
    decreases n
  {
    var before := Candidates(terms, m, n - 1);
    var v := VariantsAt(terms, n - 1, m);
    assert Candidates(terms, m, n) == before + v;
    if x in v {
      var syn := VariantSource(terms, n - 1, m[LowerAscii(terms[n - 1])], x);
      i := n - 1;
    } else {
      i := CandidateSource(terms, m, n - 1, x);
    }
  }

  /** Every replacement of a term by one of its synonyms is a candidate. */
  lemma {:induction false} CandidateOf(terms: seq<string>, m: SynonymMap, n: nat, i: nat, syn: string)
    requires i < n <= |terms| && LowerAscii(terms[i]) in m && syn in m[LowerAscii(terms[i])]
    ensures Variant(terms, i, syn) in Candidates(terms, m, n)
    decreases n
  {
    var before := Candidates(terms, m, n - 1);
    var v := VariantsAt(terms, n - 1, m);
    assert Candidates(terms, m, n) == before + v;
    if i == n - 1 {
      VariantOf(terms, i, m[LowerAscii(terms[i])], syn);
    } else {
      CandidateOf(terms, m, n - 1, i, syn);
    }
  }

  /** A candidate is exactly some term replaced by one of its synonyms. */
  lemma CandidatesMembers(terms: seq<string>, m: SynonymMap, n: nat, x: string)
    requires n <= |terms|
    ensures x in Candidates(terms, m, n) <==> exists i | 0 <= i < n :: IsVariant(terms, i, m, x)
  {
    if x in Candidates(terms, m, n) {
      var i := CandidateSource(terms, m, n, x);
    }
    if exists i | 0 <= i < n :: IsVariant(terms, i, m, x) {
      var i :| 0 <= i < n && IsVariant(terms, i, m, x);
      var key := LowerAscii(terms[i]);
      var syn :| syn in m[key] && x == Variant(terms, i, syn);
      CandidateOf(terms, m, n, i, syn);
    }
  }

  lemma {:induction false} NoCandidates(terms: seq<string>, m: SynonymMap, n: nat)
    requires n <= |terms|
    requires forall t | t in terms :: LowerAscii(t) !in m
    ensures Candidates(terms, m, n) == []
    decreases n
  {
    if n > 0 {
      NoCandidates(terms, m, n - 1);
      assert terms[n - 1] in terms;
    }
  }

  /** A query none of whose terms has synonyms expands to itself alone. */
  lemma ExpansionWithoutSynonyms(query: string, m: SynonymMap)
    requires forall t | t in SplitSpaces(query) :: LowerAscii(t) !in m
    ensures Expansion(query, m) == [query]
  {
    var terms := SplitSpaces(query);
    NoCandidates(terms, m, |terms|);
    assert [query] + Candidates(terms, m, |terms|) == [query];
    assert [query][..0] == [];
    assert Dedup([query]) == AddNew(Dedup([]), query);
  }

  /**
   * The expansion starts with the query, repeats nothing, and holds exactly
   * the query and every variant with one term replaced by a synonym.
   */
  lemma ExpansionMembers(query: string, m: SynonymMap, x: string)
    ensures Expansion(query, m)[0] == query
    ensures |Expansion(query, m)| <= 1 + SynonymCount(SplitSpaces(query), m, |SplitSpaces(query)|)
    ensures forall a, b | 0 <= a < b < |Expansion(query, m)| :: Expansion(query, m)[a] != Expansion(query, m)[b]
    ensures x in Expansion(query, m) <==>
            x == query || exists i | 0 <= i < |SplitSpaces(query)| :: IsVariant(SplitSpaces(query), i, m, x)
  {
    var terms := SplitSpaces(query);
    DedupMembers([query] + Candidates(terms, m, |terms|));
    DedupDistinct([query] + Candidates(terms, m, |terms|));
    DedupFirst([query] + Candidates(terms, m, |terms|));
    CandidatesLength(terms, m, |terms|);
    CandidatesMembers(terms, m, |terms|, x);
  }

  lemma CandidatesStep(query: string, terms: seq<string>, m: SynonymMap, i: nat)
    requires i < |terms|
    ensures [query] + Candidates(terms, m, i + 1) == [query] + Candidates(terms, m, i) + VariantsAt(terms, i, m)
  {
  }

  lemma VariantsStep(before: seq<string>, terms: seq<string>, i: nat, syns: seq<string>, j: nat)
    requires i < |terms| && j < |syns|
    ensures Dedup(before + VariantsOf(terms, i, syns[..j + 1])) ==
            AddNew(Dedup(before + VariantsOf(terms, i, syns[..j])), Variant(terms, i, syns[j]))
  {
    var v := VariantsOf(terms, i, syns[..j]);
    assert syns[..j + 1][..j] == syns[..j];
    assert before + VariantsOf(terms, i, syns[..j + 1]) == (before + v) + [Variant(terms, i, syns[j])];
    assert ((before + v) + [Variant(terms, i, syns[j])])[..|before + v|] == before + v;
  }

  /** The synonym map built once from the file, and the expansion that reads it. */
  class SynonymExpander {
    const synonymsMap: SynonymMap

    constructor(lines: seq<string>)
      ensures synonymsMap == Load(lines)
    {
      var m := LoadSynonyms(lines);
      synonymsMap := m;
    }

    /** `expandQuery`: the query, then for each term each variant, into an insertion-ordered set. */
    method ExpandQuery(query: string) returns (expanded: seq<string>)
      ensures expanded == Expansion(query, synonymsMap)
    {
      var m := synonymsMap;
      expanded := [query];
      var terms := SplitSpaces(query);
      var i := 0;
      while i < |terms|
        invariant 0 <= i <= |terms|
        invariant expanded == Dedup([query] + Candidates(terms, m, i))
      {
        expanded := AddVariants(expanded, [query] + Candidates(terms, m, i), terms, i, m);
        CandidatesStep(query, terms, m, i);
        i := i + 1;
      }
    }
  }

  /** The inner loop: the variants of the `i`-th term added to the set. */
  method AddVariants(acc: seq<string>, ghost before: seq<string>, terms: seq<string>, i: nat, m: SynonymMap)
    returns (expanded: seq<string>)
    requires i < |terms| && acc == Dedup(before)
    ensures expanded == Dedup(before + VariantsAt(terms, i, m))
  {
    expanded := acc;
    var key := LowerAscii(terms[i]);
    if key !in m {
      assert before + VariantsAt(terms, i, m) == before;
      return;
    }
    var syns := m[key];
    var j := 0;
    assert before + VariantsOf(terms, i, syns[..0]) == before;
    while j < |syns|
      invariant 0 <= j <= |syns|
      invariant expanded == Dedup(before + VariantsOf(terms, i, syns[..j]))
    {
      var variant := Join(" ", terms[i := syns[j]]);
      VariantsStep(before, terms, i, syns, j);
      if variant !in expanded {
        expanded := expanded + [variant];
      }
      j := j + 1;
    }
    assert syns[..j] == syns;
  }
}
