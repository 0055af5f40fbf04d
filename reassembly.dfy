// Reassembly of a document from its indexed segments, shared verbatim by the
// daemon's and the command-line `DocumentSelection`: exact segment lookup
// (`fetchSegment`) and full-document assembly (`fetchFull`), which builds the
// stem, seeks the ceiling term, scans the terms that start with the stem,
// sorts the segments by `start_char` and stitches them with a frontier so
// that overlapping character ranges are emitted once.
//
// The `id` field's term dictionary is a sequence of terms, each with the
// stored `raw` records of its postings in doc-id order.
module Reassembly {
  import opened Wrappers
  import opened Strings
  import opened LexOrder
  import opened Sorting
  import opened JavaExceptions

  /** The stored `raw` JSON of one segment; any of its fields may be absent. */
  datatype SegDoc = SegDoc(segment: Option<string>, startChar: Option<int>, endChar: Option<int>)

  /** A term of the `id` field and the segments posted under it. */
  datatype Term = Term(key: string, docs: seq<SegDoc>)

  /** `{id, segment}` as returned by `fetchSegment`. */
  datatype SegmentOut = SegmentOut(id: string, segment: string)

  /** `{id, fullText}` as returned by `fetchFull`. */
  datatype FullOut = FullOut(id: string, fullText: string)

  /** Lucene's term dictionary is in byte order. */
  predicate SortedTerms(terms: seq<Term>)
  {
    forall i, j :: 0 <= i < j < |terms| ==> LexLe(terms[i].key, terms[j].key)
  }

  /** `segment` as text, "" when absent. */
  function TextOf(d: SegDoc): string
  {
    if d.segment.Some? then d.segment.value else ""
  }

  /** `start_char`, 0 when absent. */
  function StartOf(d: SegDoc): int
  {
    if d.startChar.Some? then d.startChar.value else 0
  }

  /** `end_char`, the start plus the text length when absent. */
  function EndOf(d: SegDoc): int
  {
    if d.endChar.Some? then d.endChar.value else |TextOf(d)| + StartOf(d)
  }

  // ---------------------------------------------------------------- fetchSegment

  /** Index of the first term equal to `key`. */
  function FindTerm(terms: seq<Term>, key: string, from: nat): (r: Option<nat>)
    requires from <= |terms|
    ensures r.Some? ==> from <= r.value < |terms| && terms[r.value].key == key
    ensures r.Some? ==> forall j :: from <= j < r.value ==> terms[j].key != key
    ensures r.None? ==> forall j :: from <= j < |terms| ==> terms[j].key != key
    decreases |terms| - from
  {
    if from == |terms| then None
    else if terms[from].key == key then Some(from)
    else FindTerm(terms, key, from + 1)
  }

  /** `j` is the first term equal to `key`. */
  predicate FirstTerm(terms: seq<Term>, key: string, j: int)
  {
    0 <= j < |terms| && terms[j].key == key && forall i :: 0 <= i < j ==> terms[i].key != key
  }

  /**
   * The exact term query on `id`: the first posted segment of the term
   * `segId`, or "ID not found" when the term has no postings; the segment
   * text defaults to "".
   */
  function FetchSegment(segId: string, terms: seq<Term>): (r: Result<SegmentOut, JavaException>)
    ensures r.Ok? <==> exists j :: FirstTerm(terms, segId, j) && |terms[j].docs| > 0
    ensures r.Err? ==> r.error == IllegalArgument("ID not found: " + segId)
    ensures r.Ok? ==> (r.value.id == segId &&
                       exists j :: FirstTerm(terms, segId, j) && r.value.segment == TextOf(terms[j].docs[0]))
  {
    match FindTerm(terms, segId, 0)
    case None => Err(IllegalArgument("ID not found: " + segId))
    case Some(j) =>
      if |terms[j].docs| == 0 then Err(IllegalArgument("ID not found: " + segId))
      else Ok(SegmentOut(segId, TextOf(terms[j].docs[0])))
  }

  // ---------------------------------------------------------------- the stem and the scan

  /** The id through its first `#`, or the id followed by `#`. */
  function Stem(segId: string): (stem: string)
    ensures |stem| > 0 && stem[|stem| - 1] == '#' && '#' !in stem[..|stem| - 1]
    ensures stem[..|stem| - 1] == Before(segId, '#')
    ensures '#' in segId ==> stem <= segId
    ensures '#' !in segId ==> stem == segId + "#"
  {
    match IndexOf(segId, '#')
    case Some(i) =>
      assert segId[..i + 1][..i] == segId[..i];
      segId[..i + 1]
    case None => segId + "#"
  }

  /** Lucene's `seekCeil`: the first term not before `target`, or END. */
  function SeekCeil(terms: seq<Term>, target: string, from: nat): (r: Option<nat>)
    requires from <= |terms|
    ensures r.Some? ==> from <= r.value < |terms| && LexLe(target, terms[r.value].key)
    ensures r.Some? ==> forall j :: from <= j < r.value ==> !LexLe(target, terms[j].key)
    ensures r.None? ==> forall j :: from <= j < |terms| ==> !LexLe(target, terms[j].key)
    decreases |terms| - from
  {
    if from == |terms| then None
    else if LexLe(target, terms[from].key) then Some(from)
    else SeekCeil(terms, target, from + 1)
  }

  /** Where the prefix scan starting at `from` stops: the first term without the prefix, or the end. */
  function ScanEnd(terms: seq<Term>, stem: string, from: nat): (e: nat)
    requires from <= |terms|
    ensures from <= e <= |terms|
    ensures forall j :: from <= j < e ==> stem <= terms[j].key
    ensures e == |terms| || !(stem <= terms[e].key)
    decreases |terms| - from
  {
    if from == |terms| || !(stem <= terms[from].key) then from
    else ScanEnd(terms, stem, from + 1)
  }

  /** The segments posted under `ts`, term by term. */
  function Docs(ts: seq<Term>): seq<SegDoc>
    decreases |ts|
  {
    if |ts| == 0 then [] else Docs(ts[..|ts| - 1]) + ts[|ts| - 1].docs
  }

  /** The segments posted under every term that starts with `stem`, term by term. */
  function PrefixDocs(ts: seq<Term>, stem: string): seq<SegDoc>
    decreases |ts|
  {
    if |ts| == 0 then []
    else if stem <= ts[|ts| - 1].key then PrefixDocs(ts[..|ts| - 1], stem) + ts[|ts| - 1].docs
    else PrefixDocs(ts[..|ts| - 1], stem)
  }

  lemma {:induction false} PrefixDocsAppend(a: seq<Term>, b: seq<Term>, stem: string)
    ensures PrefixDocs(a + b, stem) == PrefixDocs(a, stem) + PrefixDocs(b, stem)
    decreases |b|
  {
    if |b| == 0 {
      assert a + b == a;
    } else {
      var n := |b| - 1;
      assert (a + b)[..|a + b| - 1] == a + b[..n];
      PrefixDocsAppend(a, b[..n], stem);
    }
  }

  lemma {:induction false} PrefixDocsNone(ts: seq<Term>, stem: string)
    requires forall j :: 0 <= j < |ts| ==> !(stem <= ts[j].key)
    ensures PrefixDocs(ts, stem) == []
    decreases |ts|
  {
    if |ts| > 0 { PrefixDocsNone(ts[..|ts| - 1], stem); }
  }

  lemma {:induction false} PrefixDocsAll(ts: seq<Term>, stem: string)
    requires forall j :: 0 <= j < |ts| ==> stem <= ts[j].key
    ensures PrefixDocs(ts, stem) == Docs(ts)
    decreases |ts|
  {
    if |ts| > 0 { PrefixDocsAll(ts[..|ts| - 1], stem); }
  }

  /**
   * On a sorted dictionary the scan from the ceiling collects the segments of
   * exactly the terms that start with the stem: the terms before the ceiling
   * come before the stem, and once one term lacks the prefix no later one has it.
   */
  lemma {:induction false} ScanCollectsPrefixTerms(terms: seq<Term>, stem: string)
    requires SortedTerms(terms)
    requires SeekCeil(terms, stem, 0).Some?
    ensures var c := SeekCeil(terms, stem, 0).value;
            Docs(terms[c..ScanEnd(terms, stem, c)]) == PrefixDocs(terms, stem)
  {
    var c := SeekCeil(terms, stem, 0).value;
    var e := ScanEnd(terms, stem, c);
    PrefixDocsSplit(terms, stem, c, e);
    BeforeCeiling(terms, stem, c);
    PrefixDocsAll(terms[c..e], stem);
    AfterScan(terms, stem, c, e);
  }

  lemma {:induction false} PrefixDocsSplit(terms: seq<Term>, stem: string, c: nat, e: nat)
    requires c <= e <= |terms|
    ensures PrefixDocs(terms, stem) == PrefixDocs(terms[..c], stem) + PrefixDocs(terms[c..e], stem) + PrefixDocs(terms[e..], stem)
  {
    var upTo, after := terms[..e], terms[e..];
    assert upTo + after == terms;
    assert upTo[..c] + upTo[c..] == upTo;
    assert upTo[..c] == terms[..c] && upTo[c..] == terms[c..e];
    PrefixDocsAppend(upTo, after, stem);
    PrefixDocsAppend(upTo[..c], upTo[c..], stem);
  }

  lemma {:induction false} BeforeCeiling(terms: seq<Term>, stem: string, c: nat)
    requires c <= |terms|
    requires forall j :: 0 <= j < c ==> !LexLe(stem, terms[j].key)
    ensures PrefixDocs(terms[..c], stem) == []
  {
    forall j | 0 <= j < c ensures !(stem <= terms[..c][j].key) {
      if stem <= terms[j].key { PrefixLexLe(stem, terms[j].key); }
    }
    PrefixDocsNone(terms[..c], stem);
  }

  lemma {:induction false} AfterScan(terms: seq<Term>, stem: string, c: nat, e: nat)
    requires SortedTerms(terms)
    requires c <= e <= |terms| && c < |terms| && LexLe(stem, terms[c].key)
    requires e == |terms| || !(stem <= terms[e].key)
    ensures PrefixDocs(terms[e..], stem) == []
  {
    if e < |terms| {
      if c < e { LexTransitive(stem, terms[c].key, terms[e].key); }
      NotPrefixAfter(stem, terms[e].key);
      forall j | 0 <= j < |terms| - e ensures !(stem <= terms[e..][j].key) {
        if j > 0 { assert LexLe(terms[e].key, terms[e + j].key); }
      }
    }
    PrefixDocsNone(terms[e..], stem);
  }

  // ---------------------------------------------------------------- sorting by start_char

  /** `Comparator.comparingInt(start_char, default 0)`. */
  predicate StartLe(a: SegDoc, b: SegDoc)
  {
    StartOf(a) <= StartOf(b)
  }

  lemma StartLePreorder()
    ensures TotalPreorder(StartLe)
  {
  }

  /** The segments of `s` with the same start as `y`, in their order in `s`. */
  function SameStart(s: seq<SegDoc>, y: SegDoc): seq<SegDoc>
  {
    Filter(s, z => Equiv(StartLe, z, y))
  }

  /**
   * `segs.sort(...)` is stable: the result is ordered by start, is a
   * permutation of the scanned segments, and segments with equal starts keep
   * their scan order.
   */
  lemma SortedByStart(segs: seq<SegDoc>)
    ensures Sorted(SortBy(segs, StartLe), StartLe)
    ensures multiset(SortBy(segs, StartLe)) == multiset(segs)
    ensures forall y :: SameStart(SortBy(segs, StartLe), y) == SameStart(segs, y)
  {
    StartLePreorder();
    SortBySorted(segs, StartLe);
    SortByPermutes(segs, StartLe);
    forall y ensures SameStart(SortBy(segs, StartLe), y) == SameStart(segs, y) {
      SortByStable(segs, y, StartLe);
    }
  }

  // ---------------------------------------------------------------- stitching

  /** A stretch of text appended to `fullText`, covering the global offsets [from, to). */
  datatype Piece = Piece(from: int, to: int, text: string)

  /** The frontier after the pieces emitted so far: the last piece's end, -1 before any. */
  function Frontier(ps: seq<Piece>): int
  {
    if |ps| == 0 then -1 else ps[|ps| - 1].to
  }

  /**
   * What one segment contributes at frontier `currentEnd`: nothing when it
   * ends at or before the frontier or when the overlap swallows its text,
   * else its text from the frontier on.
   */
  function Emit(currentEnd: int, d: SegDoc): Option<Piece>
  {
    var text := TextOf(d);
    var start := StartOf(d);
    if EndOf(d) <= currentEnd then None
    else
      var beginInSeg := Max(0, currentEnd - start);
      if beginInSeg < |text| then Some(Piece(start + beginInSeg, EndOf(d), text[beginInSeg..]))
      else None
  }

  /** The pieces emitted for `segs` taken in order. */
  function Pieces(segs: seq<SegDoc>): seq<Piece>
    decreases |segs|
  {
    if |segs| == 0 then []
    else
      var ps := Pieces(segs[..|segs| - 1]);
      match Emit(Frontier(ps), segs[|segs| - 1])
      case None => ps
      case Some(p) => ps + [p]
  }

  /** Each piece followed by one space. */
  function Render(ps: seq<Piece>): string
    decreases |ps|
  {
    if |ps| == 0 then "" else Render(ps[..|ps| - 1]) + ps[|ps| - 1].text + " "
  }

  /** `end_char` agrees with the text: absent, or the start plus the text length. */
  predicate Consistent(d: SegDoc)
  {
    EndOf(d) == StartOf(d) + |TextOf(d)|
  }

  /** Non-empty pieces, each as long as its range, over increasing disjoint ranges. */
  predicate Separated(ps: seq<Piece>)
  {
    (forall i :: 0 <= i < |ps| ==> ps[i].from < ps[i].to && |ps[i].text| == ps[i].to - ps[i].from) &&
    (forall i, j :: 0 <= i < j < |ps| ==> ps[i].to <= ps[j].from)
  }

  /**
   * When every segment's `end_char` agrees with its text, the emitted pieces
   * are non-empty, each is exactly as long as the range it covers, and they
   * cover strictly increasing, disjoint ranges: no global offset is emitted
   * twice, whatever the order of the segments.
   */
  lemma {:induction false} NoOffsetEmittedTwice(segs: seq<SegDoc>)
    requires forall k :: 0 <= k < |segs| ==> Consistent(segs[k])
    ensures Separated(Pieces(segs))
    decreases |segs|
  {
    if |segs| > 0 {
      var init := segs[..|segs| - 1];
      var d := segs[|segs| - 1];
      var ps := Pieces(init);
      NoOffsetEmittedTwice(init);
      var e := Emit(Frontier(ps), d);
      if e.Some? {
        var p := e.value;
        assert Consistent(d);
        assert p.from >= Frontier(ps);
        assert p.from < p.to && |p.text| == p.to - p.from;
        forall i | 0 <= i < |ps| ensures ps[i].to <= p.from {
          if i < |ps| - 1 { assert ps[i].to <= ps[|ps| - 1].from; }
        }
        assert Pieces(segs) == ps + [p];
      } else {
        assert Pieces(segs) == ps;
      }
    }
  }

  /** The frontier never moves back as segments are stitched. */
  lemma FrontierNeverDecreases(segs: seq<SegDoc>, d: SegDoc)
    ensures Frontier(Pieces(segs + [d])) >= Frontier(Pieces(segs))
  {
    assert (segs + [d])[..|segs|] == segs;
  }

  /**
   * A segment covering [0, 10) followed by one covering [5, 15) gives the
   * first text, a space, the second text from its sixth character, a space.
   */
  lemma OverlapExample(text1: string, text2: string)
    requires |text1| == 10 && |text2| == 10
    ensures Render(Pieces([SegDoc(Some(text1), Some(0), Some(10)), SegDoc(Some(text2), Some(5), Some(15))])) ==
            text1 + " " + text2[5..] + " "
  {
    var a := SegDoc(Some(text1), Some(0), Some(10));
    var b := SegDoc(Some(text2), Some(5), Some(15));
    var p1 := Piece(0, 10, text1);
    var p2 := Piece(10, 15, text2[5..]);
    assert text1[0..] == text1;
    assert Emit(-1, a) == Some(p1);
    assert Emit(10, b) == Some(p2);
    assert [a, b][..1] == [a];
    assert [a][..0] == [];
    assert Pieces([a]) == [p1];
    assert Pieces([a, b]) == [p1, p2];
    assert [p1, p2][..1] == [p1];
    assert [p1][..0] == [];
    assert Render([p1]) == text1 + " ";
  }

  lemma StitchStep(segs: seq<SegDoc>, i: nat)
    requires i < |segs|
    ensures var ps := Pieces(segs[..i]);
            Pieces(segs[..i + 1]) == match Emit(Frontier(ps), segs[i]) case None => ps case Some(p) => ps + [p]
  {
    assert segs[..i + 1][..i] == segs[..i];
  }

  lemma RenderAppend(ps: seq<Piece>, p: Piece)
    ensures Render(ps + [p]) == Render(ps) + p.text + " "
  {
    assert (ps + [p])[..|ps|] == ps;
  }

  /** One pass of the stitching loop: append the segment's text past the frontier, if any, and move the frontier. */
  method StitchOne(full: string, currentEnd: int, n: SegDoc) returns (full': string, end': int)
    ensures Emit(currentEnd, n).None? ==> full' == full && end' == currentEnd
    ensures Emit(currentEnd, n).Some? ==>
              full' == full + Emit(currentEnd, n).value.text + " " && end' == Emit(currentEnd, n).value.to
  {
    full', end' := full, currentEnd;
    var text := TextOf(n);
    var start := StartOf(n);
    var end := if n.endChar.Some? then n.endChar.value else |text| + start;
    if end <= currentEnd {
      return;
    }
    var beginInSeg := Max(0, currentEnd - start);
    if beginInSeg < |text| {
      full' := full + text[beginInSeg..] + " ";
      end' := end;
    }
  }

  /** The stitching loop of `fetchFull` over the sorted segments. */
  method StitchSegments(segs: seq<SegDoc>) returns (full: string)
    ensures full == Render(Pieces(segs))
  {
    full := "";
    var currentEnd := -1;
    for i := 0 to |segs|
      invariant full == Render(Pieces(segs[..i]))
      invariant currentEnd == Frontier(Pieces(segs[..i]))
    {
      ghost var ps := Pieces(segs[..i]);
      StitchStep(segs, i);
      ghost var e := currentEnd;
      full, currentEnd := StitchOne(full, currentEnd, segs[i]);
      match Emit(e, segs[i])
      case None =>
      case Some(p) => RenderAppend(ps, p);
    }
    assert segs[..|segs|] == segs;
  }

  /** The segments the scan collects from the ceiling term on. */
  function Scanned(terms: seq<Term>, stem: string, ceil: nat): seq<SegDoc>
    requires ceil <= |terms|
  {
    Docs(terms[ceil..ScanEnd(terms, stem, ceil)])
  }

  /** The prefix scan of `fetchFull`, from the ceiling term to the first term without the stem. */
  method ScanPrefix(terms: seq<Term>, stem: string, ceil: nat) returns (segs: seq<SegDoc>)
    requires ceil < |terms|
    ensures segs == Scanned(terms, stem, ceil)
  {
    segs := [];
    var i := ceil;
    while i < |terms|
      invariant ceil <= i <= |terms|
      invariant forall j :: ceil <= j < i ==> stem <= terms[j].key
      invariant segs == Docs(terms[ceil..i])
      invariant ScanEnd(terms, stem, i) == ScanEnd(terms, stem, ceil)
      decreases |terms| - i
    {
      if !(stem <= terms[i].key) {
        break;
      }
      assert terms[ceil..i + 1][..i - ceil] == terms[ceil..i];
      segs := segs + terms[i].docs;
      i := i + 1;
    }
  }

  /**
   * What `fetchFull` returns: "No segments found" exactly when the ceiling
   * seek runs off the end; otherwise the text stitched from the scanned
   * segments in stable `start_char` order.
   */
  function Assembled(segId: string, terms: seq<Term>): (r: Result<FullOut, JavaException>)
    ensures r.Err? <==> SeekCeil(terms, Stem(segId), 0).None?
    ensures r.Err? ==> r.error == IllegalArgument("No segments found for " + segId)
    ensures r.Ok? ==> r.value.id == segId
  {
    var stem := Stem(segId);
    match SeekCeil(terms, stem, 0)
    case None => Err(IllegalArgument("No segments found for " + segId))
    case Some(c) => Ok(FullOut(segId, Render(Pieces(SortBy(Scanned(terms, stem, c), StartLe)))))
  }

  /** `fetchFull`: the seek, the scan loop, the sort and the stitching loop. */
  method FetchFull(segId: string, terms: seq<Term>) returns (r: Result<FullOut, JavaException>)
    ensures r == Assembled(segId, terms)
  {
    var stem := Stem(segId);
    var ceil := SeekCeil(terms, stem, 0);
    if ceil.None? {
      return Err(IllegalArgument("No segments found for " + segId));
    }
    var segs := ScanPrefix(terms, stem, ceil.value);
    segs := SortBy(segs, StartLe);
    var full := StitchSegments(segs);
    return Ok(FullOut(segId, full));
  }

  /**
   * On a sorted dictionary the assembled text is the stitching of the
   * segments of exactly the terms that start with the stem.
   */
  lemma AssembledFromPrefixTerms(segId: string, terms: seq<Term>)
    requires SortedTerms(terms)
    requires SeekCeil(terms, Stem(segId), 0).Some?
    ensures Assembled(segId, terms) == Ok(FullOut(segId, Render(Pieces(SortBy(PrefixDocs(terms, Stem(segId)), StartLe)))))
  {
    ScanCollectsPrefixTerms(terms, Stem(segId));
  }

  /**
   * A ceiling term that lacks the stem prefix stops the scan at once: the
   * result is an empty `fullText`, not an error.
   */
  lemma CeilingWithoutPrefix(terms: seq<Term>, segId: string)
    requires SeekCeil(terms, Stem(segId), 0).Some?
    requires !(Stem(segId) <= terms[SeekCeil(terms, Stem(segId), 0).value].key)
    ensures Assembled(segId, terms) == Ok(FullOut(segId, ""))
  {
    var c := SeekCeil(terms, Stem(segId), 0).value;
    assert terms[c..c] == [];
  }
}
