// A hit of one query as the InfoRetrieval searcher records it
// (src/InfoRetrieval/Search/RankedDocument.java).
module RankedDocuments {
  import opened Wrappers
  import opened Strings
  import RootFusion

  datatype RankedDocument = RankedDocument(
    url: string,
    segmentId: string,
    fullDocId: string,
    content: string,
    title: string,
    headings: string,
    highlightedContent: string,
    bm25Score: real,
    rank: int)

  /** The document id: the segment id up to, not including, its first '#'. */
  function ExtractFullDocId(segmentId: string): (r: string)
    ensures r <= segmentId && '#' !in r
    ensures '#' !in segmentId ==> r == segmentId
    ensures '#' in segmentId ==> |r| < |segmentId| && segmentId[|r|] == '#'
  {
    Before(segmentId, '#')
  }

  /** The constructor: every field is its argument, and `fullDocId` is derived from the segment id. */
  function NewRankedDocument(url: string, segmentId: string, content: string, title: string,
                             headings: string, highlightedContent: string, bm25Score: real,
                             rank: int): (d: RankedDocument)
    ensures d.url == url && d.segmentId == segmentId && d.content == content && d.title == title
    ensures d.headings == headings && d.highlightedContent == highlightedContent
    ensures d.bm25Score == bm25Score && d.rank == rank
    ensures d.fullDocId <= segmentId && '#' !in d.fullDocId
  {
    RankedDocument(url, segmentId, ExtractFullDocId(segmentId), content, title, headings,
                   highlightedContent, bm25Score, rank)
  }

  /**
   * Against the root id of the newer searcher: both cut at the first '#',
   * but a segment id starting with '#' gives the empty document id here and
   * is skipped there, and one without '#' is its own document id here and
   * skipped there.
   */
  lemma FullDocIdAgainstRootId(segmentId: string)
    ensures RootFusion.RootId(segmentId).Some? ==> RootFusion.RootId(segmentId).value == ExtractFullDocId(segmentId)
    ensures |segmentId| > 0 && segmentId[0] == '#' ==>
      ExtractFullDocId(segmentId) == "" && RootFusion.RootId(segmentId).None?
    ensures '#' !in segmentId ==>
      ExtractFullDocId(segmentId) == segmentId && RootFusion.RootId(segmentId).None?
  {
    if RootFusion.RootId(segmentId).Some? {
      var r, f := RootFusion.RootId(segmentId).value, ExtractFullDocId(segmentId);
      assert r + "#" <= segmentId;
      PrefixesBeforeHash(segmentId, r, f);
    }
    if |segmentId| > 0 && segmentId[0] == '#' {
      var f := ExtractFullDocId(segmentId);
      assert f == segmentId[..|f|] && segmentId[..1] == "#";
    }
  }

  // Two prefixes of `s`, each followed by or ending at '#' without containing
  // one, are the same.
  lemma PrefixesBeforeHash(s: string, r: string, f: string)
    requires r + "#" <= s && '#' !in r
    requires f <= s && '#' !in f && (|f| == |s| || s[|f|] == '#')
    ensures r == f
  {
    assert s[|r|] == '#';
    assert forall i :: 0 <= i < |r| ==> s[i] == r[i] != '#';
    assert forall i :: 0 <= i < |f| ==> s[i] == f[i] != '#';
    assert |r| == |f|;
    assert r == s[..|r|] && f == s[..|f|];
  }
}
