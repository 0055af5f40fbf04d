// The first InfoRetrieval searcher (src/InfoRetrieval/Search.java): up to
// twelve queries over the ClueWeb index, each hit highlighted, results fused
// by document id (or url) with reciprocal rank fusion and cut to 150. A
// failing query contributes nothing instead of aborting the batch. Lucene and
// its highlighter are parameters; Java nulls are `None`.
module LegacySearch {
  import opened Wrappers
  import opened Strings
  import opened Rrf
  import opened Ranking
  import opened Sorting
  import opened FusionSpec

  const TopNPerQuery: nat := 300
  const FinalTopN: nat := 150
  const MaxQueries: nat := 12
  const FragmentSize: nat := 150
  const MaxFragments: nat := 3
  const FragmentSeparator := " ... "

  /** The stored fields of one Lucene hit (each possibly null) and its BM25 score. */
  datatype StoredHit = StoredHit(url: Option<string>, id: Option<string>, content: Option<string>, score: real)

  datatype RankedDocument = RankedDocument(url: Option<string>, id: Option<string>, content: string,
                                           highlightedContent: string, bm25Score: real, rank: int)

  datatype QueryResult = QueryResult(queryId: string, documents: seq<RankedDocument>)

  /** The highlighter's best fragments for a content, or None when it throws. */
  type Highlighter = string -> Option<seq<string>>

  /** The truncation used when no fragment is found or the highlighter fails. */
  function Fallback(content: string): (r: string)
    ensures |content| > FragmentSize * MaxFragments ==> r == content[..450] + "..."
    ensures |content| <= FragmentSize * MaxFragments ==> r == content
    ensures |r| <= 453
  {
    if |content| > FragmentSize * MaxFragments then content[..FragmentSize * MaxFragments] + "..." else content
  }

  /** `getHighlightedFragment`: the fragments joined by " ... ", else the fallback. */
  function HighlightedFragment(highlighter: Highlighter, content: string): (r: string)
    ensures highlighter(content).Some? && |highlighter(content).value| > 0 ==>
      r == Join(FragmentSeparator, highlighter(content).value)
    ensures highlighter(content).None? || highlighter(content).value == [] ==> r == Fallback(content)
  {
    match highlighter(content)
    case Some(fragments) => if |fragments| > 0 then Join(FragmentSeparator, fragments) else Fallback(content)
    case None => Fallback(content)
  }

  /** `d` is the highlighted document of the hit at its 1-based rank. */
  ghost predicate FromHit(hits: seq<StoredHit>, highlighter: Highlighter, d: RankedDocument)
  {
    1 <= d.rank <= |hits| && hits[d.rank - 1].content == Some(d.content) &&
    d.url == hits[d.rank - 1].url && d.id == hits[d.rank - 1].id && d.bm25Score == hits[d.rank - 1].score &&
    d.highlightedContent == HighlightedFragment(highlighter, d.content)
  }

  /**
   * The documents of the first `n` hits: a hit without content is dropped, but
   * every kept hit has its 1-based position as rank, so ranks may have gaps.
   */
  function Kept(hits: seq<StoredHit>, highlighter: Highlighter, n: nat): (docs: seq<RankedDocument>)
    requires n <= |hits|
    ensures forall i :: 0 <= i < |docs| ==> 1 <= docs[i].rank <= n && FromHit(hits, highlighter, docs[i])
    decreases n
  {
    if n == 0 then []
    else
      var prev := Kept(hits, highlighter, n - 1);
      var h := hits[n - 1];
      if h.content.Some? then
        var d := RankedDocument(h.url, h.id, h.content.value, HighlightedFragment(highlighter, h.content.value), h.score, n);
        assert forall i :: 0 <= i < |prev| ==> (prev + [d])[i] == prev[i];
        prev + [d]
      else prev
  }

  /** One more hit only appends to the kept documents. */
  lemma KeptGrows(hits: seq<StoredHit>, highlighter: Highlighter, n: nat)
    requires 0 < n <= |hits|
    ensures |Kept(hits, highlighter, n - 1)| <= |Kept(hits, highlighter, n)|
    ensures Kept(hits, highlighter, n)[..|Kept(hits, highlighter, n - 1)|] == Kept(hits, highlighter, n - 1)
    ensures hits[n - 1].content.Some? ==> Kept(hits, highlighter, n)[|Kept(hits, highlighter, n - 1)|].rank == n
  {
  }

  /** The kept documents are in hit order: their ranks strictly increase. */
  lemma {:induction false} KeptIncreasing(hits: seq<StoredHit>, highlighter: Highlighter, n: nat)
    requires n <= |hits|
    ensures forall i, j :: 0 <= i < j < |Kept(hits, highlighter, n)| ==>
      Kept(hits, highlighter, n)[i].rank < Kept(hits, highlighter, n)[j].rank
    decreases n
  {
    if n > 0 {
      KeptIncreasing(hits, highlighter, n - 1);
      KeptGrows(hits, highlighter, n);
      var prev, docs := Kept(hits, highlighter, n - 1), Kept(hits, highlighter, n);
      forall i, j | 0 <= i < j < |docs|
        ensures docs[i].rank < docs[j].rank
      {
        assert docs[i] == docs[..|prev|][i];
        if j < |prev| {
          assert docs[j] == docs[..|prev|][j];
        }
      }
    }
  }

  /** Every hit with content is kept, under its own position. */
  lemma {:induction false} KeptComplete(hits: seq<StoredHit>, highlighter: Highlighter, n: nat, p: nat)
    returns (i: nat)
    requires n <= |hits| && p < n && hits[p].content.Some?
    ensures i < |Kept(hits, highlighter, n)| && Kept(hits, highlighter, n)[i].rank == p + 1
    decreases n
  {
    KeptGrows(hits, highlighter, n);
    if p < n - 1 {
      i := KeptComplete(hits, highlighter, n - 1, p);
      KeptKeeps(hits, highlighter, n, i);
    } else {
      i := |Kept(hits, highlighter, n - 1)|;
    }
  }

  /** A document kept from the first `n - 1` hits stays where it is among those of the first `n`. */
  lemma KeptKeeps(hits: seq<StoredHit>, highlighter: Highlighter, n: nat, i: nat)
    requires 0 < n <= |hits| && i < |Kept(hits, highlighter, n - 1)|
    ensures i < |Kept(hits, highlighter, n)| && Kept(hits, highlighter, n)[i] == Kept(hits, highlighter, n - 1)[i]
  {
    var prev, docs := Kept(hits, highlighter, n - 1), Kept(hits, highlighter, n);
    KeptGrows(hits, highlighter, n);
    assert docs[i] == docs[..|prev|][i];
  }

  /** `executeSearchWithHighlighting` after the Lucene search. */
  method ExecuteSearchWithHighlighting(hits: seq<StoredHit>, queryId: string, highlighter: Highlighter)
    returns (qr: QueryResult)
    ensures qr == QueryResult(queryId, Kept(hits, highlighter, |hits|))
  {
    var documents: seq<RankedDocument> := [];
    for i := 0 to |hits|
      invariant documents == Kept(hits, highlighter, i)
    {
      var sd := hits[i];
      if sd.content.Some? {
        var highlightedContent := HighlightedFragment(highlighter, sd.content.value);
        documents := documents + [RankedDocument(sd.url, sd.id, sd.content.value, highlightedContent, sd.score, i + 1)];
      }
    }
    qr := QueryResult(queryId, documents);
  }

  /** The fields a result takes from the hit that created it. */
  datatype Fields = Fields(url: Option<string>, id: Option<string>, content: string, highlightedContent: string)

  /** The fusion key: the id, or else the url; a hit with neither has none. */
  function Key(d: RankedDocument): (k: Option<string>)
    ensures k.Some? <==> d.id.Some? || d.url.Some?
    ensures d.id.Some? ==> k == d.id
  {
    if d.id.Some? then d.id else d.url
  }

  /** The hits of one query that have a key, as postings. */
  function DocPostings(qid: string, docs: seq<RankedDocument>): seq<Posting<Fields>>
    decreases |docs|
  {
    if |docs| == 0 then []
    else
      var d := docs[|docs| - 1];
      DocPostings(qid, docs[..|docs| - 1]) +
      (if Key(d).Some? then [PostingOf(qid, d)] else [])
  }

  function Postings(qrs: seq<QueryResult>): seq<Posting<Fields>>
    decreases |qrs|
  {
    if |qrs| == 0 then [] else Postings(qrs[..|qrs| - 1]) + DocPostings(qrs[|qrs| - 1].queryId, qrs[|qrs| - 1].documents)
  }

  /** The inner `SearchResult` class of the searcher. */
  class SearchResult {
    const url: Option<string>
    const id: Option<string>
    const content: string
    const highlightedContent: string
    var rrfScore: real
    var queryRanks: map<string, int>
    var queryScores: map<string, real>

    function View(): Fused<Fields>
      reads this
    {
      Fused(Fields(url, id, content, highlightedContent), queryRanks, queryScores)
    }

    constructor (url: Option<string>, id: Option<string>, content: string, highlightedContent: string,
                 queryId: string, rank: int, bm25Score: real)
      ensures View() == Fused(Fields(url, id, content, highlightedContent), map[queryId := rank], map[queryId := bm25Score])
      ensures rrfScore == 0.0
    {
      this.url := url;
      this.id := id;
      this.content := content;
      this.highlightedContent := highlightedContent;
      this.rrfScore := 0.0;
      this.queryRanks := map[queryId := rank];
      this.queryScores := map[queryId := bm25Score];
    }

    method AddQueryResult(queryId: string, rank: int, bm25Score: real)
      modifies this
      ensures queryRanks == old(queryRanks)[queryId := rank]
      ensures queryScores == old(queryScores)[queryId := bm25Score]
      ensures rrfScore == old(rrfScore)
    {
      queryRanks := queryRanks[queryId := rank];
      queryScores := queryScores[queryId := bm25Score];
    }

    /** Sets `rrfScore` to the sum of 1/(60 + r) over the stored ranks. */
    method CalculateRrfScore()
      requires RanksFit(queryRanks, K)
      modifies this
      ensures queryRanks == old(queryRanks) && queryScores == old(queryScores)
      ensures rrfScore == RankSum(queryRanks, K)
    {
      var sum := 0.0;
      var rest := queryRanks;
      while rest != map[]
        invariant queryRanks == old(queryRanks) && queryScores == old(queryScores)
        invariant forall q :: q in rest ==> q in queryRanks && rest[q] == queryRanks[q]
        invariant RanksFit(rest, K)
        invariant sum + RankSum(rest, K) == RankSum(queryRanks, K)
        decreases |rest|
      {
        var q :| q in rest;
        RankSumRemove(rest, K, q);
        sum := sum + 1.0 / (K + rest[q] as real);
        rest := rest - {q};
      }
      rrfScore := sum;
    }

    function GetQueryCount(): (n: nat)
      reads this
      ensures n == |View().queryRanks.Keys|
    {
      |queryRanks|
    }
  }

  ghost predicate Holds(m: map<string, SearchResult>, fused: map<string, Fused<Fields>>)
    reads set k | k in m :: m[k]
  {
    m.Keys == fused.Keys &&
    (forall k :: k in m ==> m[k].View() == fused[k]) &&
    (forall k1, k2 :: k1 in m && k2 in m && k1 != k2 ==> m[k1] != m[k2])
  }

  function PostingOf(qid: string, d: RankedDocument): Posting<Fields>
    requires Key(d).Some?
  {
    Posting(qid, Key(d).value, Fields(d.url, d.id, d.content, d.highlightedContent), d.rank, d.bm25Score)
  }

  lemma DocPostingsSingle(qid: string, d: RankedDocument)
    ensures DocPostings(qid, [d]) == if Key(d).Some? then [PostingOf(qid, d)] else []
  {
    assert [d][..0] == [];
  }

  /** The scored objects of the map are the score table of the fused results. */
  lemma ScoredTable(m: map<string, SearchResult>, fused: map<string, Fused<Fields>>)
    requires Holds(m, fused)
    requires forall k :: k in fused ==> Positive(fused[k].queryRanks)
    requires forall k :: k in m ==> RanksFit(fused[k].queryRanks, K) && m[k].rrfScore == RankSum(fused[k].queryRanks, K)
    ensures (map k | k in m :: Scored(k, m[k].rrfScore, m[k].View())) == ScoreTable(fused)
  {
    var table := map k | k in m :: Scored(k, m[k].rrfScore, m[k].View());
    var t := ScoreTable(fused);
    assert table.Keys == t.Keys;
    forall k | k in table ensures table[k] == t[k] {
      assert t[k].item == fused[k];
    }
  }

  /** The body of the inner fusion loop for one hit. */
  method FuseHit(m0: map<string, SearchResult>, qid: string, doc: RankedDocument, ghost before: seq<Posting<Fields>>)
    returns (m: map<string, SearchResult>)
    requires Holds(m0, Fuse(before))
    modifies set k | k in m0 :: m0[k]
    ensures Holds(m, Fuse(before + DocPostings(qid, [doc])))
    ensures forall k :: k in m ==> (k in m0 && m[k] == m0[k]) || fresh(m[k])
  {
    m := m0;
    DocPostingsSingle(qid, doc);
    var key := Key(doc);
    if key.Some? {
      ghost var p := PostingOf(qid, doc);
      assert Fuse(before + [p]) == AddPosting(Fuse(before), p) by {
        assert (before + [p])[..|before|] == before;
      }
      if key.value !in m {
        var newResult := new SearchResult(doc.url, doc.id, doc.content, doc.highlightedContent, qid, doc.rank, doc.bm25Score);
        m := m[key.value := newResult];
      } else {
        var existing := m[key.value];
        existing.AddQueryResult(qid, doc.rank, doc.bm25Score);
        assert forall k :: k in m && k != key.value ==> m[k] != existing;
      }
    } else {
      assert before + [] == before;
    }
  }

  lemma DocPostingsAppend(qid: string, docs: seq<RankedDocument>, d: RankedDocument)
    ensures DocPostings(qid, docs + [d]) == DocPostings(qid, docs) + DocPostings(qid, [d])
  {
    assert (docs + [d])[..|docs|] == docs;
    assert [d][..0] == [];
  }

  lemma DocPostingsStep(done: seq<Posting<Fields>>, qr: QueryResult, j: nat)
    requires j < |qr.documents|
    ensures done + DocPostings(qr.queryId, qr.documents[..j + 1]) ==
            (done + DocPostings(qr.queryId, qr.documents[..j])) + DocPostings(qr.queryId, [qr.documents[j]])
  {
    assert qr.documents[..j + 1] == qr.documents[..j] + [qr.documents[j]];
    DocPostingsAppend(qr.queryId, qr.documents[..j], qr.documents[j]);
  }

  method FuseQuery(m0: map<string, SearchResult>, qr: QueryResult, ghost done: seq<Posting<Fields>>)
    returns (m: map<string, SearchResult>)
    requires Holds(m0, Fuse(done))
    modifies set k | k in m0 :: m0[k]
    ensures Holds(m, Fuse(done + DocPostings(qr.queryId, qr.documents)))
    ensures forall k :: k in m ==> (k in m0 && m[k] == m0[k]) || fresh(m[k])
  {
    m := m0;
    assert done + DocPostings(qr.queryId, qr.documents[..0]) == done;
    for j := 0 to |qr.documents|
      invariant Holds(m, Fuse(done + DocPostings(qr.queryId, qr.documents[..j])))
      invariant forall k :: k in m ==> (k in m0 && m[k] == m0[k]) || fresh(m[k])
    {
      ghost var before := done + DocPostings(qr.queryId, qr.documents[..j]);
      m := FuseHit(m, qr.queryId, qr.documents[j], before);
      DocPostingsStep(done, qr, j);
    }
    assert qr.documents[..|qr.documents|] == qr.documents;
  }

  method FuseAll(allQR: seq<QueryResult>) returns (m: map<string, SearchResult>)
    ensures Holds(m, Fuse(Postings(allQR)))
    ensures forall k :: k in m ==> fresh(m[k])
  {
    m := map[];
    for i := 0 to |allQR|
      invariant Holds(m, Fuse(Postings(allQR[..i])))
      invariant forall k :: k in m ==> fresh(m[k])
    {
      m := FuseQuery(m, allQR[i], Postings(allQR[..i]));
      assert allQR[..i + 1] == allQR[..i] + [allQR[i]];
      assert allQR[..i + 1][..i] == allQR[..i];
    }
    assert allQR[..|allQR|] == allQR;
  }

  method ScoreAll(m: map<string, SearchResult>, ghost fused: map<string, Fused<Fields>>)
    requires Holds(m, fused)
    requires forall k :: k in fused ==> Positive(fused[k].queryRanks)
    modifies set k | k in m :: m[k]
    ensures Holds(m, fused)
    ensures forall k :: k in m ==> RanksFit(fused[k].queryRanks, K) && m[k].rrfScore == RankSum(fused[k].queryRanks, K)
  {
    AllPositiveFit(fused);
    var pending := m.Keys;
    while pending != {}
      invariant pending <= m.Keys
      invariant Holds(m, fused)
      invariant forall k :: k in m && k !in pending ==> m[k].rrfScore == RankSum(fused[k].queryRanks, K)
      decreases pending
    {
      var k :| k in pending;
      m[k].CalculateRrfScore();
      pending := pending - {k};
    }
  }

  method SortAndLimit(m: map<string, SearchResult>, ghost fused: map<string, Fused<Fields>>)
    returns (res: seq<SearchResult>, ghost listing: seq<Scored<Fused<Fields>>>)
    requires Holds(m, fused)
    requires forall k :: k in fused ==> Positive(fused[k].queryRanks)
    requires forall k :: k in m ==> RanksFit(fused[k].queryRanks, K) && m[k].rrfScore == RankSum(fused[k].queryRanks, K)
    ensures Lists(listing, ScoreTable(fused))
    ensures |res| == |Take(Rank(listing), FinalTopN)| <= FinalTopN
    ensures forall i :: 0 <= i < |res| ==>
      res[i].View() == Take(Rank(listing), FinalTopN)[i].item &&
      res[i].rrfScore == Take(Rank(listing), FinalTopN)[i].score
  {
    var table := map k | k in m :: Scored(k, m[k].rrfScore, m[k].View());
    ScoredTable(m, fused);
    var entries := ListEntries(table);
    listing := entries;
    TopListed(entries, table, FinalTopN);
    var top := Take(Rank(entries), FinalTopN);
    res := seq(|top|, i requires 0 <= i < |top| && top[i].key in m => m[top[i].key]);
  }

  /** `applyRRFFusion`: fuse by id or url, score every result, sort and keep the best 150. */
  method ApplyRrfFusion(allQR: seq<QueryResult>) returns (res: seq<SearchResult>, ghost listing: seq<Scored<Fused<Fields>>>)
    requires PositiveRanks(Postings(allQR))
    ensures Lists(listing, ScoreTable(Fuse(Postings(allQR))))
    ensures |res| == |Take(Rank(listing), FinalTopN)| <= FinalTopN
    ensures forall i :: 0 <= i < |res| ==>
      res[i].View() == Take(Rank(listing), FinalTopN)[i].item &&
      res[i].rrfScore == Take(Rank(listing), FinalTopN)[i].score
  {
    var m := FuseAll(allQR);
    ghost var fused := Fuse(Postings(allQR));
    ScoreAll(m, fused);
    res, listing := SortAndLimit(m, fused);
  }

  /** The Lucene search of one query: its hits in score order, or None when it throws. */
  type Search = string -> Option<seq<StoredHit>>

  /** The result of one query: its highlighted hits, or no documents when the search threw. */
  function QueryResultOf(query: string, i: nat, search: Search, highlighter: Highlighter): QueryResult
  {
    match search(query)
    case None => QueryResult(QueryId(i), [])
    case Some(hits) =>
      var top := Take(hits, TopNPerQuery);
      QueryResult(QueryId(i), Kept(top, highlighter, |top|))
  }

  /** `executeParallelSearchesWithRRF` up to the fusion: one result per query, failures isolated. */
  method ExecuteSearches(queries: seq<string>, search: Search, highlighter: Highlighter)
    returns (all: seq<QueryResult>)
    ensures |all| == |queries|
    ensures forall i :: 0 <= i < |queries| ==> all[i] == QueryResultOf(queries[i], i, search, highlighter)
  {
    all := [];
    for i := 0 to |queries|
      invariant |all| == i
      invariant forall j :: 0 <= j < i ==> all[j] == QueryResultOf(queries[j], j, search, highlighter)
    {
      var queryId := QueryId(i);
      var qr: QueryResult;
      match search(queries[i]) {
        case None =>
          qr := QueryResult(queryId, []);
        case Some(hits) =>
          qr := ExecuteSearchWithHighlighting(Take(hits, TopNPerQuery), queryId, highlighter);
      }
      all := all + [qr];
    }
  }

  lemma {:induction false} KeptRanksPositive(qrs: seq<QueryResult>)
    requires forall i, j :: 0 <= i < |qrs| && 0 <= j < |qrs[i].documents| ==> qrs[i].documents[j].rank >= 1
    ensures PositiveRanks(Postings(qrs))
    decreases |qrs|
  {
    if |qrs| > 0 {
      KeptRanksPositive(qrs[..|qrs| - 1]);
      DocPostingsPositive(qrs[|qrs| - 1].queryId, qrs[|qrs| - 1].documents);
    }
  }

  lemma {:induction false} DocPostingsPositive(qid: string, docs: seq<RankedDocument>)
    requires forall j :: 0 <= j < |docs| ==> docs[j].rank >= 1
    ensures PositiveRanks(DocPostings(qid, docs))
    decreases |docs|
  {
    if |docs| > 0 {
      DocPostingsPositive(qid, docs[..|docs| - 1]);
    }
  }

  /** One line of the result file. */
  datatype Record = Record(url: Option<string>, id: Option<string>, bestContent: string, rrfScore: real,
                           queryCount: nat, queryDetails: map<string, (int, real)>)

  function ToRecord(r: Fused<Fields>, score: real): Record
  {
    Record(r.fields.url, r.fields.id, r.fields.highlightedContent, score, |r.queryRanks|,
           map q | q in r.queryRanks && q in r.queryScores :: (r.queryRanks[q], r.queryScores[q]))
  }

  function Records(top: seq<Scored<Fused<Fields>>>): (rs: seq<Record>)
    ensures |rs| == |top|
  {
    seq(|top|, i requires 0 <= i < |top| => ToRecord(top[i].item, top[i].score))
  }

  method WriteResults(res: seq<SearchResult>) returns (records: seq<Record>)
    ensures |records| == |res|
    ensures forall i :: 0 <= i < |res| ==> records[i] == ToRecord(res[i].View(), res[i].rrfScore)
  {
    records := [];
    for i := 0 to |res|
      invariant |records| == i
      invariant forall j :: 0 <= j < i ==> records[j] == ToRecord(res[j].View(), res[j].rrfScore)
    {
      records := records + [ToRecord(res[i].View(), res[i].rrfScore)];
    }
  }

  datatype SearchOutcome =
    | Exit(code: int)
    | Written(path: string, records: seq<Record>)

  /** The query results `main` fuses. */
  function AllResults(queries: seq<string>, search: Search, highlighter: Highlighter): seq<QueryResult>
  {
    seq(|queries|, i requires 0 <= i < |queries| => QueryResultOf(queries[i], i, search, highlighter))
  }

  /** `main`: the argument check, then search, fusion and the result file. */
  method SearchMain(args: seq<string>, search: Search, highlighter: Highlighter) returns (outcome: SearchOutcome)
    ensures |args| < 2 || |args| > MaxQueries + 1 <==> outcome == Exit(1)
    ensures 2 <= |args| <= MaxQueries + 1 ==>
      outcome.Written? && outcome.path == args[|args| - 1] && |outcome.records| <= FinalTopN &&
      exists listing: seq<Scored<Fused<Fields>>> ::
        PositiveRanks(Postings(AllResults(args[..|args| - 1], search, highlighter))) &&
        Lists(listing, ScoreTable(Fuse(Postings(AllResults(args[..|args| - 1], search, highlighter))))) &&
        outcome.records == Records(Take(Rank(listing), FinalTopN))
  {
    if |args| < 2 || |args| > MaxQueries + 1 {
      return Exit(1);
    }
    var resultPath := args[|args| - 1];
    var queries := args[..|args| - 1];
    var all := ExecuteSearches(queries, search, highlighter);
    assert all == AllResults(queries, search, highlighter);
    KeptRanksPositive(all);
    var merged, listing := ApplyRrfFusion(all);
    var records := WriteResults(merged);
    assert records == Records(Take(Rank(listing), FinalTopN));
    return Written(resultPath, records);
  }

  /** A failing query leaves the fused results exactly as the other queries make them. */
  lemma FailedQueryChangesNothing(qrs: seq<QueryResult>, query: string, i: nat, search: Search, highlighter: Highlighter)
    requires search(query).None?
    ensures Fuse(Postings(qrs + [QueryResultOf(query, i, search, highlighter)])) == Fuse(Postings(qrs))
  {
    var x := QueryResultOf(query, i, search, highlighter);
    assert x.documents == [];
    assert (qrs + [x])[..|qrs|] == qrs;
    assert Postings(qrs + [x]) == Postings(qrs) + DocPostings(x.queryId, x.documents);
    assert Postings(qrs) + [] == Postings(qrs);
  }
}
