// The InfoRetrieval searcher (src/InfoRetrieval/Search/Searcher.java): up to
// four queries, each searched for its top 1500 segments, fused by document
// id into `SearchResult` objects held in a hash map, scored by reciprocal
// rank fusion and cut to the best 600. Lucene is a parameter.
module IrSearcher {
  import opened Wrappers
  import opened Strings
  import opened Rrf
  import opened Ranking
  import opened Sorting
  import opened FusionSpec
  import opened RankedDocuments
  import opened SearchResults

  const TopNPerQuery: nat := 1500
  const FinalTopN: nat := 600
  const MaxQueries: nat := 4

  /** The stored fields of one Lucene hit and its BM25 score. */
  datatype StoredHit = StoredHit(segment: string, segmentId: string, url: string, title: string,
                                 headings: string, score: real)

  datatype QueryResult = QueryResult(queryId: string, documents: seq<RankedDocument>)

  /** The query result `searchShard` builds from the backend's hits, in their order. */
  function Shard(hits: seq<StoredHit>, queryId: string): (qr: QueryResult)
    ensures qr.queryId == queryId && |qr.documents| == |hits|
    ensures forall i :: 0 <= i < |hits| ==>
      qr.documents[i].rank == i + 1 && qr.documents[i].segmentId == hits[i].segmentId &&
      qr.documents[i].fullDocId == ExtractFullDocId(hits[i].segmentId) &&
      qr.documents[i].content == hits[i].segment && qr.documents[i].highlightedContent == ""
  {
    QueryResult(queryId, seq(|hits|, i requires 0 <= i < |hits| =>
      NewRankedDocument(hits[i].url, hits[i].segmentId, hits[i].segment, hits[i].title,
                        hits[i].headings, "", hits[i].score, i + 1)))
  }

  method SearchShard(hits: seq<StoredHit>, queryId: string) returns (qr: QueryResult)
    ensures qr == Shard(hits, queryId)
  {
    var docs: seq<RankedDocument> := [];
    for i := 0 to |hits|
      invariant docs == Shard(hits, queryId).documents[..i]
    {
      var sd := hits[i];
      docs := docs + [NewRankedDocument(sd.url, sd.segmentId, sd.segment, sd.title, sd.headings, "", sd.score, i + 1)];
    }
    qr := QueryResult(queryId, docs);
  }

  function FieldsOf(d: RankedDocument): Fields
  {
    Fields(d.url, d.fullDocId, d.segmentId, d.content, d.title, d.headings, d.highlightedContent)
  }

  /** The hits of one query as postings keyed by document id. */
  function DocPostings(qr: QueryResult): (ps: seq<Posting<Fields>>)
    ensures |ps| == |qr.documents|
  {
    seq(|qr.documents|, j requires 0 <= j < |qr.documents| => PostingOf(qr.queryId, qr.documents[j]))
  }

  /** All hits, query by query, in the order the fusion visits them. */
  function Postings(qrs: seq<QueryResult>): seq<Posting<Fields>>
    decreases |qrs|
  {
    if |qrs| == 0 then [] else Postings(qrs[..|qrs| - 1]) + DocPostings(qrs[|qrs| - 1])
  }

  lemma PostingsAppend(qrs: seq<QueryResult>, qr: QueryResult)
    ensures Postings(qrs + [qr]) == Postings(qrs) + DocPostings(qr)
  {
    assert (qrs + [qr])[..|qrs|] == qrs;
  }

  /** The result map holds one distinct object per fused key, whose view is that key's fused result. */
  ghost predicate Holds(m: map<string, SearchResult>, fused: map<string, Fused<Fields>>)
    reads set k | k in m :: m[k]
  {
    m.Keys == fused.Keys &&
    (forall k :: k in m ==> m[k].View() == fused[k]) &&
    (forall k1, k2 :: k1 in m && k2 in m && k1 != k2 ==> m[k1] != m[k2])
  }

  /** The posting of one hit of query `qid`. */
  function PostingOf(qid: string, rd: RankedDocument): Posting<Fields>
  {
    Posting(qid, rd.fullDocId, FieldsOf(rd), rd.rank, rd.bm25Score)
  }

  /** The body of the inner loop: create the document's result, or add this query's rank to it. */
  method FuseHit(m0: map<string, SearchResult>, qid: string, rd: RankedDocument, ghost before: seq<Posting<Fields>>)
    returns (m: map<string, SearchResult>)
    requires Holds(m0, Fuse(before))
    modifies set k | k in m0 :: m0[k]
    ensures Holds(m, Fuse(before + [PostingOf(qid, rd)]))
    ensures forall k :: k in m ==> (k in m0 && m[k] == m0[k]) || fresh(m[k])
  {
    m := m0;
    var docKey := rd.fullDocId;
    var fullId := rd.segmentId;
    assert (before + [PostingOf(qid, rd)])[..|before|] == before;
    if docKey !in m {
      var sr := new SearchResult(rd.url, docKey, fullId, rd.content, rd.title, rd.headings,
                                 rd.highlightedContent, qid, rd.rank, rd.bm25Score);
      m := m[docKey := sr];
    } else {
      var sr := m[docKey];
      sr.AddQueryResult(qid, rd.rank, rd.bm25Score);
    }
  }

  /** The inner loop of `applyRRFFusion`: the hits of one query, in rank order. */
  method FuseQuery(m0: map<string, SearchResult>, qr: QueryResult, ghost done: seq<Posting<Fields>>)
    returns (m: map<string, SearchResult>)
    requires Holds(m0, Fuse(done))
    modifies set k | k in m0 :: m0[k]
    ensures Holds(m, Fuse(done + DocPostings(qr)))
    ensures forall k :: k in m ==> (k in m0 && m[k] == m0[k]) || fresh(m[k])
  {
    m := m0;
    assert done + DocPostings(qr)[..0] == done;
    for j := 0 to |qr.documents|
      invariant Holds(m, Fuse(done + DocPostings(qr)[..j]))
      invariant forall k :: k in m ==> (k in m0 && m[k] == m0[k]) || fresh(m[k])
    {
      ghost var before := done + DocPostings(qr)[..j];
      m := FuseHit(m, qr.queryId, qr.documents[j], before);
      DocPostingsStep(done, qr, j);
    }
    assert DocPostings(qr)[..|qr.documents|] == DocPostings(qr);
  }

  lemma DocPostingsStep(done: seq<Posting<Fields>>, qr: QueryResult, j: nat)
    requires j < |qr.documents|
    ensures done + DocPostings(qr)[..j + 1] == (done + DocPostings(qr)[..j]) + [PostingOf(qr.queryId, qr.documents[j])]
  {
    var ps := DocPostings(qr);
    assert ps[..j + 1] == ps[..j] + [ps[j]];
  }

  /** The outer loop of `applyRRFFusion`: every query in order. */
  method FuseAll(allQR: seq<QueryResult>) returns (m: map<string, SearchResult>)
    ensures Holds(m, Fuse(Postings(allQR)))
    ensures forall k :: k in m ==> fresh(m[k])
  {
    m := map[];
    for i := 0 to |allQR|
      invariant Holds(m, Fuse(Postings(allQR[..i])))
      invariant forall k :: k in m ==> fresh(m[k])
    {
      m := FuseQuery(m, allQR[i], Postings(allQR[..i]));
      assert allQR[..i + 1] == allQR[..i] + [allQR[i]];
      PostingsAppend(allQR[..i], allQR[i]);
    }
    assert allQR[..|allQR|] == allQR;
  }

  /** `calculateRrfScore(RRF_K)` on every result of the map. */
  method ScoreAll(m: map<string, SearchResult>, ghost fused: map<string, Fused<Fields>>)
    requires Holds(m, fused)
    requires forall k :: k in fused ==> Positive(fused[k].queryRanks)
    modifies set k | k in m :: m[k]
    ensures Holds(m, fused)
    ensures forall k :: k in m ==> RanksFit(fused[k].queryRanks, K) && m[k].rrfScore == RankSum(fused[k].queryRanks, K)
  {
    AllPositiveFit(fused);
    var pending := m.Keys;
    while pending != {}
      invariant pending <= m.Keys
      invariant Holds(m, fused)
      invariant forall k :: k in m && k !in pending ==> m[k].rrfScore == RankSum(fused[k].queryRanks, K)
      decreases pending
    {
      var k :| k in pending;
      m[k].CalculateRrfScore(K);
      pending := pending - {k};
    }
  }

  /** The scored objects of the map are the score table of the fused results. */
  lemma ScoredTable(m: map<string, SearchResult>, fused: map<string, Fused<Fields>>)
    requires Holds(m, fused)
    requires forall k :: k in fused ==> Positive(fused[k].queryRanks)
    requires forall k :: k in m ==> RanksFit(fused[k].queryRanks, K) && m[k].rrfScore == RankSum(fused[k].queryRanks, K)
    ensures (map k | k in m :: Scored(k, m[k].rrfScore, m[k].View())) == ScoreTable(fused)
  {
    var table := map k | k in m :: Scored(k, m[k].rrfScore, m[k].View());
    var t := ScoreTable(fused);
    assert table.Keys == t.Keys;
    forall k | k in table ensures table[k] == t[k] {
      assert t[k].item == fused[k];
    }
  }

  /** The sort by RRF score and the limit to `FINAL_TOP_N`. */
  method SortAndLimit(m: map<string, SearchResult>, ghost fused: map<string, Fused<Fields>>)
    returns (res: seq<SearchResult>, ghost listing: seq<Scored<Fused<Fields>>>)
    requires Holds(m, fused)
    requires forall k :: k in fused ==> Positive(fused[k].queryRanks)
    requires forall k :: k in m ==> RanksFit(fused[k].queryRanks, K) && m[k].rrfScore == RankSum(fused[k].queryRanks, K)
    ensures Lists(listing, ScoreTable(fused))
    ensures |res| == |Take(Rank(listing), FinalTopN)| <= FinalTopN
    ensures forall i :: 0 <= i < |res| ==>
      res[i].View() == Take(Rank(listing), FinalTopN)[i].item &&
      res[i].rrfScore == Take(Rank(listing), FinalTopN)[i].score
  {
    var table := map k | k in m :: Scored(k, m[k].rrfScore, m[k].View());
    ScoredTable(m, fused);
    var entries := ListEntries(table);
    listing := entries;
    TopListed(entries, table, FinalTopN);
    var top := Take(Rank(entries), FinalTopN);
    res := seq(|top|, i requires 0 <= i < |top| && top[i].key in m => m[top[i].key]);
  }

  /** `applyRRFFusion`: fuse by document id, score every result, sort and keep the best 600. */
  method ApplyRrfFusion(allQR: seq<QueryResult>) returns (res: seq<SearchResult>, ghost listing: seq<Scored<Fused<Fields>>>)
    requires PositiveRanks(Postings(allQR))
    ensures Lists(listing, ScoreTable(Fuse(Postings(allQR))))
    ensures |res| == |Take(Rank(listing), FinalTopN)| <= FinalTopN
    ensures forall i :: 0 <= i < |res| ==>
      res[i].View() == Take(Rank(listing), FinalTopN)[i].item &&
      res[i].rrfScore == Take(Rank(listing), FinalTopN)[i].score
  {
    var m := FuseAll(allQR);
    ghost var fused := Fuse(Postings(allQR));
    ScoreAll(m, fused);
    res, listing := SortAndLimit(m, fused);
  }

  /** One line of the result file. */
  datatype Record = Record(
    url: string, id: string, segment: string, rrfScore: real, queryCount: nat,
    segmentId: string, title: string, headings: string,
    queryDetails: map<string, (int, real)>)

  function ToRecord(r: Fused<Fields>, score: real): Record
  {
    Record(r.fields.url, r.fields.id, r.fields.content, score, |r.queryRanks|,
           r.fields.segmentId, r.fields.title, r.fields.headings,
           map q | q in r.queryRanks && q in r.queryScores :: (r.queryRanks[q], r.queryScores[q]))
  }

  datatype SearchOutcome =
    | Exit(code: int)
    | QueryFailed(query: string)
    | Written(path: string, records: seq<Record>)

  /** The Lucene search of one query: its hits in score order, or None when it throws. */
  type Search = string -> Option<seq<StoredHit>>

  /** The query results of the first `n` queries. */
  function Shards(queries: seq<string>, search: Search, n: nat): (qrs: seq<QueryResult>)
    requires n <= |queries| && forall j :: 0 <= j < n ==> search(queries[j]).Some?
    ensures |qrs| == n
  {
    seq(n, j requires 0 <= j < n => Shard(Take(search(queries[j]).value, TopNPerQuery), QueryId(j)))
  }

  lemma ShardRanksPositive(qrs: seq<QueryResult>)
    requires forall i, j :: 0 <= i < |qrs| && 0 <= j < |qrs[i].documents| ==> qrs[i].documents[j].rank == j + 1
    ensures PositiveRanks(Postings(qrs))
    decreases |qrs|
  {
    if |qrs| > 0 {
      ShardRanksPositive(qrs[..|qrs| - 1]);
    }
  }

  /** The searches of `executeParallelSearchesWithRRF`, joined in query order. */
  method SearchAll(queries: seq<string>, search: Search) returns (r: Result<seq<QueryResult>, string>)
    ensures FirstNone(queries, search).Some? ==> r == Err(queries[FirstNone(queries, search).value])
    ensures FirstNone(queries, search).None? ==> r == Ok(Shards(queries, search, |queries|))
  {
    var all: seq<QueryResult> := [];
    for i := 0 to |queries|
      invariant forall j :: 0 <= j < i ==> search(queries[j]).Some?
      invariant all == Shards(queries, search, i)
    {
      var hits := search(queries[i]);
      if hits.None? {
        assert FirstNone(queries, search) == Some(i);
        return Err(queries[i]);
      }
      var qr := SearchShard(Take(hits.value, TopNPerQuery), QueryId(i));
      all := all + [qr];
    }
    return Ok(all);
  }

  function Records(top: seq<Scored<Fused<Fields>>>): (rs: seq<Record>)
    ensures |rs| == |top|
  {
    seq(|top|, i requires 0 <= i < |top| => ToRecord(top[i].item, top[i].score))
  }

  /** `writeResults`: one record per result, in order. */
  method WriteResults(res: seq<SearchResult>) returns (records: seq<Record>)
    ensures |records| == |res|
    ensures forall i :: 0 <= i < |res| ==> records[i] == ToRecord(res[i].View(), res[i].rrfScore)
  {
    records := [];
    for i := 0 to |res|
      invariant |records| == i
      invariant forall j :: 0 <= j < i ==> records[j] == ToRecord(res[j].View(), res[j].rrfScore)
    {
      records := records + [ToRecord(res[i].View(), res[i].rrfScore)];
    }
  }

  /** `main`: the argument check, then search, fusion and the result file. */
  method SearcherMain(args: seq<string>, search: Search) returns (outcome: SearchOutcome)
    ensures |args| < 2 || |args| > MaxQueries + 1 <==> outcome == Exit(1)
    ensures 2 <= |args| <= MaxQueries + 1 && FirstNone(args[..|args| - 1], search).Some? ==>
      outcome == QueryFailed(args[FirstNone(args[..|args| - 1], search).value])
    ensures 2 <= |args| <= MaxQueries + 1 && FirstNone(args[..|args| - 1], search).None? ==>
      outcome.Written? && outcome.path == args[|args| - 1] && |outcome.records| <= FinalTopN &&
      exists listing: seq<Scored<Fused<Fields>>> ::
        ShardRanksFit(Shards(args[..|args| - 1], search, |args| - 1)) &&
        Lists(listing, ScoreTable(Fuse(Postings(Shards(args[..|args| - 1], search, |args| - 1))))) &&
        outcome.records == Records(Take(Rank(listing), FinalTopN))
  {
    if |args| < 2 || |args| > MaxQueries + 1 {
      return Exit(1);
    }
    var resultPath := args[|args| - 1];
    var queries := args[..|args| - 1];
    var searched := SearchAll(queries, search);
    if searched.Err? {
      return QueryFailed(searched.error);
    }
    var all := searched.value;
    ShardRanksPositive(all);
    var results, listing := ApplyRrfFusion(all);
    var records := WriteResults(results);
    ghost var top := Take(Rank(listing), FinalTopN);
    assert records == Records(top);
    outcome := Written(resultPath, records);
  }

  /** Every rank a shard assigns is its 1-based position. */
  ghost predicate ShardRanksFit(qrs: seq<QueryResult>)
  {
    PositiveRanks(Postings(qrs))
  }
}
