// One fused result of the InfoRetrieval searcher
// (src/InfoRetrieval/Search/SearchResult.java): fixed document fields and
// the per-query rank and score maps that later hits update in place.
module SearchResults {
  import opened Rrf
  import opened FusionSpec

  /** The fields a result takes from the hit that created it. */
  datatype Fields = Fields(
    url: string,
    id: string,
    segmentId: string,
    content: string,
    title: string,
    headings: string,
    highlightedContent: string)

  class SearchResult {
    const url: string
    const id: string
    const segmentId: string
    const content: string
    const title: string
    const headings: string
    const highlightedContent: string
    var rrfScore: real
    var queryRanks: map<string, int>
    var queryScores: map<string, real>

    /** Both maps are keyed by the same query ids. */
    ghost predicate Valid()
      reads this
    {
      queryRanks.Keys == queryScores.Keys
    }

    function View(): Fused<Fields>
      reads this
    {
      Fused(Fields(url, id, segmentId, content, title, headings, highlightedContent), queryRanks, queryScores)
    }

    constructor (url: string, id: string, segmentId: string, content: string, title: string,
                 headings: string, highlightedContent: string, queryId: string, rank: int, score: real)
      ensures View() == Fused(Fields(url, id, segmentId, content, title, headings, highlightedContent),
                              map[queryId := rank], map[queryId := score])
      ensures rrfScore == 0.0
      ensures Valid()
    {
      this.url := url;
      this.id := id;
      this.segmentId := segmentId;
      this.content := content;
      this.highlightedContent := highlightedContent;
      this.title := title;
      this.headings := headings;
      this.rrfScore := 0.0;
      this.queryRanks := map[queryId := rank];
      this.queryScores := map[queryId := score];
    }

    /** Sets or overwrites the entry of `qid` in both maps; nothing else changes. */
    method AddQueryResult(qid: string, rank: int, score: real)
      requires Valid()
      modifies this
      ensures Valid()
      ensures queryRanks == old(queryRanks)[qid := rank]
      ensures queryScores == old(queryScores)[qid := score]
      ensures rrfScore == old(rrfScore)
    {
      queryRanks := queryRanks[qid := rank];
      queryScores := queryScores[qid := score];
    }

    /** Sets `rrfScore` to the sum of 1/(k + r) over the stored ranks. */
    method CalculateRrfScore(k: real)
      requires RanksFit(queryRanks, k)
      modifies this
      ensures queryRanks == old(queryRanks) && queryScores == old(queryScores)
      ensures rrfScore == RankSum(queryRanks, k)
    {
      var sum := 0.0;
      var rest := queryRanks;
      while rest != map[]
        invariant queryRanks == old(queryRanks) && queryScores == old(queryScores)
        invariant forall q :: q in rest ==> q in queryRanks && rest[q] == queryRanks[q]
        invariant RanksFit(rest, k)
        invariant sum + RankSum(rest, k) == RankSum(queryRanks, k)
        decreases |rest|
      {
        var q :| q in rest;
        RankSumRemove(rest, k, q);
        sum := sum + 1.0 / (k + rest[q] as real);
        rest := rest - {q};
      }
      rrfScore := sum;
    }

    /** The number of distinct query ids recorded. */
    function GetQueryCount(): (n: nat)
      reads this
      ensures n == |View().queryRanks.Keys|
    {
      |queryRanks|
    }
  }
}
