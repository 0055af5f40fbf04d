// The keyed fusion shared by the two InfoRetrieval searchers
// (src/InfoRetrieval/Search/Searcher.java and src/InfoRetrieval/Search.java):
// hits are visited query by query in rank order; the first hit of a key
// creates its result and fixes its fields, every hit (re)sets the entry of
// its query id in the rank and score maps.
module FusionSpec {
  import opened Wrappers
  import opened Rrf
  import opened Ranking
  import opened Decimal

  /** The id of the `i`-th query (0-based): "Q1", "Q2", ... */
  function QueryId(i: nat): string
  {
    "Q" + ToDecimal(i + 1)
  }

  lemma QueryIdInjective(i: nat, j: nat)
    requires QueryId(i) == QueryId(j)
    ensures i == j
  {
    assert QueryId(i)[1..] == ToDecimal(i + 1);
    assert QueryId(j)[1..] == ToDecimal(j + 1);
    ToDecimalInjective(i + 1, j + 1);
  }

  /** One hit of one query: its fusion key, the fields a first hit fixes, its rank and BM25 score. */
  datatype Posting<F> = Posting(qid: string, key: string, fields: F, rank: int, score: real)

  /** A fused result: the fields of the first hit and the per-query rank and score maps. */
  datatype Fused<F> = Fused(fields: F, queryRanks: map<string, int>, queryScores: map<string, real>)

  predicate PositiveRanks<F>(ps: seq<Posting<F>>)
  {
    forall i :: 0 <= i < |ps| ==> ps[i].rank >= 1
  }

  predicate Positive(ranks: map<string, int>)
  {
    forall q :: q in ranks ==> ranks[q] >= 1
  }

  /** The body of the map update for one hit. */
  function AddPosting<F>(m: map<string, Fused<F>>, p: Posting<F>): map<string, Fused<F>>
  {
    if p.key in m then
      m[p.key := m[p.key].(queryRanks := m[p.key].queryRanks[p.qid := p.rank],
                           queryScores := m[p.key].queryScores[p.qid := p.score])]
    else
      m[p.key := Fused(p.fields, map[p.qid := p.rank], map[p.qid := p.score])]
  }

  /** The result map after all hits, in order. */
  function Fuse<F>(ps: seq<Posting<F>>): (r: map<string, Fused<F>>)
    ensures forall key :: key in r ==> r[key].queryRanks.Keys == r[key].queryScores.Keys
    ensures PositiveRanks(ps) ==> forall key :: key in r ==> Positive(r[key].queryRanks)
    decreases |ps|
  {
    if |ps| == 0 then map[]
    else
      assert PositiveRanks(ps) ==> PositiveRanks(ps[..|ps| - 1]);
      AddPosting(Fuse(ps[..|ps| - 1]), ps[|ps| - 1])
  }

  /** Index of the first hit of `key`. */
  function FirstHit<F>(ps: seq<Posting<F>>, key: string): (r: Option<nat>)
    ensures r.Some? ==> r.value < |ps| && ps[r.value].key == key
    ensures r.Some? ==> forall j :: 0 <= j < r.value ==> ps[j].key != key
    ensures r.None? ==> forall j :: 0 <= j < |ps| ==> ps[j].key != key
    decreases |ps|
  {
    if |ps| == 0 then None
    else match FirstHit(ps[..|ps| - 1], key)
      case Some(i) => Some(i)
      case None => if ps[|ps| - 1].key == key then Some(|ps| - 1) else None
  }

  /** Index of the last hit of `key` for query `qid`. */
  function LastHit<F>(ps: seq<Posting<F>>, key: string, qid: string): (r: Option<nat>)
    ensures r.Some? ==> r.value < |ps| && ps[r.value].key == key && ps[r.value].qid == qid
    ensures r.Some? ==> forall j :: r.value < j < |ps| ==> ps[j].key != key || ps[j].qid != qid
    ensures r.None? ==> forall j :: 0 <= j < |ps| ==> ps[j].key != key || ps[j].qid != qid
    decreases |ps|
  {
    if |ps| == 0 then None
    else if ps[|ps| - 1].key == key && ps[|ps| - 1].qid == qid then Some(|ps| - 1)
    else LastHit(ps[..|ps| - 1], key, qid)
  }

  /** The query ids that hit `key`. */
  ghost function QueriesHitting<F>(ps: seq<Posting<F>>, key: string): set<string>
  {
    set i | 0 <= i < |ps| && ps[i].key == key :: ps[i].qid
  }

  /**
   * A key has a result iff some hit carries it; its fields are those of its
   * first hit, and for each query id that hit it the stored rank and score
   * are those of that query's last hit of it.
   */
  lemma {:induction false} FuseAt<F>(ps: seq<Posting<F>>, key: string)
    ensures key in Fuse(ps) <==> FirstHit(ps, key).Some?
    ensures key in Fuse(ps) ==> Fuse(ps)[key].fields == ps[FirstHit(ps, key).value].fields
    ensures key in Fuse(ps) ==> forall qid ::
      (qid in Fuse(ps)[key].queryRanks <==> LastHit(ps, key, qid).Some?) &&
      (qid in Fuse(ps)[key].queryRanks ==>
        Fuse(ps)[key].queryRanks[qid] == ps[LastHit(ps, key, qid).value].rank &&
        Fuse(ps)[key].queryScores[qid] == ps[LastHit(ps, key, qid).value].score)
    decreases |ps|
  {
    if |ps| > 0 {
      var init := ps[..|ps| - 1];
      FuseAt(init, key);
      assert forall qid :: ps[|ps| - 1].key != key || ps[|ps| - 1].qid != qid ==>
        LastHit(ps, key, qid) == LastHit(init, key, qid);
    }
  }

  /** `getQueryCount`: the number of distinct query ids that hit the key. */
  lemma QueryCount<F>(ps: seq<Posting<F>>, key: string)
    requires key in Fuse(ps)
    ensures Fuse(ps)[key].queryRanks.Keys == QueriesHitting(ps, key)
    ensures |Fuse(ps)[key].queryRanks| == |QueriesHitting(ps, key)|
  {
    FuseAt(ps, key);
    var r := Fuse(ps)[key].queryRanks;
    forall qid ensures qid in r <==> qid in QueriesHitting(ps, key) {
      if qid in QueriesHitting(ps, key) {
        var i :| 0 <= i < |ps| && ps[i].key == key && ps[i].qid == qid;
      }
    }
    assert r.Keys == QueriesHitting(ps, key);
  }

  /**
   * A later hit of a key already present changes only its own query's rank
   * and score: the fields stay those of the first hit, and when the query had
   * already hit the key its earlier rank is overwritten.
   */
  lemma LaterHitOverwrites<F>(ps: seq<Posting<F>>, p: Posting<F>)
    requires p.key in Fuse(ps)
    ensures Fuse(ps + [p])[p.key] ==
      Fuse(ps)[p.key].(queryRanks := Fuse(ps)[p.key].queryRanks[p.qid := p.rank],
                       queryScores := Fuse(ps)[p.key].queryScores[p.qid := p.score])
    ensures forall key :: key != p.key ==>
              (key in Fuse(ps + [p]) <==> key in Fuse(ps)) &&
              (key in Fuse(ps) ==> Fuse(ps + [p])[key] == Fuse(ps)[key])
  {
    assert (ps + [p])[..|ps|] == ps;
  }

  /**
   * Overwriting a query's rank with a worse one lowers the fused score: the
   * sum counts the last rank, not the best.
   */
  lemma OverwriteLowersScore(ranks: map<string, int>, qid: string, worse: int)
    requires Positive(ranks) && qid in ranks && worse > ranks[qid]
    ensures RanksFit(ranks, K) && RanksFit(ranks[qid := worse], K)
    ensures RankSum(ranks[qid := worse], K) < RankSum(ranks, K)
  {
    PositiveFits(ranks);
    RankSumRemove(ranks, K, qid);
    RankSumUpdate(ranks, K, qid, worse);
    ReciprocalStrictlyDecreasing(K, ranks[qid], worse);
  }

  lemma PositiveFits(ranks: map<string, int>)
    requires Positive(ranks)
    ensures RanksFit(ranks, K)
  {
    forall q | q in ranks ensures K + ranks[q] as real > 0.0 {
      assert ranks[q] as real >= 1.0;
    }
  }

  lemma AllPositiveFit<F>(m: map<string, Fused<F>>)
    requires forall key :: key in m ==> Positive(m[key].queryRanks)
    ensures forall key :: key in m ==> RanksFit(m[key].queryRanks, K)
  {
    forall key | key in m ensures RanksFit(m[key].queryRanks, K) {
      PositiveFits(m[key].queryRanks);
    }
  }

  /** The fused results keyed and scored by their RRF sums (`calculateRrfScore` with `RRF_K`). */
  ghost function ScoreTable<F>(m: map<string, Fused<F>>): (t: map<string, Scored<Fused<F>>>)
    requires forall key :: key in m ==> Positive(m[key].queryRanks)
    ensures Keyed(t) && t.Keys == m.Keys
    ensures forall key :: key in t ==> t[key].item == m[key]
  {
    AllPositiveFit(m);
    map key | key in m :: Scored(key, RankSum(m[key].queryRanks, K), m[key])
  }
}
