// Reciprocal-rank fusion of the QA assistant's searcher
// (src/IR_Ensemble/QA_Assistant/Search/Searcher.java). Each query's ranked
// hits are folded into one aggregate per root document id; only the first
// hit of a root in a query counts. The Lucene search is a parameter, and the
// per-key atomic `compute` of the concurrent map is a sequential fold over
// the queries in list order.
module RootFusion {
  import opened Wrappers
  import opened Strings
  import opened Rrf
  import opened Ranking
  import opened Folds
  import opened JavaExceptions

  const TopNPerQuery: nat := 1000
  const FinalN: nat := 200
  const MaxQueries: nat := 8

  /** A hit: the stored segment id ("<root>#<n>") and raw JSON of a document. */
  datatype Hit = Hit(segId: string, raw: string)

  /** Cumulative score of a root, and the best single boost with its payload. */
  datatype Aggregate = Aggregate(score: real, bestSegBoost: real, bestRaw: Option<string>)

  const NewAggregate := Aggregate(0.0, 0.0, None)

  /** The root id: the part before the first '#', when that '#' is not the first character. */
  function RootId(segId: string): (r: Option<string>)
    ensures r.Some? <==> '#' in segId && segId[0] != '#'
  {
    match IndexOf(segId, '#')
    case None => None
    case Some(hashPos) =>
      if hashPos == 0 then None
      else Some(segId[..hashPos])
  }

  /** The boost of a hit at 0-based position `rank`. */
  function Boost(rank: nat): (b: real)
    ensures b > 0.0
  {
    Reciprocal(K, rank + 1)
  }

  /** The boost is 1/(60 + rank + 1), and a later position earns strictly less. */
  lemma BoostOrder(better: nat, worse: nat)
    requires better < worse
    ensures Boost(better) == 1.0 / (61.0 + better as real)
    ensures Boost(worse) < Boost(better)
  {
    ReciprocalStrictlyDecreasing(K, better + 1, worse + 1);
  }

  /** A kept root id is a non-empty, '#'-free prefix of the segment id that a '#' follows. */
  lemma RootIdShape(segId: string)
    requires RootId(segId).Some?
    ensures var r := RootId(segId).value; |r| > 0 && '#' !in r && r + "#" <= segId
  {
    var hashPos := IndexOf(segId, '#').value;
    assert segId[..hashPos + 1] == segId[..hashPos] + "#";
  }

  /** The `compute` lambda: create when absent, add the boost, keep a strictly better payload. */
  function Compute(ag: Option<Aggregate>, boost: real, raw: string): Aggregate
  {
    var a := if ag.Some? then ag.value else NewAggregate;
    if boost > a.bestSegBoost then Aggregate(a.score + boost, boost, Some(raw))
    else Aggregate(a.score + boost, a.bestSegBoost, a.bestRaw)
  }

  function Lookup(m: map<string, Aggregate>, root: string): Option<Aggregate>
  {
    if root in m then Some(m[root]) else None
  }

  /** Position of the first of the first `n` hits that belongs to `root`. */
  function FirstRank(hits: seq<Hit>, root: string, n: nat): (r: Option<nat>)
    requires n <= |hits|
    ensures r.Some? ==> r.value < n && RootId(hits[r.value].segId) == Some(root)
    ensures r.Some? ==> forall i :: 0 <= i < r.value ==> RootId(hits[i].segId) != Some(root)
    ensures r.None? ==> forall i :: 0 <= i < n ==> RootId(hits[i].segId) != Some(root)
    decreases n
  {
    if n == 0 then None
    else match FirstRank(hits, root, n - 1)
      case Some(i) => Some(i)
      case None => if RootId(hits[n - 1].segId) == Some(root) then Some(n - 1) else None
  }

  /** The aggregates after the rank loop has handled the first `n` hits of one query. */
  function FoldPrefix(m: map<string, Aggregate>, hits: seq<Hit>, n: nat): map<string, Aggregate>
    requires n <= |hits|
    decreases n
  {
    if n == 0 then m
    else
      var prev := FoldPrefix(m, hits, n - 1);
      match RootId(hits[n - 1].segId)
      case None => prev
      case Some(root) =>
        if FirstRank(hits, root, n - 1).Some? then prev
        else prev[root := Compute(Lookup(prev, root), Boost(n - 1), hits[n - 1].raw)]
  }

  function FoldQuery(m: map<string, Aggregate>, hits: seq<Hit>): map<string, Aggregate>
  {
    FoldPrefix(m, hits, |hits|)
  }

  /** The aggregates after all queries, folded in list order. */
  function FoldAll(m: map<string, Aggregate>, queries: seq<seq<Hit>>): map<string, Aggregate>
    decreases |queries|
  {
    if |queries| == 0 then m
    else FoldQuery(FoldAll(m, queries[..|queries| - 1]), queries[|queries| - 1])
  }

  /** The boost one query gives a root: that of its first hit, or 0 if none. */
  function Contribution(hits: seq<Hit>, root: string): real
  {
    match FirstRank(hits, root, |hits|)
    case None => 0.0
    case Some(r) => Boost(r)
  }

  /** The raw payload of the first hit of `root` in a query that has one. */
  function FirstRaw(hits: seq<Hit>, root: string): string
    requires FirstRank(hits, root, |hits|).Some?
  {
    hits[FirstRank(hits, root, |hits|).value].raw
  }

  /**
   * Folding a query applies `compute` exactly once to every root it hits,
   * with the boost of that root's first hit, and to no other root.
   */
  lemma {:induction false} FoldPrefixAt(m: map<string, Aggregate>, hits: seq<Hit>, n: nat, root: string)
    requires n <= |hits|
    ensures root in FoldPrefix(m, hits, n) <==> root in m || FirstRank(hits, root, n).Some?
    ensures root in FoldPrefix(m, hits, n) ==>
      FoldPrefix(m, hits, n)[root] ==
        match FirstRank(hits, root, n)
        case None => m[root]
        case Some(r) => Compute(Lookup(m, root), Boost(r), hits[r].raw)
  {
    FoldPrefixKeys(m, hits, n, root);
    if root in FoldPrefix(m, hits, n) {
      FoldPrefixValue(m, hits, n, root);
    }
  }

  lemma {:induction false} FoldPrefixKeys(m: map<string, Aggregate>, hits: seq<Hit>, n: nat, root: string)
    requires n <= |hits|
    ensures root in FoldPrefix(m, hits, n) <==> root in m || FirstRank(hits, root, n).Some?
    decreases n
  {
    if n > 0 {
      FoldPrefixKeys(m, hits, n - 1, root);
      FoldStep(m, hits, n, root);
    }
  }

  /** One step of the rank loop: hit `n - 1` touches `root` only if it is that root's first hit. */
  lemma FoldStep(m: map<string, Aggregate>, hits: seq<Hit>, n: nat, root: string)
    requires 0 < n <= |hits|
    ensures var prev := FoldPrefix(m, hits, n - 1);
      if RootId(hits[n - 1].segId) == Some(root) && FirstRank(hits, root, n - 1).None? then
        FirstRank(hits, root, n) == Some(n - 1) &&
        root in FoldPrefix(m, hits, n) &&
        FoldPrefix(m, hits, n)[root] == Compute(Lookup(prev, root), Boost(n - 1), hits[n - 1].raw)
      else
        FirstRank(hits, root, n) == FirstRank(hits, root, n - 1) &&
        (root in FoldPrefix(m, hits, n) <==> root in prev) &&
        (root in prev ==> FoldPrefix(m, hits, n)[root] == prev[root])
  {
  }

  lemma {:induction false} FoldPrefixValue(m: map<string, Aggregate>, hits: seq<Hit>, n: nat, root: string)
    requires n <= |hits| && root in FoldPrefix(m, hits, n)
    ensures FirstRank(hits, root, n).None? ==> root in m && FoldPrefix(m, hits, n)[root] == m[root]
    ensures FirstRank(hits, root, n).Some? ==>
      var r := FirstRank(hits, root, n).value;
      FoldPrefix(m, hits, n)[root] == Compute(Lookup(m, root), Boost(r), hits[r].raw)
    decreases n
  {
    if n > 0 {
      var prev := FoldPrefix(m, hits, n - 1);
      FoldStep(m, hits, n, root);
      if RootId(hits[n - 1].segId) == Some(root) && FirstRank(hits, root, n - 1).None? {
        if root in prev {
          FoldPrefixValue(m, hits, n - 1, root);
        } else {
          FoldPrefixKeys(m, hits, n - 1, root);
        }
        assert Lookup(prev, root) == Lookup(m, root);
      } else {
        FoldPrefixValue(m, hits, n - 1, root);
      }
    }
  }

  lemma FoldQueryAt(m: map<string, Aggregate>, hits: seq<Hit>, root: string)
    ensures root in FoldQuery(m, hits) <==> root in m || Contribution(hits, root) > 0.0
    ensures Lookup(FoldQuery(m, hits), root) ==
      if Contribution(hits, root) > 0.0
      then Some(Compute(Lookup(m, root), Contribution(hits, root), FirstRaw(hits, root)))
      else Lookup(m, root)
  {
    FoldPrefixAt(m, hits, |hits|, root);
  }

  /** A hit without a usable root, or of a root already hit, changes nothing. */
  lemma IgnoredHit(m: map<string, Aggregate>, hits: seq<Hit>, h: Hit)
    requires RootId(h.segId).None? || FirstRank(hits, RootId(h.segId).value, |hits|).Some?
    ensures FoldQuery(m, hits + [h]) == FoldQuery(m, hits)
  {
    var hs := hits + [h];
    PrefixAgrees(m, hits, hs, |hits|);
  }

  lemma {:induction false} PrefixAgrees(m: map<string, Aggregate>, a: seq<Hit>, b: seq<Hit>, n: nat)
    requires n <= |a| && n <= |b| && a[..n] == b[..n]
    ensures FoldPrefix(m, a, n) == FoldPrefix(m, b, n)
    ensures forall root :: FirstRank(a, root, n) == FirstRank(b, root, n)
    decreases n
  {
    if n > 0 {
      assert a[..n - 1] == b[..n - 1] by { assert a[..n - 1] == a[..n][..n - 1]; assert b[..n - 1] == b[..n][..n - 1]; }
      assert a[n - 1] == a[..n][n - 1] == b[..n][n - 1] == b[n - 1];
      PrefixAgrees(m, a, b, n - 1);
    }
  }

  /** A root's score never decreases when a query is folded in. */
  lemma ScoreNeverDecreases(m: map<string, Aggregate>, hits: seq<Hit>, root: string)
    requires root in m
    ensures root in FoldQuery(m, hits) && FoldQuery(m, hits)[root].score >= m[root].score
  {
    FoldQueryAt(m, hits, root);
  }

  /**
   * After all queries, a root is present iff some query hit it; its score is
   * the sum over queries of the boost of its first hit there, and its best
   * boost is the largest of those boosts.
   */
  lemma {:induction false} FoldAllAt(queries: seq<seq<Hit>>, root: string)
    ensures root in FoldAll(map[], queries) <==> exists i :: 0 <= i < |queries| && Contribution(queries[i], root) > 0.0
    ensures root in FoldAll(map[], queries) ==>
      var ag := FoldAll(map[], queries)[root];
      ag.score == SumOf(queries, q => Contribution(q, root)) &&
      ag.bestSegBoost == MaxOf(queries, q => Contribution(q, root)) &&
      ag.bestRaw.Some?
    ensures root !in FoldAll(map[], queries) ==>
      SumOf(queries, q => Contribution(q, root)) == 0.0 && MaxOf(queries, q => Contribution(q, root)) == 0.0
    decreases |queries|
  {
    if |queries| > 0 {
      var init, last := queries[..|queries| - 1], queries[|queries| - 1];
      var f := q => Contribution(q, root);
      FoldAllAt(init, root);
      FoldQueryAt(FoldAll(map[], init), last, root);
      assert SumOf(queries, f) == SumOf(init, f) + f(last);
      assert MaxOf(queries, f) == if f(last) > MaxOf(init, f) then f(last) else MaxOf(init, f);
      assert forall i :: 0 <= i < |init| ==> init[i] == queries[i];
    }
  }

  /**
   * The payload kept for a root is that of its first hit in the first query
   * whose boost for it is the largest: an equal boost later does not replace it.
   */
  lemma {:induction false} BestRawOfFirstBestQuery(queries: seq<seq<Hit>>, root: string)
    requires root in FoldAll(map[], queries)
    ensures exists i :: 0 <= i < |queries| && KeepsPayloadOf(queries, root, i)
    decreases |queries|
  {
    var init, last := queries[..|queries| - 1], queries[|queries| - 1];
    var f := q => Contribution(q, root);
    if f(last) > MaxOf(init, f) {
      BestInLastQuery(queries, root);
    } else {
      FoldAllAt(queries, root);
      FoldAllAt(init, root);
      assert MaxOf(queries, f) == MaxOf(init, f);
      var k :| 0 <= k < |init| && f(init[k]) == MaxOf(init, f);
      BestRawOfFirstBestQuery(init, root);
      var i :| 0 <= i < |init| && KeepsPayloadOf(init, root, i);
      BestInEarlierQuery(queries, root, i);
    }
  }

  lemma {:induction false} BestInLastQuery(queries: seq<seq<Hit>>, root: string)
    requires |queries| > 0 && root in FoldAll(map[], queries)
    requires var f := q => Contribution(q, root);
             f(queries[|queries| - 1]) > MaxOf(queries[..|queries| - 1], f)
    ensures KeepsPayloadOf(queries, root, |queries| - 1)
  {
    var init, last := queries[..|queries| - 1], queries[|queries| - 1];
    var f := q => Contribution(q, root);
    FoldAllAt(init, root);
    FoldQueryAt(FoldAll(map[], init), last, root);
    assert MaxOf(queries, f) == f(last);
    assert forall j :: 0 <= j < |init| ==> init[j] == queries[j] && f(queries[j]) <= MaxOf(init, f);
  }

  lemma {:induction false} BestInEarlierQuery(queries: seq<seq<Hit>>, root: string, i: nat)
    requires |queries| > 0 && root in FoldAll(map[], queries)
    requires var f := q => Contribution(q, root);
             f(queries[|queries| - 1]) <= MaxOf(queries[..|queries| - 1], f)
    requires i < |queries| - 1 && root in FoldAll(map[], queries[..|queries| - 1])
    requires KeepsPayloadOf(queries[..|queries| - 1], root, i)
    ensures KeepsPayloadOf(queries, root, i)
  {
    var init, last := queries[..|queries| - 1], queries[|queries| - 1];
    var f := q => Contribution(q, root);
    FoldAllAt(init, root);
    FoldQueryAt(FoldAll(map[], init), last, root);
    assert MaxOf(queries, f) == MaxOf(init, f);
    assert forall j :: 0 <= j < |init| ==> init[j] == queries[j];
    assert FoldAll(map[], queries)[root].bestRaw == FoldAll(map[], init)[root].bestRaw;
  }

  /**
   * Query `i` is the first whose boost for `root` is the largest, and the
   * payload kept for `root` is that of its first hit there.
   */
  ghost predicate KeepsPayloadOf(queries: seq<seq<Hit>>, root: string, i: nat)
    requires i < |queries| && root in FoldAll(map[], queries)
  {
    var best := MaxOf(queries, q => Contribution(q, root));
    Contribution(queries[i], root) == best &&
    (forall j :: 0 <= j < i ==> Contribution(queries[j], root) < best) &&
    FirstRank(queries[i], root, |queries[i]|).Some? &&
    FoldAll(map[], queries)[root].bestRaw == Some(FirstRaw(queries[i], root))
  }

  /**
   * The set of roots and each root's score and best boost do not depend on
   * the order in which the queries are folded.
   */
  lemma FoldOrderIndependent(queries: seq<seq<Hit>>, reordered: seq<seq<Hit>>, root: string)
    requires multiset(queries) == multiset(reordered)
    ensures root in FoldAll(map[], queries) <==> root in FoldAll(map[], reordered)
    ensures root in FoldAll(map[], queries) ==>
      FoldAll(map[], queries)[root].score == FoldAll(map[], reordered)[root].score &&
      FoldAll(map[], queries)[root].bestSegBoost == FoldAll(map[], reordered)[root].bestSegBoost
  {
    var f := q => Contribution(q, root);
    FoldAllAt(queries, root);
    FoldAllAt(reordered, root);
    SumOfPermutation(queries, reordered, f);
    MaxOfPermutation(queries, reordered, f);
    if root in FoldAll(map[], queries) {
      var i :| 0 <= i < |queries| && f(queries[i]) > 0.0;
      assert f(queries[i]) <= MaxOf(queries, f);
    }
    if root in FoldAll(map[], reordered) {
      var i :| 0 <= i < |reordered| && f(reordered[i]) > 0.0;
      assert f(reordered[i]) <= MaxOf(reordered, f);
    }
  }

  /** The concurrent map of aggregates shared by the query tasks. */
  class AggMap {
    var entries: map<string, Aggregate>

    constructor ()
      ensures entries == map[]
    {
      entries := map[];
    }
  }

  /** `runSingleQuery` after the Lucene search: the rank loop over one query's hits. */
  method RunSingleQuery(hits: seq<Hit>, aggMap: AggMap)
    modifies aggMap
    ensures aggMap.entries == FoldQuery(old(aggMap.entries), hits)
  {
    var seenRootIds: set<string> := {};
    for rank := 0 to |hits|
      invariant aggMap.entries == FoldPrefix(old(aggMap.entries), hits, rank)
      invariant SeenExactly(hits, seenRootIds, rank)
    {
      var segId := hits[rank].segId;
      var hashPos := IndexOf(segId, '#');
      if hashPos.None? || hashPos.value == 0 {
        SkipStep(old(aggMap.entries), hits, rank, seenRootIds);
        continue;
      }
      var rootId := segId[..hashPos.value];
      if rootId in seenRootIds {
        SeenStep(old(aggMap.entries), hits, rank, seenRootIds, rootId);
        continue;
      }
      NewRootStep(old(aggMap.entries), hits, rank, seenRootIds, rootId);
      seenRootIds := seenRootIds + {rootId};
      var rrfBoost := 1.0 / (K + (rank + 1) as real);
      var raw := hits[rank].raw;
      aggMap.entries := aggMap.entries[rootId := Compute(Lookup(aggMap.entries, rootId), rrfBoost, raw)];
    }
  }

  /** `seen` holds exactly the roots hit among the first `n` hits. */
  ghost predicate SeenExactly(hits: seq<Hit>, seen: set<string>, n: nat)
    requires n <= |hits|
  {
    forall root :: root in seen <==> FirstRank(hits, root, n).Some?
  }

  // One step of the rank loop, for each of its three branches.
  lemma SkipStep(m: map<string, Aggregate>, hits: seq<Hit>, n: nat, seen: set<string>)
    requires n < |hits| && SeenExactly(hits, seen, n)
    requires var s := hits[n].segId; IndexOf(s, '#').None? || IndexOf(s, '#').value == 0
    ensures FoldPrefix(m, hits, n + 1) == FoldPrefix(m, hits, n)
    ensures SeenExactly(hits, seen, n + 1)
  {
    assert RootId(hits[n].segId).None?;
  }

  lemma SeenStep(m: map<string, Aggregate>, hits: seq<Hit>, n: nat, seen: set<string>, root: string)
    requires n < |hits| && SeenExactly(hits, seen, n)
    requires var s := hits[n].segId;
             (IndexOf(s, '#').Some? && IndexOf(s, '#').value > 0 && root == s[..IndexOf(s, '#').value])
    requires root in seen
    ensures FoldPrefix(m, hits, n + 1) == FoldPrefix(m, hits, n)
    ensures SeenExactly(hits, seen, n + 1)
  {
    assert RootId(hits[n].segId) == Some(root);
  }

  lemma NewRootStep(m: map<string, Aggregate>, hits: seq<Hit>, n: nat, seen: set<string>, root: string)
    requires n < |hits| && SeenExactly(hits, seen, n)
    requires var s := hits[n].segId;
             (IndexOf(s, '#').Some? && IndexOf(s, '#').value > 0 && root == s[..IndexOf(s, '#').value])
    requires root !in seen
    ensures FoldPrefix(m, hits, n + 1) ==
      FoldPrefix(m, hits, n)[root := Compute(Lookup(FoldPrefix(m, hits, n), root), 1.0 / (K + (n + 1) as real), hits[n].raw)]
    ensures SeenExactly(hits, seen + {root}, n + 1)
  {
    assert RootId(hits[n].segId) == Some(root);
  }

  datatype SearchOutcome =
    | Exit(code: int)                        // System.exit
    | QueryFailed(query: string)             // RuntimeException("Query failed: ...")
    | Written(path: string, lines: seq<string>)
    | WriteFailed(path: string, lines: seq<string>, error: JavaException) // readTree threw; the lines before stay in the file

  /**
   * Jackson's `writeValueAsString(readTree(raw))`: the compact form of a raw
   * JSON payload, or the exception `readTree` throws when it does not parse.
   */
  type Compact = string -> Result<string, JavaException>

  /** What the write loop leaves: the lines written, and the exception that stopped it, if any. */
  datatype Output = Output(lines: seq<string>, failure: Option<JavaException>)

  /** The Lucene search: the ranked hits of a query, or None when it throws. */
  type Search = string -> Option<seq<Hit>>

  /** The top `TOP_N_PER_QUERY` hits of each of the first `n` queries. */
  function HitLists(queries: seq<string>, search: Search, n: nat): (r: seq<seq<Hit>>)
    requires n <= |queries| && forall j :: 0 <= j < n ==> search(queries[j]).Some?
    ensures |r| == n
  {
    seq(n, j requires 0 <= j < n => Take(search(queries[j]).value, TopNPerQuery))
  }

  function Table(m: map<string, Aggregate>): (t: map<string, Scored<Aggregate>>)
    ensures Keyed(t) && t.Keys == m.Keys
  {
    map k | k in m :: Scored(k, m[k].score, m[k])
  }

  function BestRaws(ranked: seq<Scored<Aggregate>>): (lines: seq<string>)
    requires forall i :: 0 <= i < |ranked| ==> ranked[i].item.bestRaw.Some?
    ensures |lines| == |ranked|
  {
    seq(|ranked|, i requires 0 <= i < |ranked| => ranked[i].item.bestRaw.value)
  }

  /**
   * The compact forms of the raws, in order, up to the first one that does
   * not parse, whose exception ends the write.
   */
  function CompactAll(raws: seq<string>, compact: Compact): (out: Output)
    ensures |out.lines| <= |raws|
    ensures forall i :: 0 <= i < |out.lines| ==> compact(raws[i]) == Ok(out.lines[i])
    ensures out.failure.None? ==> |out.lines| == |raws|
    ensures out.failure.Some? ==> |out.lines| < |raws| && compact(raws[|out.lines|]) == Err(out.failure.value)
    decreases |raws|
  {
    if |raws| == 0 then Output([], None)
    else
      var init := CompactAll(raws[..|raws| - 1], compact);
      assert forall i :: 0 <= i < |raws| - 1 ==> raws[..|raws| - 1][i] == raws[i];
      if init.failure.Some? then init
      else match compact(raws[|raws| - 1])
        case Err(e) => Output(init.lines, Some(e))
        case Ok(line) => Output(init.lines + [line], None)
  }

  /** The write loop: one compact line per aggregate in order, stopping after `FINAL_N` or at a payload that does not parse. */
  method WriteTop(sorted: seq<Scored<Aggregate>>, compact: Compact) returns (out: Output)
    requires forall i :: 0 <= i < |sorted| ==> sorted[i].item.bestRaw.Some?
    ensures |out.lines| <= FinalN
    ensures out == CompactAll(BestRaws(Take(sorted, FinalN)), compact)
  {
    var lines := [];
    var count := 0;
    var i := 0;
    while i < |sorted|
      invariant 0 <= i <= |sorted| && count == i < FinalN
      invariant Output(lines, None) == CompactAll(BestRaws(sorted[..i]), compact)
    {
      var compacted := compact(sorted[i].item.bestRaw.value);
      WriteStep(sorted, i, compact);
      if compacted.Err? {
        WriteStops(sorted, i + 1, compact);
        return Output(lines, Some(compacted.error));
      }
      lines := lines + [compacted.value];
      i := i + 1;
      count := count + 1;
      if count == FinalN {
        break;
      }
    }
    assert sorted[..i] == Take(sorted, FinalN);
    return Output(lines, None);
  }

  /** One more aggregate's payload: compacted and appended, or its exception ends the write. */
  lemma WriteStep(sorted: seq<Scored<Aggregate>>, i: nat, compact: Compact)
    requires i < |sorted| && forall j :: 0 <= j < |sorted| ==> sorted[j].item.bestRaw.Some?
    ensures var init := CompactAll(BestRaws(sorted[..i]), compact);
            CompactAll(BestRaws(sorted[..i + 1]), compact) ==
              if init.failure.Some? then init
              else match compact(sorted[i].item.bestRaw.value)
                case Err(e) => Output(init.lines, Some(e))
                case Ok(line) => Output(init.lines + [line], None)
  {
    var done := BestRaws(sorted[..i + 1]);
    assert done[..|done| - 1] == BestRaws(sorted[..i]);
  }

  /** A write stopped by the `n`th payload, within the first `FINAL_N`, is the whole write. */
  lemma WriteStops(sorted: seq<Scored<Aggregate>>, n: nat, compact: Compact)
    requires n <= |sorted| && n <= FinalN && forall j :: 0 <= j < |sorted| ==> sorted[j].item.bestRaw.Some?
    requires CompactAll(BestRaws(sorted[..n]), compact).failure.Some?
    ensures CompactAll(BestRaws(Take(sorted, FinalN)), compact) == CompactAll(BestRaws(sorted[..n]), compact)
  {
    var top := Take(sorted, FinalN);
    assert top[..n] == sorted[..n];
    BestRawsPrefix(top, n);
    CompactPrefix(BestRaws(top), n, compact);
  }

  lemma BestRawsPrefix(ranked: seq<Scored<Aggregate>>, n: nat)
    requires n <= |ranked| && forall i :: 0 <= i < |ranked| ==> ranked[i].item.bestRaw.Some?
    ensures BestRaws(ranked)[..n] == BestRaws(ranked[..n])
  {
  }

  /** Once a prefix of the raws stops at a failure, the raws after it change nothing. */
  lemma {:induction false} CompactPrefix(raws: seq<string>, n: nat, compact: Compact)
    requires n <= |raws| && CompactAll(raws[..n], compact).failure.Some?
    ensures CompactAll(raws, compact) == CompactAll(raws[..n], compact)
    decreases |raws| - n
  {
    if n < |raws| {
      assert raws[..n + 1][..n] == raws[..n];
      CompactPrefix(raws, n + 1, compact);
    } else {
      assert raws[..n] == raws;
    }
  }

  /** `listing` lists the aggregates of `entries`, and every one of them has a payload to write. */
  ghost predicate Ranked(listing: seq<Scored<Aggregate>>, entries: map<string, Aggregate>)
  {
    Lists(listing, Table(entries)) && forall i :: 0 <= i < |Rank(listing)| ==> Rank(listing)[i].item.bestRaw.Some?
  }

  /**
   * What the write loop leaves for a fold: the compact payloads of the top
   * `FINAL_N` aggregates in ranking order, which is the same whatever order
   * the concurrent map lists them in.
   */
  ghost function TopOutput(entries: map<string, Aggregate>, compact: Compact): Output
  {
    if exists listing :: Ranked(listing, entries) then
      var listing :| Ranked(listing, entries);
      CompactAll(BestRaws(Take(Rank(listing), FinalN)), compact)
    else Output([], None)
  }

  /** Any listing of the aggregates gives the output `TopOutput` names. */
  lemma TopOutputOf(listing: seq<Scored<Aggregate>>, entries: map<string, Aggregate>, compact: Compact)
    requires Ranked(listing, entries)
    ensures TopOutput(entries, compact) == CompactAll(BestRaws(Take(Rank(listing), FinalN)), compact)
  {
    forall other | Ranked(other, entries)
      ensures Rank(other) == Rank(listing)
    {
      RankingUnique(other, listing, Table(entries));
    }
  }

  /** `main`: argument check, one fold per query, ranking and the top-`FINAL_N` write. */
  method SearcherMain(args: seq<string>, search: Search, compact: Compact) returns (outcome: SearchOutcome)
    ensures |args| < 2 || |args| - 1 > MaxQueries <==> outcome == Exit(1)
    ensures 2 <= |args| <= MaxQueries + 1 ==>
      var queries := args[..|args| - 1];
      match FirstNone(queries, search)
      case Some(i) => outcome == QueryFailed(queries[i])
      case None =>
        var entries := FoldAll(map[], HitLists(queries, search, |queries|));
        var out := TopOutput(entries, compact);
        (exists listing :: Ranked(listing, entries)) &&
        outcome == if out.failure.None? then Written(args[|args| - 1], out.lines)
                   else WriteFailed(args[|args| - 1], out.lines, out.failure.value)
  {
    if |args| < 2 {
      return Exit(1);
    }
    if |args| - 1 > MaxQueries {
      return Exit(1);
    }
    var outPath := args[|args| - 1];
    var queries := args[..|args| - 1];
    var failed, entries := FoldQueries(queries, search);
    if failed.Some? {
      return QueryFailed(queries[failed.value]);
    }
    var out := RankedLines(HitLists(queries, search, |queries|), entries, compact);
    ghost var listing :| Ranked(listing, entries) && out == CompactAll(BestRaws(Take(Rank(listing), FinalN)), compact);
    TopOutputOf(listing, entries, compact);
    if out.failure.Some? {
      return WriteFailed(outPath, out.lines, out.failure.value);
    }
    return Written(outPath, out.lines);
  }

  /** Folding one more query's hits extends the fold of the earlier ones. */
  lemma FoldOneMore(queries: seq<string>, search: Search, i: nat)
    requires i < |queries| && forall j :: 0 <= j <= i ==> search(queries[j]).Some?
    ensures FoldAll(map[], HitLists(queries, search, i + 1)) ==
            FoldQuery(FoldAll(map[], HitLists(queries, search, i)), Take(search(queries[i]).value, TopNPerQuery))
  {
    var done := HitLists(queries, search, i + 1);
    assert done[..i] == HitLists(queries, search, i);
  }

  /** The query loop of `main`: stop at the first query whose search fails, else fold every query's hits. */
  method FoldQueries(queries: seq<string>, search: Search) returns (failed: Option<nat>, entries: map<string, Aggregate>)
    ensures failed == FirstNone(queries, search)
    ensures failed.None? ==> entries == FoldAll(map[], HitLists(queries, search, |queries|))
  {
    var aggMap := new AggMap();
    for i := 0 to |queries|
      invariant forall j :: 0 <= j < i ==> search(queries[j]).Some?
      invariant aggMap.entries == FoldAll(map[], HitLists(queries, search, i))
    {
      var result := search(queries[i]);
      if result.None? {
        assert FirstNone(queries, search) == Some(i);
        return Some(i), aggMap.entries;
      }
      FoldOneMore(queries, search, i);
      RunSingleQuery(Take(result.value, TopNPerQuery), aggMap);
    }
    return None, aggMap.entries;
  }

  /** The end of `main`: list the aggregates, rank them and keep the best raw line of the top `FINAL_N`. */
  method RankedLines(all: seq<seq<Hit>>, entries: map<string, Aggregate>, compact: Compact) returns (out: Output)
    requires entries == FoldAll(map[], all)
    ensures exists listing :: Ranked(listing, entries) && out == CompactAll(BestRaws(Take(Rank(listing), FinalN)), compact)
  {
    var sorted := ListEntries(Table(entries));
    forall i | 0 <= i < |sorted| ensures sorted[i].item.bestRaw.Some? {
      FoldAllAt(all, sorted[i].key);
    }
    RankLePreorder<Aggregate>();
    Sorting.SortByPermutes(sorted, (a: Scored<Aggregate>, b: Scored<Aggregate>) => RankLe(a, b));
    var ranked := Rank(sorted);
    forall i | 0 <= i < |ranked| ensures ranked[i].item.bestRaw.Some? {
      assert ranked[i] in multiset(sorted);
    }
    out := WriteTop(ranked, compact);
    assert Ranked(sorted, entries);
  }
}
