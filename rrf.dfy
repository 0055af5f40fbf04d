// Reciprocal rank fusion (Cormack, Clarke and Buettcher, SIGIR 2009): a
// document ranked r by a query contributes 1/(k + r); all the searchers of
// the repository use k = 60.
module Rrf {
  const K: real := 60.0

  function Reciprocal(k: real, rank: int): (r: real)
    requires k + rank as real > 0.0
    ensures r > 0.0
  {
    1.0 / (k + rank as real)
  }

  lemma ReciprocalDecreasing(k: real, r1: int, r2: int)
    requires k + r1 as real > 0.0 && r1 <= r2
    ensures Reciprocal(k, r2) <= Reciprocal(k, r1)
  {
    var a, b := k + r1 as real, k + r2 as real;
    assert 1.0 / b <= 1.0 / a by {
      assert a <= b;
      assert (1.0 / b) * a <= (1.0 / b) * b;
    }
  }

  lemma ReciprocalStrictlyDecreasing(k: real, r1: int, r2: int)
    requires k + r1 as real > 0.0 && r1 < r2
    ensures Reciprocal(k, r2) < Reciprocal(k, r1)
  {
    var a, b := k + r1 as real, k + r2 as real;
    var x, y := 1.0 / a, 1.0 / b;
    assert x * a == 1.0 && y * b == 1.0;
    assert y * a < y * b;
    assert y * a < x * a;
  }

  predicate RanksFit(ranks: map<string, int>, k: real)
  {
    forall q :: q in ranks ==> k + ranks[q] as real > 0.0
  }

  /** The sum of 1/(k + r) over the ranks stored in a map, in any order. */
  ghost function RankSum(ranks: map<string, int>, k: real): real
    requires RanksFit(ranks, k)
    decreases |ranks|
  {
    if |ranks| == 0 then 0.0
    else
      var q := Pick(ranks);
      Reciprocal(k, ranks[q]) + RankSum(ranks - {q}, k)
  }

  ghost function Pick(ranks: map<string, int>): (q: string)
    requires |ranks| > 0
    ensures q in ranks
  {
    assert ranks.Keys != {} by { assert |ranks.Keys| == |ranks|; }
    var q :| q in ranks; q
  }

  /** The sum can be split at any stored query id. */
  lemma {:induction false} RankSumRemove(ranks: map<string, int>, k: real, q: string)
    requires RanksFit(ranks, k) && q in ranks
    ensures RankSum(ranks, k) == Reciprocal(k, ranks[q]) + RankSum(ranks - {q}, k)
    decreases |ranks|
  {
    var p := Pick(ranks);
    if p != q {
      var rest := ranks - {p};
      assert |rest| == |ranks| - 1;
      RankSumRemove(rest, k, q);
      assert rest - {q} == (ranks - {q}) - {p};
      assert |ranks - {q}| == |ranks| - 1;
      RankSumRemove(ranks - {q}, k, p);
    }
  }

  /** Setting the rank of one query id changes the sum by that id's term only. */
  lemma RankSumUpdate(ranks: map<string, int>, k: real, q: string, r: int)
    requires RanksFit(ranks, k) && k + r as real > 0.0
    ensures RanksFit(ranks[q := r], k)
    ensures RankSum(ranks[q := r], k) ==
            RankSum(ranks - {q}, k) + Reciprocal(k, r)
  {
    var m := ranks[q := r];
    RankSumRemove(m, k, q);
    assert m - {q} == ranks - {q};
  }
}
