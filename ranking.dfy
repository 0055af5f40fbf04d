// Ranking of fused results: by score, highest first, then by key. The Java
// sources sort the values of a hash map by score alone, so equal scores come
// out in hash-map order; the key is the fixed tie-break of this model.
module Ranking {
  import opened LexOrder
  import opened Sorting
  import opened Strings

  datatype Scored<V> = Scored(key: string, score: real, item: V)

  predicate RankLe<V>(a: Scored<V>, b: Scored<V>)
  {
    a.score > b.score || (a.score == b.score && LexLe(a.key, b.key))
  }

  lemma RankLePreorder<V(!new)>()
    ensures TotalPreorder((a: Scored<V>, b: Scored<V>) => RankLe(a, b))
  {
    forall a: Scored<V>, b: Scored<V> ensures RankLe(a, b) || RankLe(b, a) {
      LexTotal(a.key, b.key);
    }
    forall a: Scored<V>, b: Scored<V>, c: Scored<V> | RankLe(a, b) && RankLe(b, c) ensures RankLe(a, c) {
      if a.score == b.score == c.score { LexTransitive(a.key, b.key, c.key); }
    }
  }

  function Rank<V>(entries: seq<Scored<V>>): seq<Scored<V>>
  {
    SortBy(entries, (a: Scored<V>, b: Scored<V>) => RankLe(a, b))
  }

  /** `s` lists every entry of `m` exactly once, each under its own key. */
  ghost predicate Lists<V>(s: seq<Scored<V>>, m: map<string, Scored<V>>)
  {
    (forall i :: 0 <= i < |s| ==> s[i].key in m && m[s[i].key] == s[i]) &&
    (forall k :: k in m ==> exists i :: 0 <= i < |s| && s[i].key == k) &&
    (forall i, j :: 0 <= i < j < |s| ==> s[i].key != s[j].key)
  }

  /** Every entry among the best `n` of a listing of `m` is `m`'s entry under its own key. */
  lemma TopListed<V>(s: seq<Scored<V>>, m: map<string, Scored<V>>, n: nat)
    requires Lists(s, m)
    ensures forall i :: 0 <= i < |Take(Rank(s), n)| ==>
              Take(Rank(s), n)[i].key in m && m[Take(Rank(s), n)[i].key] == Take(Rank(s), n)[i]
  {
    var ranked := Rank(s);
    SortByPermutes(s, (a: Scored<V>, b: Scored<V>) => RankLe(a, b));
    forall i | 0 <= i < |Take(ranked, n)|
      ensures Take(ranked, n)[i].key in m && m[Take(ranked, n)[i].key] == Take(ranked, n)[i]
    {
      assert Take(ranked, n)[i] == ranked[i];
      assert ranked[i] in multiset(s);
    }
  }

  predicate Keyed<V>(m: map<string, Scored<V>>)
  {
    forall k :: k in m ==> m[k].key == k
  }

  /** Lists the entries of a map in an arbitrary order (`new ArrayList<>(map.values())`). */
  method ListEntries<V>(m: map<string, Scored<V>>) returns (s: seq<Scored<V>>)
    requires Keyed(m)
    ensures Lists(s, m)
  {
    s := [];
    var rest := m.Keys;
    while rest != {}
      invariant rest <= m.Keys
      invariant forall i :: 0 <= i < |s| ==> s[i].key in m && m[s[i].key] == s[i] && s[i].key !in rest
      invariant forall k :: k in m ==> k in rest || exists i :: 0 <= i < |s| && s[i].key == k
      invariant forall i, j :: 0 <= i < j < |s| ==> s[i].key != s[j].key
      decreases rest
    {
      var k :| k in rest;
      ghost var before := s;
      s := s + [m[k]];
      rest := rest - {k};
      assert s[|s| - 1].key == k;
      assert forall i :: 0 <= i < |before| ==> s[i] == before[i];
    }
  }

  lemma ListsPermutation<V>(s1: seq<Scored<V>>, s2: seq<Scored<V>>, m: map<string, Scored<V>>)
    requires Lists(s1, m) && Lists(s2, m)
    ensures multiset(s1) == multiset(s2)
  {
    forall x ensures x in s1 <==> x in s2 {
      if x in s1 {
        var i :| 0 <= i < |s1| && s1[i] == x;
        var j :| 0 <= j < |s2| && s2[j].key == x.key;
        assert s2[j] == m[x.key] == x;
      }
      if x in s2 {
        var i :| 0 <= i < |s2| && s2[i] == x;
        var j :| 0 <= j < |s1| && s1[j].key == x.key;
        assert s1[j] == m[x.key] == x;
      }
    }
    SameElementsPermutation(s1, s2);
  }

  /**
   * The ranking of a map does not depend on the order in which its entries
   * were listed: the tie-break makes it a function of the map alone.
   */
  lemma RankingUnique<V(!new)>(s1: seq<Scored<V>>, s2: seq<Scored<V>>, m: map<string, Scored<V>>)
    requires Lists(s1, m) && Lists(s2, m)
    ensures Rank(s1) == Rank(s2)
  {
    var le := (a: Scored<V>, b: Scored<V>) => RankLe(a, b);
    RankLePreorder<V>();
    ListsPermutation(s1, s2, m);
    SortByPermutes(s1, le);
    SortByPermutes(s2, le);
    SortBySorted(s1, le);
    SortBySorted(s2, le);
    var r1 := Rank(s1);
    forall x, y | x in r1 && y in r1 && le(x, y) && le(y, x) ensures x == y {
      assert x in multiset(s1) && y in multiset(s1);
      LexAntisymmetric(x.key, y.key);
      assert x == m[x.key] && y == m[y.key];
    }
    SortedUnique(r1, Rank(s2), le);
  }

  /**
   * The ranking lists the same entries, highest score first, and keeps
   * everything a top-N cut leaves out at or below everything it keeps.
   */
  lemma RankingOrdered<V(!new)>(s: seq<Scored<V>>, n: nat)
    ensures multiset(Rank(s)) == multiset(s)
    ensures forall i, j :: 0 <= i < j < |Rank(s)| ==> Rank(s)[i].score >= Rank(s)[j].score
    ensures forall x, y :: x in Take(Rank(s), n) && y in Rank(s) && y !in Take(Rank(s), n) ==> x.score >= y.score
  {
    var le := (a: Scored<V>, b: Scored<V>) => RankLe(a, b);
    RankLePreorder<V>();
    SortByPermutes(s, le);
    SortBySorted(s, le);
    var r := Rank(s);
    forall x, y | x in Take(r, n) && y in r && y !in Take(r, n) ensures x.score >= y.score {
      var i :| 0 <= i < |Take(r, n)| && Take(r, n)[i] == x;
      var j :| 0 <= j < |r| && r[j] == y;
      assert forall t :: 0 <= t < |Take(r, n)| ==> Take(r, n)[t] == r[t];
      assert j >= |Take(r, n)|;
      assert RankLe(r[i], r[j]);
    }
  }
}
