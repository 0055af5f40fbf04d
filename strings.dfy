// Searching, slicing and joining over strings (`seq<char>`), shared by the
// Java and Python text handling of the model.
module Strings {
  import opened Wrappers

  /** `sub` occurs in `s` starting at position `i`. */
  predicate OccursAt<T(==)>(s: seq<T>, sub: seq<T>, i: int)
  {
    0 <= i && i + |sub| <= |s| && s[i..i + |sub|] == sub
  }

  /** `sub` occurs somewhere in `s` (Python's `sub in s`, Java's `contains`). */
  predicate Contains<T(==)>(s: seq<T>, sub: seq<T>)
  {
    exists i :: 0 <= i <= |s| && OccursAt(s, sub, i)
  }

  /** Index of the first occurrence of `sub` in `s` (`indexOf` / `str.find`). */
  function Find<T(==)>(s: seq<T>, sub: seq<T>): (r: Option<nat>)
    ensures r.Some? ==> OccursAt(s, sub, r.value)
    ensures r.Some? ==> forall j :: 0 <= j < r.value ==> !OccursAt(s, sub, j)
    ensures r.None? ==> forall j :: !OccursAt(s, sub, j)
  {
    FindFrom(s, sub, 0)
  }

  /** Index of the first occurrence of `sub` in `s` at or after `from`. */
  function FindFrom<T(==)>(s: seq<T>, sub: seq<T>, from: nat): (r: Option<nat>)
    ensures r.Some? ==> from <= r.value && OccursAt(s, sub, r.value)
    ensures r.Some? ==> forall j :: from <= j < r.value ==> !OccursAt(s, sub, j)
    ensures r.None? ==> forall j :: from <= j ==> !OccursAt(s, sub, j)
    decreases |s| - from
  {
    if from + |sub| > |s| then None
    else if s[from..from + |sub|] == sub then Some(from)
    else FindFrom(s, sub, from + 1)
  }

  /** An occurrence with none before it is the one `Find` returns. */
  lemma FindIsFirst<T>(s: seq<T>, sub: seq<T>, i: nat)
    requires OccursAt(s, sub, i) && forall j :: 0 <= j < i ==> !OccursAt(s, sub, j)
    ensures Find(s, sub) == Some(i)
  {
  }

  lemma FindContains<T>(s: seq<T>, sub: seq<T>)
    ensures Find(s, sub).Some? <==> Contains(s, sub)
  {
    if Find(s, sub).Some? {
      assert OccursAt(s, sub, Find(s, sub).value);
    }
  }

  /** Index of the first occurrence of `c` in `s` (`indexOf`, `list.index`). */
  function IndexOf<T(==)>(s: seq<T>, c: T): (r: Option<nat>)
    ensures r.Some? ==> r.value < |s| && s[r.value] == c && c !in s[..r.value]
    ensures r.None? <==> c !in s
  {
    if |s| == 0 then None
    else if s[0] == c then Some(0)
    else match IndexOf(s[1..], c)
      case None => None
      case Some(i) =>
        assert s[..i + 1] == [s[0]] + s[1..][..i];
        Some(i + 1)
  }

  /** The part of `s` before the first `c`, or all of `s` (Python's `s.split(c)[0]`). */
  function Before(s: string, c: char): (r: string)
    ensures r <= s && c !in r
    ensures c !in s ==> r == s
    ensures c in s ==> |r| < |s| && s[|r|] == c
  {
    match IndexOf(s, c)
    case None => s
    case Some(i) => s[..i]
  }

  /** Joins `parts` with `sep` between consecutive elements (`String.join`, `str.join`). */
  function Join(sep: string, parts: seq<string>): (r: string)
    ensures |parts| == 1 ==> r == parts[0]
    decreases |parts|
  {
    if |parts| == 0 then ""
    else if |parts| == 1 then parts[0]
    else Join(sep, parts[..|parts| - 1]) + sep + parts[|parts| - 1]
  }

  /** `Join` of the parts and one more. */
  lemma JoinSnoc(sep: string, ps: seq<string>, p: string)
    ensures Join(sep, ps + [p]) == if ps == [] then p else Join(sep, ps) + sep + p
  {
    assert (ps + [p])[..|ps|] == ps;
  }

  /** `Join` of a first part and the rest. */
  lemma {:induction false} JoinCons(sep: string, p: string, ps: seq<string>)
    requires |ps| >= 1
    ensures Join(sep, [p] + ps) == p + sep + Join(sep, ps)
    decreases |ps|
  {
    if |ps| == 1 {
      assert [p] + ps == [p, ps[0]];
      assert ([p] + ps)[..1] == [p];
    } else {
      var init := ps[..|ps| - 1];
      assert ([p] + ps)[..|ps|] == [p] + init;
      JoinCons(sep, p, init);
    }
  }

  /** An occurrence in a part is an occurrence in a text that extends it on either side. */
  lemma OccursWithin<T>(a: seq<T>, m: seq<T>, b: seq<T>, sub: seq<T>, k: nat)
    requires OccursAt(m, sub, k)
    ensures OccursAt(a + m + b, sub, |a| + k)
  {
    assert (a + m + b)[|a| + k..|a| + k + |sub|] == m[k..k + |sub|];
  }

  /** Every part occurs in the joined text. */
  lemma {:induction false} JoinContains(sep: string, parts: seq<string>, i: nat)
    requires i < |parts|
    ensures Contains(Join(sep, parts), parts[i])
    decreases |parts|
  {
    var p := parts[i];
    assert OccursAt(p, p, 0);
    if |parts| == 1 {
      assert OccursAt(Join(sep, parts), p, 0);
    } else if i == |parts| - 1 {
      OccursWithin(Join(sep, parts[..i]) + sep, p, [], p, 0);
      assert Join(sep, parts[..i]) + sep + p + [] == Join(sep, parts);
    } else {
      var init := parts[..|parts| - 1];
      assert init[i] == p;
      JoinContains(sep, init, i);
      var k :| 0 <= k <= |Join(sep, init)| && OccursAt(Join(sep, init), p, k);
      OccursWithin([], Join(sep, init), sep + parts[|parts| - 1], p, k);
      assert [] + Join(sep, init) + (sep + parts[|parts| - 1]) == Join(sep, parts);
    }
  }

  /** A text holding `sub` still holds it once extended on either side. */
  lemma ContainsWithin<T>(a: seq<T>, m: seq<T>, b: seq<T>, sub: seq<T>)
    requires Contains(m, sub)
    ensures Contains(a + m + b, sub)
  {
    var k :| 0 <= k <= |m| && OccursAt(m, sub, k);
    OccursWithin(a, m, b, sub, k);
  }

  /** A text holding `b` holds every prefix of `b`. */
  lemma ContainsPrefix<T>(s: seq<T>, b: seq<T>, p: seq<T>)
    requires Contains(s, b) && p <= b
    ensures Contains(s, p)
  {
    var k :| 0 <= k <= |s| && OccursAt(s, b, k);
    assert s[k..k + |p|] == b[..|p|];
    assert OccursAt(s, p, k);
  }

  /** Concatenation of all `parts` in order (`list.extend` repeated, `"".join`). */
  function Concat<T>(parts: seq<seq<T>>): seq<T>
    decreases |parts|
  {
    if |parts| == 0 then [] else Concat(parts[..|parts| - 1]) + parts[|parts| - 1]
  }

  /** Concatenating two runs of parts is concatenating their concatenations. */
  lemma {:induction false} ConcatAppend<T>(a: seq<seq<T>>, b: seq<seq<T>>)
    ensures Concat(a + b) == Concat(a) + Concat(b)
    decreases |b|
  {
    if |b| == 0 {
      assert a + b == a;
    } else {
      var init := b[..|b| - 1];
      ConcatAppend(a, init);
      assert (a + b)[..|a + b| - 1] == a + init;
      assert (Concat(a) + Concat(init)) + b[|b| - 1] == Concat(a) + (Concat(init) + b[|b| - 1]);
    }
  }

  /** ASCII upper-case letters become lower-case; everything else is kept. */
  function LowerAscii(s: string): (r: string)
    ensures |r| == |s|
    ensures forall i :: 0 <= i < |s| ==> r[i] == LowerChar(s[i])
  {
    seq(|s|, i requires 0 <= i < |s| => LowerChar(s[i]))
  }

  function LowerChar(c: char): char
  {
    if 'A' <= c <= 'Z' then (c as int + 32) as char else c
  }

  function Min(a: int, b: int): int { if a <= b then a else b }

  function Max(a: int, b: int): int { if a >= b then a else b }

  /** The first `n` elements of `s`, or all of it (`limit(n)`, `[:n]`). */
  function Take<T>(s: seq<T>, n: nat): (r: seq<T>)
    ensures |r| == Min(n, |s|) && r <= s
  {
    if n <= |s| then s[..n] else s
  }

  /** Adding to an insertion-ordered set (`LinkedHashSet.add`): a new element goes at the end, a present one changes nothing. */
  function AddNew<T(==)>(acc: seq<T>, x: T): (r: seq<T>)
    ensures x in acc ==> r == acc
    ensures x !in acc ==> r == acc + [x]
  {
    if x in acc then acc else acc + [x]
  }

  /** Insertion-ordered set of `xs`: each element once, at its first appearance. */
  function Dedup<T(==)>(xs: seq<T>): seq<T>
  {
    if |xs| == 0 then [] else AddNew(Dedup(xs[..|xs| - 1]), xs[|xs| - 1])
  }

  /** Extending the input by one element adds that element if it is new. */
  lemma DedupSnoc<T>(xs: seq<T>, i: nat)
    requires i < |xs|
    ensures Dedup(xs[..i + 1]) == AddNew(Dedup(xs[..i]), xs[i])
  {
    assert xs[..i + 1][..i] == xs[..i];
  }

  /** The set holds exactly the elements of `xs`, and no more of them than `xs` has. */
  lemma {:induction false} DedupMembers<T>(xs: seq<T>)
    ensures |Dedup(xs)| <= |xs|
    ensures forall x :: x in Dedup(xs) <==> x in xs
    decreases |xs|
  {
    if |xs| > 0 {
      var init := xs[..|xs| - 1];
      DedupMembers(init);
      assert xs == init + [xs[|xs| - 1]];
    }
  }

  /** No element appears twice. */
  lemma {:induction false} DedupDistinct<T>(xs: seq<T>)
    ensures forall a, b | 0 <= a < b < |Dedup(xs)| :: Dedup(xs)[a] != Dedup(xs)[b]
    decreases |xs|
  {
    if |xs| > 0 {
      DedupDistinct(xs[..|xs| - 1]);
    }
  }

  /** The first element of `xs` comes first. */
  lemma {:induction false} DedupFirst<T>(xs: seq<T>)
    requires |xs| > 0
    ensures |Dedup(xs)| > 0 && Dedup(xs)[0] == xs[0]
    decreases |xs|
  {
    var init := xs[..|xs| - 1];
    if |init| > 0 {
      DedupFirst(init);
    }
  }
}
