// Sums and maxima of a real-valued function over a sequence, and the fact
// that neither depends on the order of the sequence; list comprehensions
// (flattening, numbering) and natural-number sums over a sequence.
module Folds {
  function SumOf<T>(s: seq<T>, f: T -> real): real
    decreases |s|
  {
    if |s| == 0 then 0.0 else SumOf(s[..|s| - 1], f) + f(s[|s| - 1])
  }

  /** The largest of 0 and the values of `f` over `s`. */
  function MaxOf<T>(s: seq<T>, f: T -> real): (r: real)
    ensures r >= 0.0
    ensures forall i :: 0 <= i < |s| ==> f(s[i]) <= r
    ensures r > 0.0 ==> exists i :: 0 <= i < |s| && f(s[i]) == r
    decreases |s|
  {
    if |s| == 0 then 0.0
    else
      var m := MaxOf(s[..|s| - 1], f);
      assert forall i :: 0 <= i < |s| - 1 ==> s[..|s| - 1][i] == s[i];
      if f(s[|s| - 1]) > m then f(s[|s| - 1]) else m
  }

  lemma {:induction false} SumOfAppend<T>(a: seq<T>, b: seq<T>, f: T -> real)
    ensures SumOf(a + b, f) == SumOf(a, f) + SumOf(b, f)
    decreases |b|
  {
    if |b| == 0 {
      assert a + b == a;
    } else {
      assert (a + b)[..|a + b| - 1] == a + b[..|b| - 1];
      SumOfAppend(a, b[..|b| - 1], f);
    }
  }

  lemma {:induction false} MaxOfAppend<T>(a: seq<T>, b: seq<T>, f: T -> real)
    ensures MaxOf(a + b, f) == (if MaxOf(a, f) >= MaxOf(b, f) then MaxOf(a, f) else MaxOf(b, f))
    decreases |b|
  {
    if |b| == 0 {
      assert a + b == a;
    } else {
      assert (a + b)[..|a + b| - 1] == a + b[..|b| - 1];
      MaxOfAppend(a, b[..|b| - 1], f);
    }
  }

  lemma SplitAt<T>(b: seq<T>, j: int)
    requires 0 <= j < |b|
    ensures b == b[..j] + [b[j]] + b[j + 1..]
    ensures multiset(b) == multiset(b[..j] + b[j + 1..]) + multiset{b[j]}
  {
    assert b == b[..j] + [b[j]] + b[j + 1..];
    assert b[..j] + [b[j]] + b[j + 1..] == (b[..j] + b[j + 1..])[..j] + [b[j]] + (b[..j] + b[j + 1..])[j..];
  }

  /** The last element of `a` sits at some `j` in its permutation `b`; without them the two are still permutations. */
  lemma MatchLast<T>(a: seq<T>, b: seq<T>) returns (j: nat)
    requires multiset(a) == multiset(b) && |a| > 0
    ensures j < |b| && b[j] == a[|a| - 1]
    ensures b == b[..j] + [b[j]] + b[j + 1..]
    ensures multiset(a[..|a| - 1]) == multiset(b[..j] + b[j + 1..])
  {
    var x := a[|a| - 1];
    DropLast(a);
    assert x in multiset(b);
    j :| 0 <= j < |b| && b[j] == x;
    SplitAt(b, j);
    Cancel(multiset(a[..|a| - 1]), multiset(b[..j] + b[j + 1..]), x);
  }

  /** A sequence's elements are those of its front and its last one. */
  lemma DropLast<T>(a: seq<T>)
    requires |a| > 0
    ensures multiset(a) == multiset(a[..|a| - 1]) + multiset{a[|a| - 1]}
  {
    assert a == a[..|a| - 1] + [a[|a| - 1]];
  }

  /** The same element added to two multisets that become equal: they were equal. */
  lemma Cancel<T>(m: multiset<T>, n: multiset<T>, x: T)
    requires m + multiset{x} == n + multiset{x}
    ensures m == n
  {
    assert m == m + multiset{x} - multiset{x};
    assert n == n + multiset{x} - multiset{x};
  }

  lemma {:induction false} SumOfPermutation<T>(a: seq<T>, b: seq<T>, f: T -> real)
    requires multiset(a) == multiset(b)
    ensures SumOf(a, f) == SumOf(b, f)
    decreases |a|
  {
    assert |a| == |multiset(a)| == |multiset(b)| == |b|;
    if |a| > 0 {
      var j := MatchLast(a, b);
      var x, init := b[j], a[..|a| - 1];
      assert a == init + [x];
      SumOfPermutation(init, b[..j] + b[j + 1..], f);
      SumOfAppend(init, [x], f);
      SumOfAppend(b[..j], [x], f);
      SumOfAppend(b[..j] + [x], b[j + 1..], f);
      SumOfAppend(b[..j], b[j + 1..], f);
    }
  }

  lemma {:induction false} MaxOfPermutation<T>(a: seq<T>, b: seq<T>, f: T -> real)
    requires multiset(a) == multiset(b)
    ensures MaxOf(a, f) == MaxOf(b, f)
    decreases |a|
  {
    assert |a| == |multiset(a)| == |multiset(b)| == |b|;
    if |a| > 0 {
      var j := MatchLast(a, b);
      var x, init := b[j], a[..|a| - 1];
      assert a == init + [x];
      MaxOfPermutation(init, b[..j] + b[j + 1..], f);
      MaxOfAppend(init, [x], f);
      MaxOfAppend(b[..j], [x], f);
      MaxOfAppend(b[..j] + [x], b[j + 1..], f);
      MaxOfAppend(b[..j], b[j + 1..], f);
    }
  }

  /** The lists `f` gives for each element, concatenated in order. */
  function FlatMap<A, B>(xs: seq<A>, f: A -> seq<B>): seq<B>
    decreases |xs|
  {
    if |xs| == 0 then [] else FlatMap(xs[..|xs| - 1], f) + f(xs[|xs| - 1])
  }

  lemma {:induction false} FlatMapAppend<A, B>(xs: seq<A>, ys: seq<A>, f: A -> seq<B>)
    ensures FlatMap(xs + ys, f) == FlatMap(xs, f) + FlatMap(ys, f)
    decreases |ys|
  {
    if |ys| == 0 {
      assert xs + ys == xs;
    } else {
      var n := |ys| - 1;
      assert (xs + ys)[..|xs + ys| - 1] == xs + ys[..n];
      FlatMapAppend(xs, ys[..n], f);
    }
  }

  /** One more element adds its list at the end. */
  lemma FlatMapSnoc<A, B>(xs: seq<A>, x: A, f: A -> seq<B>)
    ensures FlatMap(xs + [x], f) == FlatMap(xs, f) + f(x)
  {
    assert (xs + [x])[..|xs|] == xs;
  }

  /** An element of the result comes from some element's list. */
  lemma {:induction false} FlatMapIn<A, B>(xs: seq<A>, f: A -> seq<B>, y: B)
    ensures y in FlatMap(xs, f) <==> exists i | 0 <= i < |xs| :: y in f(xs[i])
    decreases |xs|
  {
    if |xs| > 0 {
      var n := |xs| - 1;
      var init := xs[..n];
      FlatMapIn(init, f, y);
      if y in FlatMap(init, f) {
        var i :| 0 <= i < n && y in f(init[i]);
        assert init[i] == xs[i];
      } else if y !in f(xs[n]) {
        forall i | 0 <= i < |xs|
          ensures y !in f(xs[i])
        {
          if i < n {
            assert init[i] == xs[i];
          } else {
            assert i == n;
          }
        }
      }
    }
  }

  /** `[f(i, x) for i, x in enumerate(xs)]`. */
  function Numbered<A, B>(xs: seq<A>, f: (nat, A) -> B): seq<B>
    decreases |xs|
  {
    if |xs| == 0 then [] else Numbered(xs[..|xs| - 1], f) + [f(|xs| - 1, xs[|xs| - 1])]
  }

  lemma {:induction false} NumberedAt<A, B>(xs: seq<A>, f: (nat, A) -> B)
    ensures |Numbered(xs, f)| == |xs|
    ensures forall i | 0 <= i < |xs| :: Numbered(xs, f)[i] == f(i, xs[i])
    decreases |xs|
  {
    if |xs| > 0 {
      var n := |xs| - 1;
      NumberedAt(xs[..n], f);
    }
  }

  /** The sum of `w` over `xs`. */
  function Total<A>(xs: seq<A>, w: A -> nat): nat
    decreases |xs|
  {
    if |xs| == 0 then 0 else Total(xs[..|xs| - 1], w) + w(xs[|xs| - 1])
  }
}
