// Lexicographic order on strings by character code. For the ASCII and
// Unicode keys used here it coincides with the unsigned byte order of their
// UTF-8 encodings, which is how Lucene orders terms.
module LexOrder {
  predicate LexLe(a: string, b: string)
    decreases |a|
  {
    |a| == 0 || (|b| > 0 && (a[0] < b[0] || (a[0] == b[0] && LexLe(a[1..], b[1..]))))
  }

  lemma {:induction false} LexReflexive(a: string)
    ensures LexLe(a, a)
    decreases |a|
  {
    if |a| > 0 { LexReflexive(a[1..]); }
  }

  lemma {:induction false} LexTotal(a: string, b: string)
    ensures LexLe(a, b) || LexLe(b, a)
    decreases |a|
  {
    if |a| > 0 && |b| > 0 && a[0] == b[0] { LexTotal(a[1..], b[1..]); }
  }

  lemma {:induction false} LexAntisymmetric(a: string, b: string)
    requires LexLe(a, b) && LexLe(b, a)
    ensures a == b
    decreases |a|
  {
    if |a| > 0 {
      LexAntisymmetric(a[1..], b[1..]);
      assert a == [a[0]] + a[1..] && b == [b[0]] + b[1..];
    }
  }

  lemma {:induction false} LexTransitive(a: string, b: string, c: string)
    requires LexLe(a, b) && LexLe(b, c)
    ensures LexLe(a, c)
    decreases |a|
  {
    if |a| > 0 && a[0] == b[0] && b[0] == c[0] { LexTransitive(a[1..], b[1..], c[1..]); }
  }

  /** A prefix is never after the string it starts. */
  lemma {:induction false} PrefixLexLe(p: string, s: string)
    requires p <= s
    ensures LexLe(p, s)
    decreases |p|
  {
    if |p| > 0 { PrefixLexLe(p[1..], s[1..]); }
  }

  /**
   * The strings that start with `p` form an interval of the order: anything
   * between `p` and a string that starts with `p` starts with `p` too.
   */
  lemma {:induction false} PrefixInterval(p: string, k: string, s: string)
    requires LexLe(p, k) && LexLe(k, s) && p <= s
    ensures p <= k
    decreases |p|
  {
    if |p| > 0 {
      assert |k| > 0;
      if k[0] == p[0] {
        PrefixInterval(p[1..], k[1..], s[1..]);
        assert k == [k[0]] + k[1..];
      }
    }
  }

  lemma {:induction false} NotPrefixAfter(p: string, k: string)
    requires LexLe(p, k) && !(p <= k)
    ensures forall s :: LexLe(k, s) ==> !(p <= s)
  {
    forall s | LexLe(k, s) ensures !(p <= s) {
      if p <= s { PrefixInterval(p, k, s); }
    }
  }
}
