// Optional values and results with an error side, used across the model
// for Java nulls / Python None and for exceptions raised by the source.
module Wrappers {
  datatype Option<T> = None | Some(value: T)

  datatype Result<T, E> = Ok(value: T) | Err(error: E)

  /** Index of the first element that `f` maps to None. */
  function FirstNone<A, B>(xs: seq<A>, f: A -> Option<B>): (r: Option<nat>)
    ensures r.Some? ==> r.value < |xs| && f(xs[r.value]).None?
    ensures r.Some? ==> forall j :: 0 <= j < r.value ==> f(xs[j]).Some?
    ensures r.None? ==> forall j :: 0 <= j < |xs| ==> f(xs[j]).Some?
    decreases |xs|
  {
    if |xs| == 0 then None
    else match FirstNone(xs[..|xs| - 1], f)
      case Some(i) => Some(i)
      case None =>
        assert forall j :: 0 <= j < |xs| - 1 ==> xs[..|xs| - 1][j] == xs[j];
        if f(xs[|xs| - 1]).None? then Some(|xs| - 1) else None
  }

  /** Index of the first element that `f` maps to an error. */
  function FirstErr<A, B, E>(xs: seq<A>, f: A -> Result<B, E>): (r: Option<nat>)
    ensures r.Some? ==> r.value < |xs| && f(xs[r.value]).Err?
    ensures r.Some? ==> forall j :: 0 <= j < r.value ==> f(xs[j]).Ok?
    ensures r.None? ==> forall j :: 0 <= j < |xs| ==> f(xs[j]).Ok?
    decreases |xs|
  {
    if |xs| == 0 then None
    else match FirstErr(xs[..|xs| - 1], f)
      case Some(i) => Some(i)
      case None =>
        assert forall j :: 0 <= j < |xs| - 1 ==> xs[..|xs| - 1][j] == xs[j];
        if f(xs[|xs| - 1]).Err? then Some(|xs| - 1) else None
  }

  lemma FirstErrAt<A, B, E>(xs: seq<A>, f: A -> Result<B, E>, i: nat)
    requires i < |xs| && f(xs[i]).Err?
    requires forall j :: 0 <= j < i ==> f(xs[j]).Ok?
    ensures FirstErr(xs, f) == Some(i)
  {
    var r := FirstErr(xs, f);
    assert r.Some?;
    assert r.value >= i;
    assert r.value <= i;
  }

  /**
   * Applies `f` to every element in order, as joining one future per
   * element does: all values when every call succeeds, otherwise the error
   * of the first call that fails.
   */
  function Collect<A, B, E>(xs: seq<A>, f: A -> Result<B, E>): (r: Result<seq<B>, E>)
    ensures r.Ok? <==> FirstErr(xs, f).None?
    ensures r.Err? ==> r.error == f(xs[FirstErr(xs, f).value]).error
    ensures r.Ok? ==> |r.value| == |xs| && forall i :: 0 <= i < |xs| ==> Ok(r.value[i]) == f(xs[i])
    decreases |xs|
  {
    if |xs| == 0 then Ok([])
    else
      var init := xs[..|xs| - 1];
      assert forall j :: 0 <= j < |init| ==> init[j] == xs[j];
      match Collect(init, f)
      case Err(e) =>
        FirstErrAt(xs, f, FirstErr(init, f).value);
        Err(e)
      case Ok(prefix) =>
        match f(xs[|xs| - 1])
        case Err(e) =>
          FirstErrAt(xs, f, |xs| - 1);
          Err(e)
        case Ok(y) =>
          assert FirstErr(xs, f).None?;
          Ok(prefix + [y])
  }

  /** Once a prefix has failed, the later elements do not matter. */
  lemma CollectPrefixFailure<A, B, E>(xs: seq<A>, f: A -> Result<B, E>, n: nat)
    requires n <= |xs| && Collect(xs[..n], f).Err?
    ensures Collect(xs, f) == Collect(xs[..n], f)
  {
    var k := FirstErr(xs[..n], f).value;
    assert forall j :: 0 <= j < n ==> xs[..n][j] == xs[j];
    FirstErrAt(xs, f, k);
  }

  /** One more successful element extends the collected values. */
  lemma CollectStep<A, B, E>(xs: seq<A>, f: A -> Result<B, E>, n: nat)
    requires n < |xs| && Collect(xs[..n], f).Ok? && f(xs[n]).Ok?
    ensures Collect(xs[..n + 1], f) == Ok(Collect(xs[..n], f).value + [f(xs[n]).value])
  {
    assert xs[..n + 1][..n] == xs[..n];
  }

  /** A failing element after a successful prefix is the failure. */
  lemma CollectStepFailure<A, B, E>(xs: seq<A>, f: A -> Result<B, E>, n: nat)
    requires n < |xs| && Collect(xs[..n], f).Ok? && f(xs[n]).Err?
    ensures Collect(xs[..n + 1], f) == Err(f(xs[n]).error)
  {
    assert xs[..n + 1][..n] == xs[..n];
  }

  /**
   * Collecting over two runs of elements: the first run's error if it
   * fails, else the second run's error if it fails, else both runs' values.
   */
  lemma {:induction false} CollectAppend<A, B, E>(x: seq<A>, y: seq<A>, f: A -> Result<B, E>)
    ensures Collect(x + y, f) ==
              match Collect(x, f)
              case Err(e) => Err(e)
              case Ok(u) =>
                match Collect(y, f)
                case Err(e) => Err(e)
                case Ok(v) => Ok(u + v)
    decreases |y|
  {
    if |y| == 0 {
      assert x + y == x;
      if Collect(x, f).Ok? {
        assert Collect(x, f).value + [] == Collect(x, f).value;
      }
    } else {
      var init := y[..|y| - 1];
      CollectAppend(x, init, f);
      assert (x + y)[..|x + y| - 1] == x + init;
      assert (x + y)[|x + y| - 1] == y[|y| - 1];
      if Collect(x, f).Ok? && Collect(init, f).Ok? && f(y[|y| - 1]).Ok? {
        var u, v, w := Collect(x, f).value, Collect(init, f).value, f(y[|y| - 1]).value;
        assert (u + v) + [w] == u + (v + [w]);
      }
    }
  }
}
