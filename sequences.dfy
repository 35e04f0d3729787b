/**
 * Concatenating the pieces each element of a sequence contributes, as
 * `foreach (...) list.Add(...)` with a `continue` for skipped elements does.
 */
module Sequences {
  import opened Failures

  function FlatMap<A, B>(xs: seq<A>, f: A -> seq<B>): seq<B>
  {
    if xs == [] then [] else FlatMap(xs[..|xs| - 1], f) + f(xs[|xs| - 1])
  }

  /** One more element appends its piece. */
  lemma FlatMapStep<A, B>(xs: seq<A>, i: int, f: A -> seq<B>)
    requires 0 <= i < |xs|
    ensures FlatMap(xs[..i + 1], f) == FlatMap(xs[..i], f) + f(xs[i])
  {
    assert xs[..i + 1][..i] == xs[..i];
  }

  /** Everything in the result comes from the piece of some element. */
  lemma {:induction false} FlatMapSound<A, B>(xs: seq<A>, f: A -> seq<B>, b: B)
    requires b in FlatMap(xs, f)
    ensures exists i :: 0 <= i < |xs| && b in f(xs[i])
  {
    var n := |xs| - 1;
    var prefix := xs[..n];
    if b in FlatMap(prefix, f) {
      FlatMapSound(prefix, f, b);
      var i :| 0 <= i < n && b in f(prefix[i]);
      assert prefix[i] == xs[i];
    } else {
      assert b in f(xs[n]);
    }
  }

  /** Everything in the piece of an element is in the result. */
  lemma {:induction false} FlatMapComplete<A, B>(xs: seq<A>, f: A -> seq<B>, i: int, b: B)
    requires 0 <= i < |xs| && b in f(xs[i])
    ensures b in FlatMap(xs, f)
  {
    var n := |xs| - 1;
    var prefix := xs[..n];
    assert FlatMap(xs, f) == FlatMap(prefix, f) + f(xs[n]);
    if i < n {
      assert prefix[i] == xs[i];
      FlatMapComplete(prefix, f, i, b);
    }
  }

  /** The pieces of a prefix, then those of the rest. */
  lemma {:induction false} FlatMapAppend<A, B>(xs: seq<A>, i: int, f: A -> seq<B>)
    requires 0 <= i <= |xs|
    ensures FlatMap(xs, f) == FlatMap(xs[..i], f) + FlatMap(xs[i..], f)
    decreases |xs|
  {
    if i == |xs| {
      assert xs[..i] == xs;
      assert xs[i..] == [];
    } else {
      var n := |xs| - 1;
      FlatMapAppend(xs[..n], i, f);
      assert xs[..n][..i] == xs[..i];
      assert xs[i..][..|xs[i..]| - 1] == xs[..n][i..];
      assert xs[i..][|xs[i..]| - 1] == xs[n];
    }
  }

  /** Two outcomes one after the other: the first failure, or both pieces. */
  function AppendResults<B>(first: Result<seq<B>>, second: Result<seq<B>>): Result<seq<B>>
  {
    match first
    case Fail(e) => Fail(e)
    case Ok(u) =>
      match second
      case Fail(e) => Fail(e)
      case Ok(v) => Ok(u + v)
  }

  /**
   * The same with pieces that may fail: element after element, the first
   * failing piece is the outcome, and the rest are never computed.
   */
  function ConcatResults<A, B>(xs: seq<A>, f: A -> Result<seq<B>>): Result<seq<B>>
  {
    if xs == [] then Ok([])
    else AppendResults(ConcatResults(xs[..|xs| - 1], f), f(xs[|xs| - 1]))
  }

  /** One more element appends its piece, or fails with it. */
  lemma ConcatResultsStep<A, B>(xs: seq<A>, i: int, f: A -> Result<seq<B>>)
    requires 0 <= i < |xs|
    ensures ConcatResults(xs[..i + 1], f) == AppendResults(ConcatResults(xs[..i], f), f(xs[i]))
  {
    assert xs[..i + 1][..i] == xs[..i];
  }

  /** Once a prefix has failed, the rest are never looked at. */
  lemma {:induction false} ConcatResultsStopsAtFailure<A, B>(xs: seq<A>, i: nat, f: A -> Result<seq<B>>)
    requires i <= |xs| && ConcatResults(xs[..i], f).Fail?
    ensures ConcatResults(xs, f) == ConcatResults(xs[..i], f)
    decreases |xs| - i
  {
    if i < |xs| {
      var n := |xs| - 1;
      assert xs[..n][..i] == xs[..i];
      ConcatResultsStopsAtFailure(xs[..n], i, f);
    } else {
      assert xs[..i] == xs;
    }
  }

  /** The outcome of `g` on a piece that was made, or the failure that prevented it. */
  function Then<B, C>(r: Result<seq<B>>, g: seq<B> -> Result<seq<C>>): Result<seq<C>>
  {
    match r
    case Fail(e) => Fail(e)
    case Ok(y) => g(y)
  }

  /**
   * Doing `g` piece by piece, as each piece is made, or once on the whole:
   * when every piece can be made the two agree, provided `g` maps the empty
   * sequence to nothing and a concatenation to the concatenation; and the
   * piecewise way succeeds only when every piece can be made.
   */
  lemma {:induction false} ConcatResultsThen<A, B, C>(xs: seq<A>, f: A -> Result<seq<B>>, g: seq<B> -> Result<seq<C>>, h: A -> Result<seq<C>>)
    requires forall x :: h(x) == Then(f(x), g)
    requires g([]) == Ok([])
    requires forall a, b :: g(a + b) == AppendResults(g(a), g(b))
    ensures ConcatResults(xs, f).Ok? ==> ConcatResults(xs, h) == g(ConcatResults(xs, f).value)
    ensures ConcatResults(xs, h).Ok? ==> ConcatResults(xs, f).Ok?
  {
    if xs != [] {
      var n := |xs| - 1;
      ConcatResultsThen(xs[..n], f, g, h);
      var x := xs[n];
      assert h(x) == Then(f(x), g);
      if ConcatResults(xs[..n], f).Ok? && f(x).Ok? {
        var a := ConcatResults(xs[..n], f).value;
        var b := f(x).value;
        assert g(a + b) == AppendResults(g(a), g(b));
      }
    }
  }
}
