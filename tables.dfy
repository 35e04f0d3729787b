/**
 * The `Dictionary<string, string>` tables the generator fills and renders.
 * Entries are only ever added, so enumeration follows insertion order and a
 * table is its sequence of `(key, value)` pairs with pairwise distinct keys.
 */
module Tables {
  import opened Failures
  import opened Sequences

  type Table = seq<(string, string)>

  predicate HasKey(t: Table, k: string)
  {
    exists i :: 0 <= i < |t| && t[i].0 == k
  }

  predicate HasValue(t: Table, v: string)
  {
    exists i :: 0 <= i < |t| && t[i].1 == v
  }

  predicate UniqueKeys(t: Table)
  {
    forall i, j :: 0 <= i < j < |t| ==> t[i].0 != t[j].0
  }

  /** `Dictionary.Add`: a new key goes at the end; a key already present is rejected and nothing changes. */
  function Add(t: Table, k: string, v: string): (r: Result<Table>)
    ensures r.Fail? <==> HasKey(t, k)
    ensures r.Fail? ==> r.error == DuplicateKey(k)
    ensures r.Ok? ==> r.value == t + [(k, v)] && (UniqueKeys(t) ==> UniqueKeys(r.value))
  {
    if HasKey(t, k) then Fail(DuplicateKey(k)) else Ok(t + [(k, v)])
  }

  /** An appended entry's key is present afterwards; a value other than the appended one is present exactly when it was. */
  lemma AppendedEntry(t: Table, k: string, v: string, w: string)
    requires w != v
    ensures HasKey(t + [(k, v)], k)
    ensures HasValue(t + [(k, v)], w) <==> HasValue(t, w)
  {
    var t' := t + [(k, v)];
    assert t'[|t|] == (k, v);
    if HasValue(t', w) {
      var i :| 0 <= i < |t'| && t'[i].1 == w;
      assert t'[i] == t[i];
    }
    if HasValue(t, w) {
      var i :| 0 <= i < |t| && t[i].1 == w;
      assert t'[i] == t[i];
    }
  }

  /** The dictionary indexer: the value stored under `k`, or `KeyNotFoundException`. */
  function Lookup(t: Table, k: string): (r: Result<string>)
    ensures r.Ok? <==> HasKey(t, k)
    ensures r.Ok? ==> (k, r.value) in t
    ensures r.Fail? ==> r.error == KeyNotFound(k)
  {
    if t == [] then Fail(KeyNotFound(k))
    else if t[0].0 == k then Ok(t[0].1)
    else Lookup(t[1..], k)
  }

  /** In a table with distinct keys, an entry is found again under its key. */
  lemma {:induction false} LookupEntry(t: Table, i: int)
    requires UniqueKeys(t) && 0 <= i < |t|
    ensures Lookup(t, t[i].0) == Ok(t[i].1)
  {
    if i > 0 {
      assert t[0].0 != t[i].0;
      LookupEntry(t[1..], i - 1);
    }
  }

  /**
   * `ToDictionary` over already projected pairs: pair after pair is added,
   * so the first key that repeats an earlier one is the one reported.
   */
  function ToDictionary(pairs: seq<(string, string)>): (r: Result<Table>)
    ensures r.Ok? <==> UniqueKeys(pairs)
    ensures r.Ok? ==> r.value == pairs
    ensures r.Fail? ==> exists i, j :: 0 <= i < j < |pairs| && pairs[i].0 == pairs[j].0 && r.error == DuplicateKey(pairs[j].0)
  {
    if pairs == [] then Ok([])
    else
      var n := |pairs| - 1;
      match ToDictionary(pairs[..n])
      case Fail(e) =>
        assert forall i :: 0 <= i < n ==> pairs[..n][i] == pairs[i];
        Fail(e)
      case Ok(t) =>
        var r := Add(t, pairs[n].0, pairs[n].1);
        assert pairs[..n] + [pairs[n]] == pairs;
        if r.Fail? then
          var i :| 0 <= i < |t| && t[i].0 == pairs[n].0;
          assert pairs[i] == t[i];
          r
        else r
  }

  /** `Dictionary.Add` of an entry that may itself have failed to be made. */
  function AddEntry(t: Table, e: Result<(string, string)>): (r: (Result<bool>, Table))
    ensures r.0.Ok? <==> e.Ok? && !HasKey(t, e.value.0)
    ensures r.0.Ok? ==> r == (Ok(true), t + [e.value])
    ensures r.0.Fail? ==> r.1 == t
    ensures e.Fail? ==> r.0 == Fail(e.error)
    ensures e.Ok? && HasKey(t, e.value.0) ==> r.0 == Fail(DuplicateKey(e.value.0))
  {
    match e
    case Fail(err) => (Fail(err), t)
    case Ok((k, v)) =>
      match Add(t, k, v)
      case Ok(t') => (Ok(true), t')
      case Fail(err) => (Fail(err), t)
  }

  /**
   * A `foreach` around `Dictionary.Add`: one entry per element, in order.
   * The first element whose entry cannot be made or whose key is taken ends
   * it, and what was added before stays.
   */
  function AddEach<T>(t: Table, xs: seq<T>, entry: T -> Result<(string, string)>): (r: (Result<bool>, Table))
    ensures |t| <= |r.1| <= |t| + |xs| && r.1[..|t|] == t
    ensures UniqueKeys(t) ==> UniqueKeys(r.1)
    ensures r.0.Ok? ==> r.0 == Ok(true) && |r.1| == |t| + |xs|
  {
    if xs == [] then
      assert t[..|t|] == t;
      (Ok(true), t)
    else
      var n := |xs| - 1;
      var prev := AddEach(t, xs[..n], entry);
      if prev.0.Fail? then prev
      else
        var r := AddEntry(prev.1, entry(xs[n]));
        assert r.1[..|prev.1|] == prev.1;
        assert r.1[..|t|] == prev.1[..|t|];
        r
  }

  /** One more element: adding continues from where the prefix left the table. */
  lemma AddEachStep<T>(t: Table, xs: seq<T>, i: int, entry: T -> Result<(string, string)>)
    requires 0 <= i < |xs| && AddEach(t, xs[..i], entry).0.Ok?
    ensures AddEach(t, xs[..i + 1], entry) == AddEntry(AddEach(t, xs[..i], entry).1, entry(xs[i]))
  {
    assert xs[..i + 1][..i] == xs[..i];
  }

  /** Once a prefix has failed, the rest are never looked at. */
  lemma {:induction false} AddEachStopsAtFailure<T>(t: Table, xs: seq<T>, i: nat, entry: T -> Result<(string, string)>)
    requires i <= |xs| && AddEach(t, xs[..i], entry).0.Fail?
    ensures AddEach(t, xs, entry) == AddEach(t, xs[..i], entry)
    decreases |xs| - i
  {
    if i < |xs| {
      var n := |xs| - 1;
      assert xs[..n][..i] == xs[..i];
      AddEachStopsAtFailure(t, xs[..n], i, entry);
    } else {
      assert xs[..i] == xs;
    }
  }

  /** Adding two runs one after the other: the second starts from where the first left the table, unless the first failed. */
  lemma {:induction false} AddEachAppend<T>(t: Table, xs: seq<T>, ys: seq<T>, entry: T -> Result<(string, string)>)
    ensures AddEach(t, xs + ys, entry)
         == (var first := AddEach(t, xs, entry); if first.0.Fail? then first else AddEach(first.1, ys, entry))
    decreases |ys|
  {
    var first := AddEach(t, xs, entry);
    if ys == [] {
      assert xs + ys == xs;
    } else if first.0.Fail? {
      assert (xs + ys)[..|xs|] == xs;
      AddEachStopsAtFailure(t, xs + ys, |xs|, entry);
    } else {
      var n := |ys| - 1;
      AddEachAppend(t, xs, ys[..n], entry);
      assert (xs + ys)[..|xs + ys| - 1] == xs + ys[..n];
      assert (xs + ys)[|xs + ys| - 1] == ys[n];
    }
  }

  /**
   * Nested `foreach` loops around `Dictionary.Add`, over the pieces `g`
   * gives each outer element: the inner loop at element `k` of piece `d`.
   */
  lemma AddEachNestedStep<D, T>(t: Table, ds: seq<D>, g: D -> seq<T>, d: int, k: int, entry: T -> Result<(string, string)>)
    requires 0 <= d < |ds| && 0 <= k < |g(ds[d])|
    requires AddEach(t, FlatMap(ds[..d], g) + g(ds[d])[..k], entry).0.Ok?
    ensures AddEach(t, FlatMap(ds[..d], g) + g(ds[d])[..k + 1], entry)
         == AddEntry(AddEach(t, FlatMap(ds[..d], g) + g(ds[d])[..k], entry).1, entry(g(ds[d])[k]))
  {
    var done := FlatMap(ds[..d], g);
    var piece := g(ds[d]);
    var upTo := done + piece[..k + 1];
    assert upTo[..|done| + k] == done + piece[..k];
    assert upTo[|done| + k] == piece[k];
    AddEachStep(t, upTo, |done| + k, entry);
    assert upTo[..|done| + k + 1] == upTo;
  }

  /** The nested loops after piece `d`: the outer sequence's pieces so far. */
  lemma AddEachNestedDone<D, T>(ds: seq<D>, g: D -> seq<T>, d: int)
    requires 0 <= d < |ds|
    ensures FlatMap(ds[..d], g) + g(ds[d])[..|g(ds[d])|] == FlatMap(ds[..d + 1], g)
  {
    FlatMapStep(ds, d, g);
    assert g(ds[d])[..|g(ds[d])|] == g(ds[d]);
  }

  /** A failure inside piece `d` is the outcome of the nested loops. */
  lemma AddEachNestedStopsAtFailure<D, T>(t: Table, ds: seq<D>, g: D -> seq<T>, d: int, k: int, entry: T -> Result<(string, string)>)
    requires 0 <= d < |ds| && 0 <= k <= |g(ds[d])|
    requires AddEach(t, FlatMap(ds[..d], g) + g(ds[d])[..k], entry).0.Fail?
    ensures AddEach(t, FlatMap(ds, g), entry) == AddEach(t, FlatMap(ds[..d], g) + g(ds[d])[..k], entry)
  {
    var done := FlatMap(ds[..d], g);
    var piece := g(ds[d]);
    var rest := piece[k..] + FlatMap(ds[d + 1..], g);
    assert FlatMap(ds, g) == (done + piece[..k]) + rest by {
      FlatMapAppend(ds, d + 1, g);
      FlatMapStep(ds, d, g);
      assert piece == piece[..k] + piece[k..];
    }
    AddEachAppend(t, done + piece[..k], rest, entry);
  }

  /** When every add succeeds, the table ends with one entry per element, in order. */
  lemma {:induction false} AddEachEntryAt<T>(t: Table, xs: seq<T>, i: int, entry: T -> Result<(string, string)>)
    requires AddEach(t, xs, entry).0.Ok? && 0 <= i < |xs|
    ensures entry(xs[i]).Ok? && AddEach(t, xs, entry).1[|t| + i] == entry(xs[i]).value
  {
    var n := |xs| - 1;
    var prefix := xs[..n];
    AddEachStep(t, xs, n, entry);
    assert xs[..n + 1] == xs;
    var before := AddEach(t, prefix, entry).1;
    var r := AddEach(t, xs, entry).1;
    assert r == before + [entry(xs[n]).value];
    if i < n {
      AddEachEntryAt(t, prefix, i, entry);
      assert prefix[i] == xs[i];
      assert r[|t| + i] == before[|t| + i];
    }
  }

  /** One rendered line per entry, in insertion order. */
  function EntryLines(t: Table, line: (string, string) -> string): (r: seq<string>)
    ensures |r| == |t|
    ensures forall i :: 0 <= i < |t| ==> r[i] == line(t[i].0, t[i].1)
  {
    if t == [] then [] else [line(t[0].0, t[0].1)] + EntryLines(t[1..], line)
  }

  /** The `foreach` over a table that appends one line per entry to a `StringBuilder`. */
  method AppendEntries(acc: seq<string>, t: Table, line: (string, string) -> string) returns (lines: seq<string>)
    ensures lines == acc + EntryLines(t, line)
  {
    lines := acc;
    var i := 0;
    while i < |t|
      invariant 0 <= i <= |t|
      invariant lines == acc + EntryLines(t[..i], line)
    {
      assert EntryLines(t[..i + 1], line) == EntryLines(t[..i], line) + [line(t[i].0, t[i].1)];
      lines := lines + [line(t[i].0, t[i].1)];
      i := i + 1;
    }
    assert t[..|t|] == t;
  }
}
