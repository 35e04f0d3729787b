/**
 * `Extensions.DistinctBy`: keeps, in order, every element whose key has not
 * been seen before. The source enumerates lazily; the model returns the whole
 * filtered sequence at once, and the two argument checks happen first, as
 * they do at call time in the source.
 */
module Extensions {
  import opened Failures

  /** The keys of the elements of `s`. */
  function KeySet<T, K(==)>(s: seq<T>, key: T -> K): set<K>
  {
    set i | 0 <= i < |s| :: key(s[i])
  }

  /** The reference result: the last element joins the filtered prefix unless its key is already there. */
  function Distinct<T, K(==)>(s: seq<T>, key: T -> K): (r: seq<T>)
    ensures |r| <= |s|
  {
    if s == [] then []
    else
      var d := Distinct(s[..|s| - 1], key);
      if key(s[|s| - 1]) in KeySet(d, key) then d else d + [s[|s| - 1]]
  }

  /** Position `i` holds the first element of `s` with its key. */
  predicate FirstOccurrence<T, K(==)>(s: seq<T>, key: T -> K, i: int)
    requires 0 <= i < |s|
  {
    forall j :: 0 <= j < i ==> key(s[j]) != key(s[i])
  }

  /** The positions of first occurrences, ascending. */
  function FirstPositions<T, K(==)>(s: seq<T>, key: T -> K): (r: seq<int>)
    ensures forall j :: 0 <= j < |r| ==> 0 <= r[j] < |s|
  {
    if s == [] then []
    else
      var n := |s| - 1;
      FirstPositions(s[..n], key) + (if FirstOccurrence(s, key, n) then [n] else [])
  }

  /** Filtering keeps exactly the keys there were. */
  lemma {:induction false} DistinctKeySet<T, K>(s: seq<T>, key: T -> K)
    ensures KeySet(Distinct(s, key), key) == KeySet(s, key)
  {
    if s != [] {
      var n := |s| - 1;
      DistinctKeySet(s[..n], key);
      var d := Distinct(s[..n], key);
      assert KeySet(s, key) == KeySet(s[..n], key) + {key(s[n])} by {
        assert forall i :: 0 <= i < n ==> s[..n][i] == s[i];
      }
      if key(s[n]) !in KeySet(d, key) {
        var d' := d + [s[n]];
        assert KeySet(d', key) == KeySet(d, key) + {key(s[n])} by {
          assert forall i :: 0 <= i < |d| ==> d'[i] == d[i];
          assert d'[|d|] == s[n];
        }
      }
    }
  }

  /** A key belongs to a prefix exactly when some earlier position carries it. */
  lemma KeySetOfPrefix<T, K>(s: seq<T>, key: T -> K, n: int)
    requires 0 <= n < |s|
    ensures key(s[n]) in KeySet(s[..n], key) <==> !FirstOccurrence(s, key, n)
  {
    if key(s[n]) in KeySet(s[..n], key) {
      var i :| 0 <= i < n && key(s[..n][i]) == key(s[n]);
      assert key(s[i]) == key(s[n]);
    }
    if !FirstOccurrence(s, key, n) {
      var j :| 0 <= j < n && key(s[j]) == key(s[n]);
      assert s[..n][j] == s[j];
    }
  }

  /**
   * The filtered sequence is the subsequence of `s` at the first occurrence
   * of each key: order kept, first element per key wins.
   */
  lemma {:induction false} DistinctIsFirstOccurrences<T, K>(s: seq<T>, key: T -> K)
    ensures |Distinct(s, key)| == |FirstPositions(s, key)|
    ensures forall j :: 0 <= j < |Distinct(s, key)| ==> Distinct(s, key)[j] == s[FirstPositions(s, key)[j]]
    ensures forall j, k :: 0 <= j < k < |FirstPositions(s, key)| ==> FirstPositions(s, key)[j] < FirstPositions(s, key)[k]
    ensures forall i :: 0 <= i < |s| ==> (i in FirstPositions(s, key) <==> FirstOccurrence(s, key, i))
  {
    if s != [] {
      var n := |s| - 1;
      var t := s[..n];
      DistinctIsFirstOccurrences(t, key);
      DistinctKeySet(t, key);
      KeySetOfPrefix(s, key, n);
      var d := Distinct(t, key);
      var ps := FirstPositions(t, key);
      assert forall i :: 0 <= i < n ==> (FirstOccurrence(t, key, i) <==> FirstOccurrence(s, key, i)) by {
        forall i | 0 <= i < n ensures FirstOccurrence(t, key, i) <==> FirstOccurrence(s, key, i) {
          assert forall j :: 0 <= j <= i ==> t[j] == s[j];
        }
      }
      assert forall j :: 0 <= j < |ps| ==> ps[j] < n;
      if FirstOccurrence(s, key, n) {
        assert Distinct(s, key) == d + [s[n]];
        assert FirstPositions(s, key) == ps + [n];
      } else {
        assert Distinct(s, key) == d;
        assert FirstPositions(s, key) == ps;
        assert n !in ps;
      }
    }
  }

  /** No two kept elements share a key. */
  lemma {:induction false} DistinctKeysUnique<T, K>(s: seq<T>, key: T -> K)
    ensures forall j, k :: 0 <= j < k < |Distinct(s, key)| ==> key(Distinct(s, key)[j]) != key(Distinct(s, key)[k])
  {
    if s != [] {
      var n := |s| - 1;
      var d := Distinct(s[..n], key);
      DistinctKeysUnique(s[..n], key);
      if key(s[n]) !in KeySet(d, key) {
        var d' := d + [s[n]];
        forall j, k | 0 <= j < k < |d'| ensures key(d'[j]) != key(d'[k]) {
          if k == |d| {
            assert d'[j] == d[j];
          } else {
            assert d'[j] == d[j] && d'[k] == d[k];
          }
        }
      }
    }
  }

  /** One element survives per distinct key. */
  lemma DistinctLength<T, K>(s: seq<T>, key: T -> K)
    ensures |Distinct(s, key)| == |KeySet(s, key)|
  {
    var d := Distinct(s, key);
    DistinctKeySet(s, key);
    DistinctKeysUnique(s, key);
    KeysOfUniqueCount(d, key);
  }

  /** Elements with pairwise distinct keys have as many keys as elements. */
  lemma {:induction false} KeysOfUniqueCount<T, K>(d: seq<T>, key: T -> K)
    requires forall j, k :: 0 <= j < k < |d| ==> key(d[j]) != key(d[k])
    ensures |KeySet(d, key)| == |d|
  {
    if d != [] {
      var n := |d| - 1;
      KeysOfUniqueCount(d[..n], key);
      assert KeySet(d, key) == KeySet(d[..n], key) + {key(d[n])} by {
        assert forall i :: 0 <= i < n ==> d[..n][i] == d[i];
      }
      assert forall i :: 0 <= i < n ==> key(d[..n][i]) != key(d[n]);
    }
  }

  /**
   * `DistinctBy(source, keySelector)`: a missing source or selector is
   * rejected before any element is looked at; otherwise one pass with a set
   * of seen keys.
   */
  method DistinctBy<T, K(==)>(source: Option<seq<T>>, keySelector: Option<T -> K>) returns (r: Result<seq<T>>)
    ensures source.None? ==> r == Fail(ArgumentNull("source"))
    ensures source.Some? && keySelector.None? ==> r == Fail(ArgumentNull("keySelector"))
    ensures source.Some? && keySelector.Some? ==> r == Ok(Distinct(source.value, keySelector.value))
  {
    if source.None? {
      return Fail(ArgumentNull("source"));
    }
    if keySelector.None? {
      return Fail(ArgumentNull("keySelector"));
    }
    var s := source.value;
    var key := keySelector.value;
    var knownKeys: set<K> := {};
    var output: seq<T> := [];
    var i := 0;
    while i < |s|
      invariant 0 <= i <= |s|
      invariant output == Distinct(s[..i], key)
      invariant knownKeys == KeySet(s[..i], key)
    {
      var k := key(s[i]);
      assert s[..i + 1][..i] == s[..i];
      DistinctKeySet(s[..i], key);
      if k !in knownKeys {
        knownKeys := knownKeys + {k};
        output := output + [s[i]];
      }
      assert KeySet(s[..i + 1], key) == KeySet(s[..i], key) + {k} by {
        assert forall j :: 0 <= j < i ==> s[..i + 1][j] == s[..i][j];
        assert s[..i + 1][i] == s[i];
      }
      i := i + 1;
    }
    assert s[..|s|] == s;
    return Ok(output);
  }
}
