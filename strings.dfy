/**
 * The few .NET `System.String` operations the generator relies on, over
 * `string` = `seq<char>`: ordinal prefix and substring tests, `Replace` (both
 * the char and the string overload), `Split(char)`, `IndexOf`, `Trim(char)`
 * and `IsNullOrWhiteSpace`. Every comparison here is ordinal.
 */
module Strings {

  predicate IsDigit(c: char) { '0' <= c <= '9' }

  /**
   * Ordinal prefix test: `s` begins with the characters of `p`. It stands in
   * for `string.StartsWith(string)`, which compares with the current
   * culture; README "## Left out" records where the two differ.
   */
  predicate StartsWith(s: string, p: string) { |p| <= |s| && s[..|p|] == p }

  /** `string.Contains(p)`: `p` occurs at some position of `s`. */
  predicate Contains(s: string, p: string)
    decreases |s|
  {
    StartsWith(s, p) || (|s| > 0 && Contains(s[1..], p))
  }

  /** `string.Replace(char, char)`: every occurrence of `a` becomes `b`. */
  function ReplaceChar(s: string, a: char, b: char): (r: string)
    ensures |r| == |s|
    ensures forall i :: 0 <= i < |s| ==> r[i] == (if s[i] == a then b else s[i])
  {
    if s == [] then [] else [if s[0] == a then b else s[0]] + ReplaceChar(s[1..], a, b)
  }

  /** The char overload works character by character, so it splits over a concatenation. */
  lemma ReplaceCharConcat(x: string, y: string, a: char, b: char)
    ensures ReplaceChar(x + y, a, b) == ReplaceChar(x, a, b) + ReplaceChar(y, a, b)
  {
    var l := ReplaceChar(x + y, a, b);
    var r := ReplaceChar(x, a, b) + ReplaceChar(y, a, b);
    assert forall i :: 0 <= i < |l| ==> l[i] == r[i] by {
      forall i | 0 <= i < |l| ensures l[i] == r[i] {
        if i < |x| { assert (x + y)[i] == x[i]; } else { assert (x + y)[i] == y[i - |x|]; }
      }
    }
  }

  /** Replacing around one occurrence of `a`. */
  lemma ReplaceCharAround(x: string, y: string, a: char, b: char)
    requires a !in x && a !in y
    ensures ReplaceChar(x + [a] + y, a, b) == x + [b] + y
  {
    var tail := [a] + y;
    assert x + [a] + y == x + tail;
    assert ReplaceChar(x + tail, a, b) == ReplaceChar(x, a, b) + ReplaceChar(tail, a, b) by {
      ReplaceCharConcat(x, tail, a, b);
    }
    assert ReplaceChar(x, a, b) == x by {
      ReplaceCharAbsent(x, a, b);
    }
    assert ReplaceChar(tail, a, b) == [b] + y by {
      ReplaceCharConcat([a], y, a, b);
      ReplaceCharAbsent(y, a, b);
      assert ReplaceChar([a], a, b) == [b];
    }
    assert x + ([b] + y) == x + [b] + y;
  }

  /** Nothing to replace leaves the text as it is. */
  lemma ReplaceCharAbsent(s: string, a: char, b: char)
    requires a !in s
    ensures ReplaceChar(s, a, b) == s
  {
    assert forall i :: 0 <= i < |s| ==> ReplaceChar(s, a, b)[i] == s[i];
  }

  /** Replacing around two occurrences of `a`. */
  lemma ReplaceCharAroundTwo(x: string, y: string, z: string, a: char, b: char)
    requires a !in x && a !in y && a !in z
    ensures ReplaceChar(x + [a] + y + [a] + z, a, b) == x + [b] + y + [b] + z
  {
    ReplaceCharConcat(x + [a] + y, [a] + z, a, b);
    ReplaceCharAround(x, y, a, b);
    ReplaceCharAround([], z, a, b);
    assert [] + [a] + z == [a] + z;
    assert [] + [b] + z == [b] + z;
    assert x + [a] + y + [a] + z == (x + [a] + y) + ([a] + z);
  }

  /** The same, with the middle piece given in two parts. */
  lemma ReplaceCharAroundTwoParts(x: string, y1: string, y2: string, z: string, a: char, b: char)
    requires a !in x && a !in y1 && a !in y2 && a !in z
    ensures ReplaceChar(x + [a] + y1 + y2 + [a] + z, a, b) == x + [b] + y1 + y2 + [b] + z
  {
    var y := y1 + y2;
    ReplaceCharAroundTwo(x, y, z, a, b);
    assert x + [a] + y1 + y2 + [a] + z == x + [a] + y + [a] + z by {
      assert x + [a] + y1 + y2 == x + [a] + y;
    }
    assert x + [b] + y1 + y2 + [b] + z == x + [b] + y + [b] + z by {
      assert x + [b] + y1 + y2 == x + [b] + y;
    }
  }

  /** Replacing a character a second time finds nothing more to do. */
  lemma ReplaceCharIdempotent(s: string, a: char, b: char)
    ensures ReplaceChar(ReplaceChar(s, a, b), a, b) == ReplaceChar(s, a, b)
  {
    var once := ReplaceChar(s, a, b);
    assert forall i :: 0 <= i < |once| ==> ReplaceChar(once, a, b)[i] == once[i];
  }

  /**
   * `string.Replace(string, string)`: one left-to-right scan; each
   * non-overlapping occurrence of `pat` is replaced by `rep`, and the text
   * `rep` inserts is not scanned again. .NET rejects an empty `pat`.
   */
  function Replace(s: string, pat: string, rep: string): (r: string)
    requires |pat| > 0
    ensures !Contains(s, pat) ==> r == s
    ensures rep == [] ==> |r| <= |s|
    decreases |s|
  {
    if |s| < |pat| then s
    else if s[..|pat|] == pat then rep + Replace(s[|pat|..], pat, rep)
    else [s[0]] + Replace(s[1..], pat, rep)
  }

  /** Replacing a one-character string by a one-character string is the char overload. */
  lemma {:induction false} ReplaceOneChar(s: string, a: char, b: char)
    ensures Replace(s, [a], [b]) == ReplaceChar(s, a, b)
    decreases |s|
  {
    if |s| >= 1 {
      ReplaceOneChar(s[1..], a, b);
      if s[..1] == [a] {
        assert s[0] == a;
      } else {
        assert s[0] != a by { assert s[..1] == [s[0]]; }
      }
    }
  }

  /** A character absent from both the text and the replacement stays absent. */
  lemma {:induction false} ReplaceKeepsCharOut(s: string, pat: string, rep: string, c: char)
    requires |pat| > 0 && c !in s && c !in rep
    ensures c !in Replace(s, pat, rep)
    decreases |s|
  {
    if |s| >= |pat| {
      if s[..|pat|] == pat {
        ReplaceKeepsCharOut(s[|pat|..], pat, rep, c);
      } else {
        ReplaceKeepsCharOut(s[1..], pat, rep, c);
      }
    }
  }

  /** A text that has `pat` somewhere contains it. */
  lemma {:induction false} ContainsAt(a: string, pat: string, b: string)
    ensures Contains(a + pat + b, pat)
    decreases |a|
  {
    var s := a + pat + b;
    if a == [] {
      assert s[..|pat|] == pat;
    } else {
      assert s[1..] == a[1..] + pat + b;
      ContainsAt(a[1..], pat, b);
    }
  }

  /** A text lacking one of the pattern's characters cannot contain the pattern. */
  lemma {:induction false} AbsentCharNotContained(s: string, pat: string, k: nat)
    requires k < |pat| && pat[k] !in s
    ensures !Contains(s, pat)
    decreases |s|
  {
    if |s| > 0 {
      if |pat| <= |s| {
        assert s[k] in s;
        assert s[..|pat|][k] != pat[k];
      }
      assert forall x :: x in s[1..] ==> x in s;
      AbsentCharNotContained(s[1..], pat, k);
    }
  }

  /** No occurrence of a pattern can start where its first character is absent. */
  lemma AbsentFirstCharNotContained(s: string, pat: string)
    requires |pat| > 0 && pat[0] !in s
    ensures !Contains(s, pat)
  {
    AbsentCharNotContained(s, pat, 0);
  }

  /**
   * When the pattern's last character does not occur in `y`, no occurrence
   * can straddle the junction, so `Replace` works on `x` and `y` apart.
   */
  lemma {:induction false} ReplaceSplit(x: string, y: string, pat: string, rep: string)
    requires |pat| > 0 && pat[|pat| - 1] !in y
    ensures Replace(x + y, pat, rep) == Replace(x, pat, rep) + Replace(y, pat, rep)
    decreases |x|
  {
    var s := x + y;
    if 0 < |x| < |pat| <= |s| {
      // an occurrence at the front would have to end inside `y`
      assert s[|pat| - 1] == y[|pat| - 1 - |x|];
      assert y[|pat| - 1 - |x|] in y;
      assert s[..|pat|][|pat| - 1] != pat[|pat| - 1];
    }
    if x == [] {
      assert s == y;
    } else if |s| < |pat| {
      assert Replace(y, pat, rep) == y;
    } else if s[..|pat|] == pat {
      assert x[..|pat|] == pat;
      assert s[|pat|..] == x[|pat|..] + y;
      ReplaceSplit(x[|pat|..], y, pat, rep);
    } else {
      assert s[1..] == x[1..] + y;
      ReplaceSplit(x[1..], y, pat, rep);
      if |x| >= |pat| {
        assert x[..|pat|] == s[..|pat|];
      } else {
        assert [x[0]] + x[1..] == x;
      }
    }
  }

  /** A stretch without the pattern's first character passes through `Replace` untouched. */
  lemma {:induction false} ReplaceSkipsPrefix(a: string, b: string, pat: string, rep: string)
    requires |pat| > 0 && pat[0] !in a
    ensures Replace(a + b, pat, rep) == a + Replace(b, pat, rep)
    decreases |a|
  {
    if |a| > 0 {
      var s := a + b;
      assert s[1..] == a[1..] + b;
      assert a[0] in a;
      ReplaceSkipsPrefix(a[1..], b, pat, rep);
      if |s| >= |pat| {
        assert s[..|pat|] != pat by { assert s[..|pat|][0] == a[0]; }
        calc {
          Replace(s, pat, rep);
          [s[0]] + Replace(s[1..], pat, rep);
          [a[0]] + (a[1..] + Replace(b, pat, rep));
          { assert [a[0]] + a[1..] == a; }
          a + Replace(b, pat, rep);
        }
      } else {
        assert Replace(b, pat, rep) == b;
      }
    } else {
      assert a + b == b;
    }
  }

  /**
   * A text without the pattern, followed by the pattern, loses exactly that
   * last occurrence, provided the pattern's first character does not recur
   * in it (so no earlier match can run into the final one).
   */
  lemma {:induction false} ReplaceTrailing(x: string, pat: string)
    requires |pat| > 0 && !Contains(x, pat)
    requires forall j :: 1 <= j < |pat| ==> pat[j] != pat[0]
    ensures Replace(x + pat, pat, "") == x
    decreases |x|
  {
    var s := x + pat;
    if x == [] {
      assert s == pat && s[..|pat|] == pat && s[|pat|..] == [];
    } else {
      assert s[..|pat|] != pat by {
        if |x| >= |pat| {
          assert s[..|pat|] == x[..|pat|];
        } else {
          assert s[|x|] == pat[0];
          assert pat[|x|] != pat[0];
        }
      }
      assert s[1..] == x[1..] + pat;
      ReplaceTrailing(x[1..], pat);
      assert [x[0]] + x[1..] == x;
    }
  }

  /** A pattern that holds neither `c` nor can start inside `y` is not found across `x`, `c`, `y`. */
  lemma {:induction false} NotContainedAcross(x: string, c: char, y: string, pat: string)
    requires |pat| > 0 && !Contains(x, pat) && c !in pat && pat[0] !in y
    ensures !Contains(x + [c] + y, pat)
    decreases |x|
  {
    var s := x + [c] + y;
    if x == [] {
      assert s == [c] + y && s[1..] == y;
      AbsentFirstCharNotContained(y, pat);
      assert !StartsWith(s, pat) by {
        if |pat| <= |s| { assert s[..|pat|][0] == c; }
      }
    } else {
      assert !StartsWith(s, pat) by {
        if |pat| <= |s| {
          if |x| >= |pat| {
            assert s[..|pat|] == x[..|pat|];
          } else {
            assert s[..|pat|][|x|] == c;
            assert pat[|x|] in pat;
          }
        }
      }
      assert s[1..] == x[1..] + [c] + y;
      NotContainedAcross(x[1..], c, y, pat);
    }
  }

  /** Joins parts with the separator between consecutive parts (`string.Join`). */
  function Join(parts: seq<string>, c: char): string
    requires |parts| >= 1
  {
    if |parts| == 1 then parts[0] else parts[0] + [c] + Join(parts[1..], c)
  }

  /** `string.Split(char)`: the pieces between occurrences of `c`, empty ones included. */
  function Split(s: string, c: char): (r: seq<string>)
    ensures |r| >= 1
    ensures forall i :: 0 <= i < |r| ==> c !in r[i]
    ensures |r| - 1 <= |s|
  {
    if s == [] then [""]
    else if s[0] == c then [""] + Split(s[1..], c)
    else var t := Split(s[1..], c); [[s[0]] + t[0]] + t[1..]
  }

  /** Splitting loses nothing: joining the pieces again gives back the text. */
  lemma {:induction false} JoinSplit(s: string, c: char)
    ensures Join(Split(s, c), c) == s
  {
    if s != [] {
      JoinSplit(s[1..], c);
      var t := Split(s[1..], c);
      if s[0] != c {
        var r := [[s[0]] + t[0]] + t[1..];
        assert r[1..] == t[1..];
        if |t| > 1 {
          assert Join(t, c) == t[0] + [c] + Join(t[1..], c);
        }
      } else {
        assert Split(s, c)[1..] == t;
      }
    }
  }

  /** Putting a character in front of the first part puts it in front of the join. */
  lemma {:induction false} JoinCons(x: char, parts: seq<string>, c: char)
    requires |parts| >= 1
    ensures Join([[x] + parts[0]] + parts[1..], c) == [x] + Join(parts, c)
  {
    var q := [[x] + parts[0]] + parts[1..];
    assert q[1..] == parts[1..];
  }

  /** And splitting a join of separator-free parts gives back the parts. */
  lemma {:induction false} SplitJoin(parts: seq<string>, c: char)
    requires |parts| >= 1
    requires forall i :: 0 <= i < |parts| ==> c !in parts[i]
    ensures Split(Join(parts, c), c) == parts
    decreases |parts|, |parts[0]|
  {
    var p0 := parts[0];
    if p0 == [] {
      if |parts| > 1 {
        SplitJoin(parts[1..], c);
        assert Join(parts, c) == [c] + Join(parts[1..], c);
      }
    } else {
      var rest := [p0[1..]] + parts[1..];
      assert rest[1..] == parts[1..];
      assert p0 == [p0[0]] + p0[1..];
      assert p0[0] in p0;
      assert forall i :: 0 <= i < |rest| ==> c !in rest[i] by {
        forall i | 0 <= i < |rest| ensures c !in rest[i] {
          if i == 0 {
            assert forall y :: y in p0[1..] ==> y in p0;
          } else {
            assert rest[i] == parts[i];
          }
        }
      }
      SplitJoin(rest, c);
      JoinCons(p0[0], rest, c);
      assert [[p0[0]] + rest[0]] + rest[1..] == parts;
    }
  }

  /** `string.IndexOf(char)`: the first position of `c`, or -1. */
  function IndexOf(s: string, c: char): (r: int)
    ensures -1 <= r < |s|
    ensures r == -1 <==> c !in s
    ensures r >= 0 ==> s[r] == c && c !in s[..r]
  {
    if s == [] then -1
    else if s[0] == c then 0
    else var k := IndexOf(s[1..], c); (if k < 0 then -1 else k + 1)
  }

  /**
   * `char.IsWhiteSpace`: the space, line and paragraph separators of
   * Unicode (U+0020, U+00A0, U+1680, U+2000 to U+200A, U+2028, U+2029,
   * U+202F, U+205F, U+3000), tab through carriage return, and next-line.
   */
  predicate IsWhiteSpace(c: char)
  {
    c == ' ' || ('\t' <= c <= '\r') || c == '\U{0085}' || c == '\U{00A0}'
    || c == '\U{1680}' || ('\U{2000}' <= c <= '\U{200A}') || c == '\U{2028}' || c == '\U{2029}'
    || c == '\U{202F}' || c == '\U{205F}' || c == '\U{3000}'
  }

  /** `string.IsNullOrWhiteSpace` on a non-null string. */
  predicate IsBlank(s: string) { forall i :: 0 <= i < |s| ==> IsWhiteSpace(s[i]) }

  function TrimStart(s: string, c: char): (r: string)
    ensures |r| <= |s| && r == s[|s| - |r|..]
    ensures r == [] || r[0] != c
    ensures forall k :: 0 <= k < |s| - |r| ==> s[k] == c
  {
    if s != [] && s[0] == c then TrimStart(s[1..], c) else s
  }

  function TrimEnd(s: string, c: char): (r: string)
    ensures |r| <= |s| && r == s[..|r|]
    ensures r == [] || r[|r| - 1] != c
    ensures forall k :: |r| <= k < |s| ==> s[k] == c
  {
    if s != [] && s[|s| - 1] == c then TrimEnd(s[..|s| - 1], c) else s
  }

  /**
   * `string.Trim(char)`: drops every leading and trailing `c`. What is left
   * is one stretch of `s` with only `c` before and after it, and neither of
   * its ends is `c`.
   */
  function Trim(s: string, c: char): (r: string)
    ensures r == [] || (r[0] != c && r[|r| - 1] != c)
    ensures exists i, j :: 0 <= i <= j <= |s| && r == s[i..j]
                           && (forall k :: 0 <= k < i ==> s[k] == c) && (forall k :: j <= k < |s| ==> s[k] == c)
  {
    var t := TrimStart(s, c);
    var r := TrimEnd(t, c);
    var i := |s| - |t|;
    var j := i + |r|;
    assert r == s[i..j] by {
      assert t == s[i..];
      assert r == t[..|r|];
    }
    assert forall k :: j <= k < |s| ==> s[k] == c by {
      forall k | j <= k < |s| ensures s[k] == c {
        assert s[k] == t[k - i];
      }
    }
    r
  }

  /** One leading `c` before text that does not start with `c` is all `TrimStart` drops. */
  lemma TrimStartOne(x: string, c: char)
    requires x == [] || x[0] != c
    ensures TrimStart([c] + x, c) == x
  {
    assert ([c] + x)[1..] == x;
  }

  /** One trailing `c` after text that does not end with `c` is all `TrimEnd` drops. */
  lemma TrimEndOne(x: string, c: char)
    requires x == [] || x[|x| - 1] != c
    ensures TrimEnd(x + [c], c) == x
  {
    assert (x + [c])[..|x|] == x;
  }

  /** A value written between quotes loses exactly those quotes. */
  lemma TrimQuotes(x: string, c: char)
    requires x == [] || (x[0] != c && x[|x| - 1] != c)
    ensures Trim([c] + x + [c], c) == x
  {
    if x == [] {
      assert [c] + x + [c] == [c] + [c];
      TrimStartOne([], c);
      assert [c] + [c] == [c] + ([] + [c]);
      assert TrimStart([c] + [c], c) == TrimStart([c], c);
    } else {
      var y := x + [c];
      assert [c] + x + [c] == [c] + y;
      TrimStartOne(y, c);
      TrimEndOne(x, c);
    }
  }


}
