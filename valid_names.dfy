/**
 * `ValidNamesProvider`: the two total string functions that turn a resource
 * path into a C# constant name and into the reference string the generated
 * accessor loads at run time.
 */
module ValidNames {
  import opened Failures
  import opened Strings
  import opened DotNetPath

  /** The characters `GetCorrectConstName` turns into `_`. */
  const SymbolsToRemove: seq<char> := ['-', '.', '(', ')']

  /** The scale markers of multi-resolution image variants, removed in this order. */
  const ScaleMarkers: seq<string> := ["@1x", "@2x", "@3x"]

  /** Extensions the bundle reference drops; every other extension is kept. */
  const StrippedExtensions: seq<string> := [".png", ".otf", ".ttf", ""]

  predicate StartsWithDigit(s: string) { |s| > 0 && IsDigit(s[0]) }

  /** What one character becomes in a sanitised name (the reference definition). */
  function Clean(c: char, symbols: seq<char>): char
  {
    if c in symbols then '_' else c
  }

  /** `symbols.Aggregate(s, (current, c) => current.Replace(c, '_'))`: one full pass per symbol, in order. */
  function ReplaceEachWithUnderscore(s: string, symbols: seq<char>): string
    decreases |symbols|
  {
    if symbols == [] then s
    else ReplaceEachWithUnderscore(ReplaceChar(s, symbols[0], '_'), symbols[1..])
  }

  /** The passes, taken together, replace each character independently. */
  lemma {:induction false} ReplaceEachIsPointwise(s: string, symbols: seq<char>)
    requires '_' !in symbols
    ensures |ReplaceEachWithUnderscore(s, symbols)| == |s|
    ensures forall i :: 0 <= i < |s| ==> ReplaceEachWithUnderscore(s, symbols)[i] == Clean(s[i], symbols)
    decreases |symbols|
  {
    if symbols != [] {
      var s' := ReplaceChar(s, symbols[0], '_');
      assert '_' !in symbols[1..] by { assert forall x :: x in symbols[1..] ==> x in symbols; }
      ReplaceEachIsPointwise(s', symbols[1..]);
      forall i | 0 <= i < |s|
        ensures ReplaceEachWithUnderscore(s, symbols)[i] == Clean(s[i], symbols)
      {
        assert symbols == [symbols[0]] + symbols[1..];
      }
    }
  }

  /** Every character cleaned on its own: the reference the passes are checked against. */
  function CleanChars(s: string, symbols: seq<char>): (r: string)
    ensures |r| == |s|
    ensures forall i :: 0 <= i < |s| ==> r[i] == Clean(s[i], symbols)
  {
    if s == [] then [] else [Clean(s[0], symbols)] + CleanChars(s[1..], symbols)
  }

  /** The digit prefix `GetCorrectConstName` puts in front of a name. */
  function DigitGuard(s: string): string
  {
    if StartsWithDigit(s) then "_" else ""
  }

  /** The digit rule and the character passes shared by both generations of the sanitiser. */
  function SanitizeName(s: string, symbols: seq<char>): (r: string)
    requires '_' !in symbols
    ensures r == DigitGuard(s) + CleanChars(s, symbols)
  {
    var t := DigitGuard(s) + s;
    ReplaceEachIsPointwise(t, symbols);
    var r := ReplaceEachWithUnderscore(t, symbols);
    var e := DigitGuard(s) + CleanChars(s, symbols);
    assert forall i :: 0 <= i < |r| ==> r[i] == e[i] by {
      forall i | 0 <= i < |r| ensures r[i] == e[i] {
        if i >= |DigitGuard(s)| { assert t[i] == s[i - |DigitGuard(s)|]; }
      }
    }
    r
  }

  /** A sanitised name holds none of the replaced symbols and does not start with a digit. */
  lemma SanitizedIsClean(s: string, symbols: seq<char>)
    requires '_' !in symbols
    ensures forall c :: c in symbols ==> c !in SanitizeName(s, symbols)
    ensures !StartsWithDigit(SanitizeName(s, symbols))
  {
    var r := SanitizeName(s, symbols);
    assert forall i :: 0 <= i < |r| ==> r[i] !in symbols;
  }

  /**
   * `GetCorrectConstName`: `_` in front of a leading digit, then every
   * `-`, `.`, `(` and `)` replaced by `_`.
   */
  function ConstName(s: string): (r: string)
    ensures forall c :: c in SymbolsToRemove ==> c !in r
    ensures !StartsWithDigit(r)
  {
    SanitizedIsClean(s, SymbolsToRemove);
    SanitizeName(s, SymbolsToRemove)
  }

  /** The shape of a sanitised name: the digit rule, same length otherwise, every other character in place. */
  lemma ConstNameShape(s: string)
    ensures StartsWithDigit(s) ==> |ConstName(s)| == |s| + 1 && ConstName(s)[0] == '_' && ConstName(s)[1..] == CleanChars(s, SymbolsToRemove)
    ensures !StartsWithDigit(s) ==> ConstName(s) == CleanChars(s, SymbolsToRemove)
    ensures forall i :: 0 <= i < |s| && s[i] !in SymbolsToRemove ==> ConstName(s)[|DigitGuard(s)| + i] == s[i]
  {
    var g := DigitGuard(s);
    var r := ConstName(s);
    forall i | 0 <= i < |s| && s[i] !in SymbolsToRemove ensures r[|g| + i] == s[i] {
      assert r[|g| + i] == CleanChars(s, SymbolsToRemove)[i];
    }
  }

  /** Cleaning text that is already clean changes nothing. */
  lemma CleanCharsFixed(s: string, symbols: seq<char>)
    requires forall c :: c in symbols ==> c !in s
    ensures CleanChars(s, symbols) == s
  {
    assert forall i :: 0 <= i < |s| ==> s[i] !in symbols by {
      forall i | 0 <= i < |s| ensures s[i] !in symbols { assert s[i] in s; }
    }
  }

  /** Sanitising a sanitised name changes nothing. */
  lemma SanitizeIdempotent(s: string, symbols: seq<char>)
    requires '_' !in symbols
    ensures SanitizeName(SanitizeName(s, symbols), symbols) == SanitizeName(s, symbols)
  {
    var r := SanitizeName(s, symbols);
    SanitizedIsClean(s, symbols);
    CleanCharsFixed(r, symbols);
  }

  /** `GetCorrectConstName` is idempotent. */
  lemma ConstNameIdempotent(s: string)
    ensures ConstName(ConstName(s)) == ConstName(s)
  {
    SanitizeIdempotent(s, SymbolsToRemove);
  }

  /** Names that differ only in which symbol stands at one place get the same constant: `foo-bar` and `foo.bar` are both `foo_bar`. */
  lemma SymbolsCollide(x: string, y: string, c: char, d: char)
    requires c in SymbolsToRemove && d in SymbolsToRemove
    ensures ConstName(x + [c] + y) == ConstName(x + [d] + y)
  {
    var a := x + [c] + y;
    var b := x + [d] + y;
    assert DigitGuard(a) == DigitGuard(b) by {
      if x == [] { assert a[0] == c && b[0] == d; } else { assert a[0] == x[0] == b[0]; }
    }
    var ca := CleanChars(a, SymbolsToRemove);
    var cb := CleanChars(b, SymbolsToRemove);
    forall i | 0 <= i < |a| ensures ca[i] == cb[i] {
      if i != |x| { assert a[i] == b[i]; }
    }
    assert ca == cb;
  }

  /** `Resources` followed by the platform separator. */
  function ResourcesPrefix(p: Platform): string
  {
    "Resources" + [DirectorySeparator(p)]
  }

  /** A path under `Resources<sep>` loses every occurrence of `Resources<sep>`; any other path is kept. */
  function DropResourcesPrefix(s: string, p: Platform): (r: string)
    ensures !StartsWith(s, ResourcesPrefix(p)) ==> r == s
    ensures StartsWith(s, ResourcesPrefix(p)) ==> r == Replace(s, ResourcesPrefix(p), "")
    ensures |r| <= |s|
  {
    if StartsWith(s, ResourcesPrefix(p)) then Replace(s, ResourcesPrefix(p), "") else s
  }

  /**
   * The step is a `Replace`, not a prefix cut: a second `Resources<sep>`
   * further along goes as well, so `Resources\Icons\Resources\x.png`
   * becomes `Icons\x.png`.
   */
  lemma DropsEveryOccurrence(a: string, b: string, p: Platform)
    requires 'R' !in a && 'R' !in b
    ensures DropResourcesPrefix(ResourcesPrefix(p) + a + ResourcesPrefix(p) + b, p) == a + b
  {
    var P := ResourcesPrefix(p);
    var s := P + a + P + b;
    assert s[..|P|] == P;
    assert s[|P|..] == a + (P + b);
    ReplaceSkipsPrefix(a, P + b, P, "");
    assert (P + b)[..|P|] == P && (P + b)[|P|..] == b;
    AbsentFirstCharNotContained(b, P);
  }

  /** Without `@`, a backslash or a separator, the rewriting steps find nothing to change. */
  lemma NormalizePlainPath(n: string, p: Platform)
    requires '@' !in n && '\\' !in n && DirectorySeparator(p) !in n
    ensures NormalizeBundlePath(n, p) == n
  {
    assert !StartsWith(n, ResourcesPrefix(p)) by {
      if |n| >= 10 { assert n[9] in n; assert ResourcesPrefix(p)[9] == DirectorySeparator(p); }
    }
    ScaleMarkersShaped();
    RemoveMarkersFromFree(n, ScaleMarkers);
    AbsentFirstCharNotContained(n, "\\");
  }

  /** `markers.Aggregate(s, (current, m) => current.Replace(m, ""))`. */
  function RemoveEach(s: string, markers: seq<string>): (r: string)
    requires forall i :: 0 <= i < |markers| ==> |markers[i]| > 0
    ensures |r| <= |s|
    decreases |markers|
  {
    if markers == [] then s else RemoveEach(Replace(s, markers[0], ""), markers[1..])
  }

  /**
   * The part of `GetCorrectResourceBundleName` before the extension rule:
   * every `Resources<sep>` removed when the path starts with one, the scale
   * markers removed, backslashes turned into slashes.
   */
  function NormalizeBundlePath(s: string, p: Platform): (r: string)
    ensures '\\' !in r
  {
    var a := DropResourcesPrefix(s, p);
    var b := RemoveEach(a, ScaleMarkers);
    ReplaceOneChar(b, '\\', '/');
    Replace(b, "\\", "/")
  }

  /**
   * `GetCorrectResourceBundleName`: the normalised path with its extension
   * cut when it is `.png`, `.otf`, `.ttf` or missing, and kept otherwise.
   */
  function BundleName(s: string, p: Platform): (r: string)
    ensures '\\' !in r
    ensures GetExtension(NormalizeBundlePath(s, p), p) !in StrippedExtensions ==> r == NormalizeBundlePath(s, p)
    ensures GetExtension(NormalizeBundlePath(s, p), p) in StrippedExtensions ==>
      r == StripExtension(NormalizeBundlePath(s, p), p)
  {
    var n := NormalizeBundlePath(s, p);
    var ext := GetExtension(n, p);
    if ext in StrippedExtensions then
      StripKeepsPrefix(n, '\\', p);
      ChangeExtension(n, None, p)
    else
      ChangeToOwnExtension(n, p);
      ChangeExtension(n, Some(ext), p)
  }

  /** `@`, a digit, `x`: the shape every scale marker has. */
  predicate MarkerShaped(m: string)
  {
    |m| == 3 && m[0] == '@' && IsDigit(m[1]) && m[2] == 'x'
  }

  lemma ScaleMarkersShaped()
    ensures forall i :: 0 <= i < |ScaleMarkers| ==> MarkerShaped(ScaleMarkers[i])
  {
  }

  /** Replacing one marker in a text whose only `@` starts the marker `m`. */
  lemma ReplaceMarker(a: string, m: string, b: string, m': string)
    requires '@' !in a && '@' !in b && MarkerShaped(m) && MarkerShaped(m')
    ensures Replace(a + m + b, m', "") == if m == m' then a + b else a + m + b
  {
    var t := m + b;
    assert a + m + b == a + t;
    ReplaceSkipsPrefix(a, t, m', "");
    assert t[..3] == m;
    AbsentFirstCharNotContained(b, m');
    if m != m' {
      var u := m[1..] + b;
      assert t[1..] == u;
      assert '@' !in u;
      AbsentFirstCharNotContained(u, m');
      assert Replace(t, m', "") == [t[0]] + Replace(u, m', "");
      assert [t[0]] + u == t;
    } else {
      assert t[3..] == b;
      assert Replace(t, m', "") == Replace(b, m', "");
    }
  }

  /** Text without `@` holds no scale marker. */
  lemma {:induction false} RemoveMarkersFromFree(s: string, markers: seq<string>)
    requires forall i :: 0 <= i < |markers| ==> |markers[i]| > 0 && markers[i][0] == '@'
    requires '@' !in s
    ensures RemoveEach(s, markers) == s
    decreases |markers|
  {
    if markers != [] {
      AbsentFirstCharNotContained(s, markers[0]);
      RemoveMarkersFromFree(s, markers[1..]);
    }
  }

  /** An image variant's scale marker disappears and nothing else does. */
  lemma ScaleMarkerRemoved(a: string, m: string, b: string)
    requires '@' !in a && '@' !in b && m in ScaleMarkers
    ensures RemoveEach(a + m + b, ScaleMarkers) == a + b
    ensures RemoveEach(a + b, ScaleMarkers) == a + b
  {
    ScaleMarkersShaped();
    assert '@' !in a + b;
    RemoveMarkersFromFree(a + b, ScaleMarkers);
    var s := a + m + b;
    ReplaceMarker(a, m, b, "@1x");
    var s1 := Replace(s, "@1x", "");
    assert RemoveEach(s, ScaleMarkers) == RemoveEach(s1, ScaleMarkers[1..]);
    if m == "@1x" {
      assert s1 == a + b;
      RemoveMarkersFromFree(a + b, ScaleMarkers[1..]);
    } else {
      assert s1 == s;
      ReplaceMarker(a, m, b, "@2x");
      var s2 := Replace(s1, "@2x", "");
      assert RemoveEach(s1, ScaleMarkers[1..]) == RemoveEach(s2, ScaleMarkers[2..]);
      if m == "@2x" {
        assert s2 == a + b;
        RemoveMarkersFromFree(a + b, ScaleMarkers[2..]);
      } else {
        assert m == "@3x" && s2 == s;
        ReplaceMarker(a, m, b, "@3x");
        assert RemoveEach(s2, ScaleMarkers[2..]) == RemoveEach(a + b, ScaleMarkers[3..]);
      }
    }
  }

  /** The prefix step treats a marker and a separator-free tail as inert. */
  lemma DropPrefixAroundMarker(d: string, m: string, e: string, p: Platform)
    requires '@' !in d && MarkerShaped(m)
    requires DirectorySeparator(p) !in e
    requires StartsWith(d, ResourcesPrefix(p)) || DirectorySeparator(p) !in d
    ensures DropResourcesPrefix(d + m + e, p) == DropResourcesPrefix(d, p) + m + e
    ensures DropResourcesPrefix(d + e, p) == DropResourcesPrefix(d, p) + e
    ensures '@' !in DropResourcesPrefix(d, p)
  {
    var P := ResourcesPrefix(p);
    var sep := DirectorySeparator(p);
    assert P[9] == sep;
    assert sep !in m by { assert m == [m[0], m[1], m[2]]; }
    var s1 := d + m + e;
    var s2 := d + e;
    if StartsWith(d, P) {
      assert s1[..10] == d[..10] && s2[..10] == d[..10];
      assert s1 == d + (m + e);
      assert sep !in m + e;
      ReplaceSplit(d, m + e, P, "");
      AbsentCharNotContained(m + e, P, 9);
      ReplaceSplit(d, e, P, "");
      AbsentCharNotContained(e, P, 9);
      ReplaceKeepsCharOut(d, P, "", '@');
    } else {
      assert sep !in s1 && sep !in s2;
      assert !StartsWith(s1, P) by { if |s1| >= 10 { assert s1[9] in s1; } }
      assert !StartsWith(s2, P) by { if |s2| >= 10 { assert s2[9] in s2; } }
    }
  }

  /**
   * Scale variants of one image share one bundle reference: `icon@2x.png`,
   * `icon@3x.png` and `icon.png` all give `icon`, also under `Resources`.
   */
  lemma ScaleVariantsShareBundleName(d: string, m: string, e: string, p: Platform)
    requires '@' !in d && '@' !in e && m in ScaleMarkers
    requires DirectorySeparator(p) !in e
    requires StartsWith(d, ResourcesPrefix(p)) || DirectorySeparator(p) !in d
    ensures BundleName(d + m + e, p) == BundleName(d + e, p)
  {
    ScaleMarkersShaped();
    var x := DropResourcesPrefix(d, p);
    DropPrefixAroundMarker(d, m, e, p);
    ScaleMarkerRemoved(x, m, e);
    assert NormalizeBundlePath(d + m + e, p) == NormalizeBundlePath(d + e, p);
  }

  /**
   * A plain name (no dot, `@`, backslash or separator) is its own bundle
   * reference: none of the rewriting steps finds anything to change.
   */
  lemma BundleNameOfPlainName(n: string, p: Platform)
    requires '.' !in n && '@' !in n && '\\' !in n && DirectorySeparator(p) !in n
    ensures BundleName(n, p) == n
  {
    NormalizePlainPath(n, p);
    NoDotNoExtension(n, p);
  }

  /** A single leading `Resources<sep>` before text without `R` is simply cut. */
  lemma DropSinglePrefix(rest: string, p: Platform)
    requires 'R' !in rest
    ensures DropResourcesPrefix(ResourcesPrefix(p) + rest, p) == rest
  {
    var P := ResourcesPrefix(p);
    var s := P + rest;
    assert s[..|P|] == P && s[|P|..] == rest;
    AbsentFirstCharNotContained(rest, P);
  }

  /** `dir\stem.png` under `Resources\` on Windows: normalised to `dir/stem.png`. */
  lemma NormalizeUnderResources(dir: string, stem: string)
    requires '@' !in dir && '\\' !in dir && 'R' !in dir
    requires '@' !in stem && '\\' !in stem && 'R' !in stem
    ensures NormalizeBundlePath(ResourcesPrefix(Windows) + (dir + "\\" + stem + ".png"), Windows) == dir + "/" + (stem + ".png")
  {
    var tail := stem + ".png";
    assert '@' !in tail && '\\' !in tail && 'R' !in tail;
    var rest := dir + ['\\'] + tail;
    assert dir + "\\" + stem + ".png" == rest;
    assert 'R' !in rest && '@' !in rest;
    DropSinglePrefix(rest, Windows);
    ScaleMarkersShaped();
    RemoveMarkersFromFree(rest, ScaleMarkers);
    ReplaceOneChar(rest, '\\', '/');
    ReplaceCharAround(dir, tail, '\\', '/');
    assert dir + ['/'] + tail == dir + "/" + (stem + ".png");
  }
  /**
   * An image under `Resources\<dir>\` on Windows, such as
   * `Resources\Icons\star@2x.png`: the `Resources` directory, the scale
   * marker and the `.png` extension go, and the backslash between directory
   * and file becomes a slash, giving `Icons/star`.
   */
  lemma BundleNameOfScaledImageIn(dir: string, stem: string, m: string)
    requires '@' !in dir && '\\' !in dir && 'R' !in dir
    requires '@' !in stem && '\\' !in stem && 'R' !in stem
    requires '.' !in stem && '/' !in stem && ':' !in stem
    requires m in ScaleMarkers
    ensures BundleName(ResourcesPrefix(Windows) + dir + "\\" + stem + m + ".png", Windows) == dir + "/" + stem
  {
    var P := ResourcesPrefix(Windows);
    var d := P + dir + "\\" + stem;
    assert d[..10] == P;
    assert '@' !in P;
    assert '@' !in d;
    assert '@' !in ".png" && '\\' !in ".png";
    ScaleVariantsShareBundleName(d, m, ".png", Windows);
    BundleNameUnderResources(dir, stem);
  }

  /** `Resources\dir\stem.png` on Windows refers to `dir/stem`. */
  lemma BundleNameUnderResources(dir: string, stem: string)
    requires '@' !in dir && '\\' !in dir && 'R' !in dir
    requires '@' !in stem && '\\' !in stem && 'R' !in stem
    requires '.' !in stem && '/' !in stem && ':' !in stem
    ensures BundleName(ResourcesPrefix(Windows) + dir + "\\" + stem + ".png", Windows) == dir + "/" + stem
  {
    var s := ResourcesPrefix(Windows) + dir + "\\" + stem + ".png";
    assert s == ResourcesPrefix(Windows) + (dir + "\\" + stem + ".png");
    NormalizeUnderResources(dir, stem);
    var base := dir + "/" + stem;
    var n := dir + "/" + (stem + ".png");
    assert n == base + ".png";
    ExtensionOfName(base, ".png", Windows);
    assert GetExtension(NormalizeBundlePath(s, Windows), Windows) == ".png";
  }

  /**
   * `GetCorrectResourceBundleName` is not idempotent: it cuts one stripped
   * extension per call, so `a.png.png` gives `a.png` and that gives `a`.
   */
  lemma BundleNameNotIdempotent(stem: string, p: Platform)
    requires '.' !in stem && '@' !in stem && '\\' !in stem && DirectorySeparator(p) !in stem
    ensures BundleName(stem + ".png" + ".png", p) == stem + ".png"
    ensures BundleName(stem + ".png", p) == stem
    ensures BundleName(BundleName(stem + ".png" + ".png", p), p) != BundleName(stem + ".png" + ".png", p)
  {
    var once := stem + ".png";
    assert '@' !in once && '\\' !in once && DirectorySeparator(p) !in once;
    BundleNameStripsOnePng(once, p);
    BundleNameStripsOnePng(stem, p);
    assert |once| != |stem|;
  }

  /** A path without `@`, backslash or separator ending in `.png` loses exactly that `.png`. */
  lemma BundleNameStripsOnePng(n: string, p: Platform)
    requires '@' !in n && '\\' !in n && DirectorySeparator(p) !in n
    ensures BundleName(n + ".png", p) == n
  {
    var s := n + ".png";
    assert '@' !in ".png" && '\\' !in ".png" && DirectorySeparator(p) !in ".png";
    assert '@' !in s && '\\' !in s && DirectorySeparator(p) !in s;
    NormalizePlainPath(s, p);
    ExtensionOfName(n, ".png", p);
    assert GetExtension(NormalizeBundlePath(s, p), p) == ".png";
    assert ".png" in StrippedExtensions;
  }
}
