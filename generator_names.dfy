/**
 * The older `Generator`'s own copies of the two name functions. The constant
 * name replaces only `-` and `.` (parentheses survive), and the bundle
 * reference always loses its extension.
 */
module GeneratorNames {
  import opened Failures
  import opened Strings
  import opened DotNetPath
  import opened ValidNames

  /** The characters the older `GetCorrectConstName` turns into `_`. */
  const LegacySymbols: seq<char> := ['-', '.']

  /** The older `GetCorrectConstName`: `_` in front of a leading digit, then every `-` and `.` replaced by `_`. */
  function LegacyConstName(s: string): (r: string)
    ensures '-' !in r && '.' !in r
    ensures !StartsWithDigit(r)
  {
    SanitizedIsClean(s, LegacySymbols);
    SanitizeName(s, LegacySymbols)
  }

  /** The sanitised name character by character: the digit guard, then each character cleaned on its own. */
  lemma LegacyConstNameShape(s: string)
    ensures LegacyConstName(s) == DigitGuard(s) + CleanChars(s, LegacySymbols)
  {
  }

  /** The older sanitiser changes nothing else: parentheses and every other character stay where they were. */
  lemma LegacyConstNameKeeps(s: string)
    ensures forall i :: 0 <= i < |s| && s[i] !in LegacySymbols ==> LegacyConstName(s)[|DigitGuard(s)| + i] == s[i]
    ensures '(' in s ==> '(' in LegacyConstName(s)
    ensures ')' in s ==> ')' in LegacyConstName(s)
  {
    LegacyConstNameShape(s);
    var g := DigitGuard(s);
    var r := LegacyConstName(s);
    assert forall i :: 0 <= i < |s| ==> r[|g| + i] == Clean(s[i], LegacySymbols);
    if '(' in s {
      var i :| 0 <= i < |s| && s[i] == '(';
      assert r[|g| + i] == '(';
    }
    if ')' in s {
      var i :| 0 <= i < |s| && s[i] == ')';
      assert r[|g| + i] == ')';
    }
  }

  /** The newer sanitiser applied after the older one gives what the newer one gives on its own. */
  lemma NewerSanitiserSubsumesLegacy(s: string)
    ensures ConstName(LegacyConstName(s)) == ConstName(s)
  {
    LegacyConstNameShape(s);
    var l := LegacyConstName(s);
    assert DigitGuard(l) == "";
    CleanAfterLegacy(s);
  }

  /** Cleaning by the newer symbols after the older ones, character by character. */
  lemma CleanAfterLegacy(s: string)
    ensures CleanChars(DigitGuard(s) + CleanChars(s, LegacySymbols), SymbolsToRemove) == DigitGuard(s) + CleanChars(s, SymbolsToRemove)
  {
    var g := DigitGuard(s);
    var l := g + CleanChars(s, LegacySymbols);
    var a := CleanChars(l, SymbolsToRemove);
    var b := g + CleanChars(s, SymbolsToRemove);
    assert |a| == |b|;
    forall i | 0 <= i < |a| ensures a[i] == b[i] {
      if i < |g| {
        assert l[i] == '_' && b[i] == '_';
      } else {
        assert l[i] == Clean(s[i - |g|], LegacySymbols);
        assert b[i] == Clean(s[i - |g|], SymbolsToRemove);
      }
    }
  }

  /** The older `GetCorrectConstName` is idempotent. */
  lemma LegacyConstNameIdempotent(s: string)
    ensures LegacyConstName(LegacyConstName(s)) == LegacyConstName(s)
  {
    SanitizeIdempotent(s, LegacySymbols);
  }

  /** Only `Resources` itself is sanitised to `Resources`. */
  lemma LegacyConstNameOfResources(s: string)
    ensures LegacyConstName(s) == "Resources" <==> s == "Resources"
  {
    LegacyConstNameShape(s);
    var r := LegacyConstName(s);
    if s == "Resources" {
      NoSymbolsUnchanged(s);
    }
    if r == "Resources" {
      assert DigitGuard(s) == "" by { assert r[0] != '_'; }
      assert |s| == |r|;
      forall i | 0 <= i < |s| ensures s[i] == r[i] {
        assert r[i] == Clean(s[i], LegacySymbols);
        assert r[i] != '_';
      }
    }
  }

  lemma NoSymbolsUnchanged(s: string)
    requires '-' !in s && '.' !in s && !StartsWithDigit(s)
    ensures LegacyConstName(s) == s
  {
    assert forall c :: c in LegacySymbols ==> c !in s;
    CleanCharsFixed(s, LegacySymbols);
  }

  /** A name with a character other than white space keeps one after sanitising. */
  lemma LegacyConstNameNotBlank(s: string)
    requires !IsBlank(s)
    ensures !IsBlank(LegacyConstName(s))
  {
    LegacyConstNameShape(s);
    var g := DigitGuard(s);
    var r := LegacyConstName(s);
    var i :| 0 <= i < |s| && !IsWhiteSpace(s[i]);
    assert r[|g| + i] == Clean(s[i], LegacySymbols);
  }

  /**
   * The older `GetCorrectResourceBundleName`: the path normalised as the
   * newer one does (prefix, scale markers, backslashes), then
   * `Path.ChangeExtension(path, null)`, whatever the extension.
   */
  function LegacyBundleName(s: string, p: Platform): (r: string)
    ensures '\\' !in r
    ensures r == StripExtension(NormalizeBundlePath(s, p), p)
  {
    var n := NormalizeBundlePath(s, p);
    StripKeepsPrefix(n, '\\', p);
    ChangeExtension(n, None, p)
  }

  /**
   * The two generations agree when the extension is one the newer function
   * drops; otherwise the newer one keeps the extension the older one cuts.
   */
  lemma LegacyBundleNameVersusNewer(s: string, p: Platform)
    ensures GetExtension(NormalizeBundlePath(s, p), p) in StrippedExtensions ==> LegacyBundleName(s, p) == BundleName(s, p)
    ensures GetExtension(NormalizeBundlePath(s, p), p) !in StrippedExtensions ==>
      BundleName(s, p) == LegacyBundleName(s, p) + GetExtension(NormalizeBundlePath(s, p), p)
  {
    var n := NormalizeBundlePath(s, p);
    var ext := GetExtension(n, p);
    if ext !in StrippedExtensions {
      ChangeToOwnExtension(n, p);
      assert ext != [] && ext[0] == '.';
    }
  }

  /** Scale variants of one image share one legacy bundle reference as well. */
  lemma LegacyScaleVariantsShareBundleName(d: string, m: string, e: string, p: Platform)
    requires '@' !in d && '@' !in e && m in ScaleMarkers
    requires DirectorySeparator(p) !in e
    requires StartsWith(d, ResourcesPrefix(p)) || DirectorySeparator(p) !in d
    ensures LegacyBundleName(d + m + e, p) == LegacyBundleName(d + e, p)
  {
    ScaleMarkersShaped();
    var x := DropResourcesPrefix(d, p);
    DropPrefixAroundMarker(d, m, e, p);
    ScaleMarkerRemoved(x, m, e);
    assert NormalizeBundlePath(d + m + e, p) == NormalizeBundlePath(d + e, p);
  }
}
