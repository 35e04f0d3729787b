/**
 * The `System.IO.Path` members the generator uses, on a platform given as a
 * parameter instead of probed at run time. On Windows a path component ends
 * at `\`, `/` or the volume separator `:`; on Unix (Mono) only at `/`.
 */
module DotNetPath {
  import opened Failures

  datatype Platform = Windows | Unix

  /** `Path.DirectorySeparatorChar`; the generator's own `Separator` (`/` on Mono, `\` otherwise) agrees with it. */
  function DirectorySeparator(p: Platform): char
  {
    if p == Windows then '\\' else '/'
  }

  /** The characters at which `Path` ends a file name scanning backwards. */
  predicate IsBreak(c: char, p: Platform)
  {
    c == DirectorySeparator(p) || c == '/' || (p == Windows && c == ':')
  }

  /** Position of the last path break, or -1. */
  function LastBreak(s: string, p: Platform): (r: int)
    ensures -1 <= r < |s|
    ensures r >= 0 ==> IsBreak(s[r], p)
    ensures forall j :: r < j < |s| ==> !IsBreak(s[j], p)
  {
    if s == [] then -1
    else if IsBreak(s[|s| - 1], p) then |s| - 1
    else LastBreak(s[..|s| - 1], p)
  }

  /** `Path.GetFileName`: the text after the last path break. */
  function GetFileName(s: string, p: Platform): (r: string)
    ensures |r| <= |s| && r == s[|s| - |r|..]
    ensures forall j :: 0 <= j < |r| ==> !IsBreak(r[j], p)
    ensures |r| < |s| ==> IsBreak(s[|s| - |r| - 1], p)
  {
    s[LastBreak(s, p) + 1..]
  }

  /**
   * The text before the last path break: the parent part of a relative path
   * as written. `Directory.GetParent(s).ToString()` also prefixes the working
   * directory and collapses `.` and `..` (it applies `Path.GetFullPath`);
   * README "## Left out" records what that changes.
   */
  function ParentDirectory(s: string, p: Platform): (r: string)
    ensures |r| < |s| || (r == [] && s == [])
    ensures r == s[..|r|]
    ensures s != [] ==> (r + [s[|r|]] + GetFileName(s, p) == s || (r == [] && GetFileName(s, p) == s))
  {
    var b := LastBreak(s, p);
    if b < 0 then "" else s[..b]
  }

  /**
   * Position of the dot that starts the extension: the last `.` of the last
   * component, or -1 when that component has none.
   */
  function ExtensionDot(s: string, p: Platform): (r: int)
    ensures -1 <= r < |s|
    ensures r >= 0 ==> s[r] == '.' && forall j :: r < j < |s| ==> s[j] != '.' && !IsBreak(s[j], p)
    ensures r < 0 ==> forall j :: LastBreak(s, p) < j < |s| ==> s[j] != '.'
  {
    if s == [] then -1
    else if s[|s| - 1] == '.' then |s| - 1
    else if IsBreak(s[|s| - 1], p) then -1
    else ExtensionDot(s[..|s| - 1], p)
  }

  /** `Path.GetExtension`: from the extension dot to the end, or empty when the dot is missing or last. */
  function GetExtension(s: string, p: Platform): (r: string)
    ensures r == [] || (2 <= |r| <= |s| && r[0] == '.' && r == s[|s| - |r|..])
    ensures r != [] ==> forall j :: 1 <= j < |r| ==> r[j] != '.' && !IsBreak(r[j], p)
  {
    var d := ExtensionDot(s, p);
    if d < 0 || d == |s| - 1 then "" else s[d..]
  }

  /** `Path.ChangeExtension(s, null)`: the text before the extension dot. */
  function StripExtension(s: string, p: Platform): (r: string)
    ensures |r| <= |s| && r == s[..|r|]
    ensures |r| < |s| ==> s[|r|] == '.'
  {
    var d := ExtensionDot(s, p);
    if d < 0 then s else s[..d]
  }

  /**
   * `Path.ChangeExtension(s, ext)`: cut the extension; a non-null `ext` is
   * then appended (with a dot when it has none), except to an empty path.
   */
  function ChangeExtension(s: string, ext: Option<string>, p: Platform): (r: string)
    ensures ext.None? ==> r == StripExtension(s, p)
  {
    match ext
    case None => StripExtension(s, p)
    case Some(e) =>
      if s == [] then s
      else StripExtension(s, p) + (if e == [] || e[0] != '.' then "." else "") + e
  }

  /** `Path.GetFileNameWithoutExtension`. */
  function GetFileNameWithoutExtension(s: string, p: Platform): (r: string)
    ensures forall j :: 0 <= j < |r| ==> !IsBreak(r[j], p)
  {
    StripExtension(GetFileName(s, p), p)
  }

  /** Changing the extension to the one a path already has gives back the path. */
  lemma ChangeToOwnExtension(s: string, p: Platform)
    requires GetExtension(s, p) != []
    ensures ChangeExtension(s, Some(GetExtension(s, p)), p) == s
  {
    var d := ExtensionDot(s, p);
    assert s[..d] + s[d..] == s;
  }

  /** Stripping an extension keeps every character of the path up to the dot. */
  lemma StripKeepsPrefix(s: string, c: char, p: Platform)
    requires c !in s
    ensures c !in StripExtension(s, p)
  {
    var r := StripExtension(s, p);
    assert forall j :: 0 <= j < |r| ==> r[j] == s[j];
  }

  /** Characters after the last break do not move it. */
  lemma {:induction false} LastBreakSkipsTail(a: string, n: string, p: Platform)
    requires forall j :: 0 <= j < |n| ==> !IsBreak(n[j], p)
    ensures LastBreak(a + n, p) == LastBreak(a, p)
    decreases |n|
  {
    if n != [] {
      var m := n[..|n| - 1];
      assert (a + n)[..|a + n| - 1] == a + m;
      assert (a + n)[|a + n| - 1] == n[|n| - 1];
      LastBreakSkipsTail(a, m, p);
    } else {
      assert a + n == a;
    }
  }

  /** A path `d<break>n` with a plain last component `n`: its file name is `n`, its parent `d`. */
  lemma FileNameAfterBreak(d: string, c: char, n: string, p: Platform)
    requires IsBreak(c, p)
    requires forall j :: 0 <= j < |n| ==> !IsBreak(n[j], p)
    ensures GetFileName(d + [c] + n, p) == n
    ensures ParentDirectory(d + [c] + n, p) == d
  {
    LastBreakSkipsTail(d + [c], n, p);
    assert LastBreak(d + [c], p) == |d| by {
      assert (d + [c])[|d|] == c;
    }
    assert (d + [c] + n)[..|d|] == d;
  }

  /** A name without breaks is its own file name and has no parent. */
  lemma FileNameOfPlainName(n: string, p: Platform)
    requires forall j :: 0 <= j < |n| ==> !IsBreak(n[j], p)
    ensures GetFileName(n, p) == n
    ensures ParentDirectory(n, p) == ""
  {
    LastBreakSkipsTail("", n, p);
    assert "" + n == n;
  }

  /** Characters that are neither dots nor breaks do not move the extension dot. */
  lemma {:induction false} ExtensionDotSkipsTail(a: string, n: string, p: Platform)
    requires forall j :: 0 <= j < |n| ==> n[j] != '.' && !IsBreak(n[j], p)
    ensures ExtensionDot(a + n, p) == ExtensionDot(a, p)
    decreases |n|
  {
    if n != [] {
      var m := n[..|n| - 1];
      assert (a + n)[..|a + n| - 1] == a + m;
      assert (a + n)[|a + n| - 1] == n[|n| - 1];
      ExtensionDotSkipsTail(a, m, p);
    } else {
      assert a + n == a;
    }
  }

  /** `stem + ext` with `ext` a dot and at least one plain character: `ext` is the extension and `stem` what is left. */
  lemma ExtensionOfName(stem: string, ext: string, p: Platform)
    requires |ext| >= 2 && ext[0] == '.'
    requires forall j :: 1 <= j < |ext| ==> ext[j] != '.' && !IsBreak(ext[j], p)
    ensures GetExtension(stem + ext, p) == ext
    ensures StripExtension(stem + ext, p) == stem
  {
    var tail := ext[1..];
    assert stem + ext == (stem + ".") + tail;
    ExtensionDotSkipsTail(stem + ".", tail, p);
    assert ExtensionDot(stem + ".", p) == |stem|;
    assert (stem + ext)[|stem|..] == ext;
    assert (stem + ext)[..|stem|] == stem;
  }

  /** A path whose last component has no dot has no extension. */
  lemma {:induction false} NoDotNoExtension(n: string, p: Platform)
    requires '.' !in n
    ensures ExtensionDot(n, p) == -1
    ensures GetExtension(n, p) == "" && StripExtension(n, p) == n
    decreases |n|
  {
    if n != [] {
      var m := n[..|n| - 1];
      assert n[|n| - 1] in n;
      assert forall x :: x in m ==> x in n;
      NoDotNoExtension(m, p);
    }
  }
}
