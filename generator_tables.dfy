/**
 * The LINQ pipelines of the older `Generator.Do`: the four flat tables
 * (images, colors, storyboards, xibs) and the tree of bundle directories,
 * built from the project's evaluated items.
 */
module GeneratorTables {
  import opened Failures
  import opened Strings
  import opened DotNetPath
  import opened Tables
  import opened Sequences
  import opened Extensions
  import opened ProjectItems
  import opened GeneratorNames

  const ImageSetMarker: string := ".imageset"
  const ColorSetMarker: string := ".colorset"
  const StoryboardExtension: string := ".storyboard"
  const XibExtension: string := ".xib"

  const AssetsError: string := "Error generating assets"
  const ColorsError: string := "Error generating colors"
  const StoryboardsError: string := "Error generating storyboards"
  const XibsError: string := "Error generating xibs"
  const BundleResourcesError: string := "Error generating bundle resources"

  /** `EvaluatedInclude.Split(Separator)`. */
  function Components(item: ProjectItem, p: Platform): (r: seq<string>)
    ensures |r| >= 1
  {
    Split(item.evaluatedInclude, DirectorySeparator(p))
  }

  /** The identity, as the key of a `GroupBy` on the elements themselves. */
  function Same(s: string): string
  {
    s
  }

  /** `x => (x.Key, x.Key)` after a projection to names. */
  function SelfPairs(names: seq<string>): seq<(string, string)>
  {
    seq(|names|, i requires 0 <= i < |names| => (names[i], names[i]))
  }

  /** The keys run through the older `GetCorrectConstName`. */
  function ConstPairs(pairs: seq<(string, string)>): seq<(string, string)>
  {
    seq(|pairs|, i requires 0 <= i < |pairs| => (LegacyConstName(pairs[i].0), pairs[i].1))
  }

  /**
   * `ToDictionary(x => GetCorrectConstName(key), value)` inside a
   * `try`/`catch` that rethrows as `new Exception(message, ex)`: the table
   * exists exactly when no two sanitised keys coincide.
   */
  function ConstTable(pairs: seq<(string, string)>, message: string): (r: Result<Table>)
    ensures r.Ok? <==> UniqueKeys(ConstPairs(pairs))
    ensures r.Ok? ==> r.value == ConstPairs(pairs)
    ensures r.Fail? ==> exists i, j :: 0 <= i < j < |pairs| && LegacyConstName(pairs[i].0) == LegacyConstName(pairs[j].0)
                                    && r.error == Wrapped(message, DuplicateKey(LegacyConstName(pairs[j].0)))
  {
    var c := ConstPairs(pairs);
    match ToDictionary(c)
    case Ok(t) => Ok(t)
    case Fail(e) =>
      var i, j :| 0 <= i < j < |c| && c[i].0 == c[j].0 && e == DuplicateKey(c[j].0);
      Fail(Wrapped(message, e))
  }

  /** Two names with the same sanitised form make the table fail. */
  lemma CollidingNamesFail(pairs: seq<(string, string)>, message: string, i: int, j: int)
    requires 0 <= i < j < |pairs| && LegacyConstName(pairs[i].0) == LegacyConstName(pairs[j].0)
    ensures ConstTable(pairs, message).Fail? && ConstTable(pairs, message).error.message == message
  {
    var c := ConstPairs(pairs);
    assert c[i].0 == c[j].0;
  }

  /* ------------------------------ images and colors ------------------------------ */

  /** `First(y => y.Contains(marker))`, or nothing when no component contains the marker. */
  function FirstContaining(parts: seq<string>, marker: string): (r: Option<string>)
    ensures r.None? <==> forall i :: 0 <= i < |parts| ==> !Contains(parts[i], marker)
    ensures r.Some? ==> exists i :: 0 <= i < |parts| && parts[i] == r.value && Contains(r.value, marker)
                                    && forall j :: 0 <= j < i ==> !Contains(parts[j], marker)
  {
    if parts == [] then None
    else if Contains(parts[0], marker) then Some(parts[0])
    else
      var r := FirstContaining(parts[1..], marker);
      if r.Some? then
        var i :| 0 <= i < |parts[1..]| && parts[1..][i] == r.value && Contains(r.value, marker)
                  && forall j :: 0 <= j < i ==> !Contains(parts[1..][j], marker);
        assert parts[i + 1] == r.value;
        r
      else
        assert forall i :: 1 <= i < |parts| ==> parts[i] == parts[1..][i - 1];
        r
  }

  /**
   * What one item contributes to the grouping: an `ImageAsset` item with a
   * component containing the marker gives the first such component.
   */
  function SetDirectory(item: ProjectItem, marker: string, p: Platform): (r: seq<string>)
    ensures |r| <= 1
  {
    if item.itemType != "ImageAsset" then []
    else
      match FirstContaining(Components(item, p), marker)
      case None => []
      case Some(d) => [d]
  }

  function SetDirectoryOf(marker: string, p: Platform): ProjectItem -> seq<string>
  {
    item => SetDirectory(item, marker, p)
  }

  /** `GroupBy(first component with the marker).Select(x => x.Key)`: each set directory once, in order of first appearance. */
  function SetDirectories(items: seq<ProjectItem>, marker: string, p: Platform): seq<string>
  {
    Distinct(FlatMap(items, SetDirectoryOf(marker, p)), Same)
  }

  /** A piece of at most one element that holds `d` is `[d]`. */
  lemma OnlyPiece(r: seq<string>, d: string)
    requires |r| <= 1 && d in r
    ensures r == [d]
  {
  }

  /** `Select(g)` over names. */
  function Mapped(names: seq<string>, g: string -> string): seq<string>
  {
    seq(|names|, i requires 0 <= i < |names| => g(names[i]))
  }

  /** `Path.GetFileNameWithoutExtension`, as the selector of a `Select`. */
  function StemOf(p: Platform): string -> string
  {
    s => GetFileNameWithoutExtension(s, p)
  }

  /**
   * The pieces the elements contribute, each distinct piece once (in order of
   * first appearance), projected by `g` and keyed by the sanitised projection.
   */
  function GroupedTable<A>(xs: seq<A>, f: A -> seq<string>, g: string -> string, message: string): Result<Table>
  {
    ConstTable(SelfPairs(Mapped(Distinct(FlatMap(xs, f), Same), g)), message)
  }

  /** The images or colors pipeline: one constant per distinct set directory, named after the directory. */
  function AssetTable(items: seq<ProjectItem>, marker: string, message: string, p: Platform): Result<Table>
  {
    GroupedTable(items, SetDirectoryOf(marker, p), StemOf(p), message)
  }

  function ImagesTable(items: seq<ProjectItem>, p: Platform): Result<Table>
  {
    AssetTable(items, ImageSetMarker, AssetsError, p)
  }

  function ColorsTable(items: seq<ProjectItem>, p: Platform): Result<Table>
  {
    AssetTable(items, ColorSetMarker, ColorsError, p)
  }

  /** The entry a piece becomes: the sanitised projection and the projection. */
  function Entry(d: string, g: string -> string): (string, string)
  {
    (LegacyConstName(g(d)), g(d))
  }

  /**
   * A finished grouped table has one entry per distinct piece, holds the
   * entry of every element's piece, and nothing no element contributed.
   */
  lemma GroupedTableContents<A>(xs: seq<A>, f: A -> seq<string>, g: string -> string, message: string)
    requires GroupedTable(xs, f, g, message).Ok?
    ensures var t := GroupedTable(xs, f, g, message).value;
      && UniqueKeys(t)
      && |t| == |KeySet(FlatMap(xs, f), Same)|
      && (forall i, d :: 0 <= i < |xs| && d in f(xs[i]) ==> Entry(d, g) in t)
      && (forall k :: 0 <= k < |t| ==> exists i, d :: 0 <= i < |xs| && d in f(xs[i]) && t[k] == Entry(d, g))
  {
    var all := FlatMap(xs, f);
    var ds := Distinct(all, Same);
    var t := GroupedTable(xs, f, g, message).value;
    assert |t| == |ds|;
    DistinctLength(all, Same);
    forall i, d | 0 <= i < |xs| && d in f(xs[i]) ensures Entry(d, g) in t {
      GroupedTableHas(xs, f, g, message, i, d);
    }
    forall k | 0 <= k < |t|
      ensures exists i, d :: 0 <= i < |xs| && d in f(xs[i]) && t[k] == Entry(d, g)
    {
      GroupedTableEntryFrom(xs, f, g, message, k);
    }
  }

  /** The entries of a finished grouped table, one per distinct piece. */
  lemma GroupedTableEntries<A>(xs: seq<A>, f: A -> seq<string>, g: string -> string, message: string)
    requires GroupedTable(xs, f, g, message).Ok?
    ensures var ds := Distinct(FlatMap(xs, f), Same);
      && |GroupedTable(xs, f, g, message).value| == |ds|
      && forall k :: 0 <= k < |ds| ==> GroupedTable(xs, f, g, message).value[k] == Entry(ds[k], g)
  {
  }

  lemma GroupedTableHas<A>(xs: seq<A>, f: A -> seq<string>, g: string -> string, message: string, i: int, d: string)
    requires GroupedTable(xs, f, g, message).Ok?
    requires 0 <= i < |xs| && d in f(xs[i])
    ensures Entry(d, g) in GroupedTable(xs, f, g, message).value
  {
    var all := FlatMap(xs, f);
    var ds := Distinct(all, Same);
    GroupedTableEntries(xs, f, g, message);
    DistinctKeySet(all, Same);
    FlatMapComplete(xs, f, i, d);
    var a :| 0 <= a < |all| && all[a] == d;
    assert Same(all[a]) in KeySet(all, Same);
    var k :| 0 <= k < |ds| && Same(ds[k]) == d;
    assert GroupedTable(xs, f, g, message).value[k] == Entry(d, g);
  }

  lemma GroupedTableEntryFrom<A>(xs: seq<A>, f: A -> seq<string>, g: string -> string, message: string, k: int)
    requires GroupedTable(xs, f, g, message).Ok?
    requires 0 <= k < |GroupedTable(xs, f, g, message).value|
    ensures exists i, d :: 0 <= i < |xs| && d in f(xs[i]) && GroupedTable(xs, f, g, message).value[k] == Entry(d, g)
  {
    var all := FlatMap(xs, f);
    var ds := Distinct(all, Same);
    GroupedTableEntries(xs, f, g, message);
    DistinctIsFirstOccurrences(all, Same);
    var d := ds[k];
    assert d == all[FirstPositions(all, Same)[k]];
    FlatMapSound(xs, f, d);
  }


  /**
   * A finished images or colors table has one entry per distinct set
   * directory, holds the entry of every item's set directory, and nothing
   * that no item contributed.
   */
  lemma AssetTableContents(items: seq<ProjectItem>, marker: string, message: string, p: Platform)
    requires AssetTable(items, marker, message, p).Ok?
    ensures var t := AssetTable(items, marker, message, p).value;
      && UniqueKeys(t)
      && |t| == |KeySet(FlatMap(items, SetDirectoryOf(marker, p)), Same)|
      && (forall i, d :: 0 <= i < |items| && SetDirectory(items[i], marker, p) == [d] ==> Entry(d, StemOf(p)) in t)
      && (forall k :: 0 <= k < |t| ==> exists i, d :: 0 <= i < |items| && SetDirectory(items[i], marker, p) == [d] && t[k] == Entry(d, StemOf(p)))
  {
    var f := SetDirectoryOf(marker, p);
    var t := AssetTable(items, marker, message, p).value;
    GroupedTableContents(items, f, StemOf(p), message);
    forall k | 0 <= k < |t|
      ensures exists i, d :: 0 <= i < |items| && SetDirectory(items[i], marker, p) == [d] && t[k] == Entry(d, StemOf(p))
    {
      var i, d :| 0 <= i < |items| && d in f(items[i]) && t[k] == Entry(d, StemOf(p));
      var r := SetDirectory(items[i], marker, p);
      assert f(items[i]) == r;
      OnlyPiece(r, d);
    }
  }

  /* ---------------------------- storyboards and xibs ---------------------------- */

  /** `Split(Separator).Last()`. */
  function LastComponent(item: ProjectItem, p: Platform): string
  {
    var parts := Components(item, p);
    parts[|parts| - 1]
  }

  /**
   * What one item contributes: an `InterfaceDefinition` item whose last
   * component has exactly the extension gives that component without it.
   */
  function InterfaceName(item: ProjectItem, extension: string, p: Platform): (r: seq<string>)
    ensures |r| <= 1
  {
    if item.itemType != "InterfaceDefinition" then []
    else
      var last := LastComponent(item, p);
      if GetExtension(last, p) == extension then [GetFileNameWithoutExtension(last, p)] else []
  }

  function InterfaceNameOf(extension: string, p: Platform): ProjectItem -> seq<string>
  {
    item => InterfaceName(item, extension, p)
  }

  /** The pieces the elements contribute, in order and without grouping, keyed by their sanitised form. */
  function UngroupedTable<A>(xs: seq<A>, f: A -> seq<string>, message: string): Result<Table>
  {
    ConstTable(SelfPairs(FlatMap(xs, f)), message)
  }

  /** The storyboards or xibs pipeline: one constant per matching item, no grouping. */
  function InterfaceTable(items: seq<ProjectItem>, extension: string, message: string, p: Platform): Result<Table>
  {
    UngroupedTable(items, InterfaceNameOf(extension, p), message)
  }

  function StoryboardsTable(items: seq<ProjectItem>, p: Platform): Result<Table>
  {
    InterfaceTable(items, StoryboardExtension, StoryboardsError, p)
  }

  function XibsTable(items: seq<ProjectItem>, p: Platform): Result<Table>
  {
    InterfaceTable(items, XibExtension, XibsError, p)
  }

  /** Only the last component counts: the directories in front of it play no part. */
  lemma InterfaceNameIgnoresDirectories(t: string, d: string, file: string, extension: string, p: Platform)
    requires DirectorySeparator(p) !in file
    ensures InterfaceName(ProjectItem(t, d + [DirectorySeparator(p)] + file), extension, p)
         == InterfaceName(ProjectItem(t, file), extension, p)
  {
    var sep := DirectorySeparator(p);
    var whole := d + [sep] + file;
    assert LastComponent(ProjectItem(t, whole), p) == file by {
      SplitAfterLast(d, sep, file);
    }
    assert LastComponent(ProjectItem(t, file), p) == file by {
      SplitPlain(file, sep);
    }
  }

  /** A piece that is the last component after the final separator. */
  lemma SplitAfterLast(a: string, c: char, b: string)
    requires c !in b
    ensures Split(a + [c] + b, c) == Split(a, c) + [b]
  {
    var parts := Split(a, c) + [b];
    JoinSnoc(Split(a, c), b, c);
    JoinSplit(a, c);
    assert forall i :: 0 <= i < |parts| ==> c !in parts[i];
    SplitJoin(parts, c);
  }

  lemma SplitPlain(b: string, c: char)
    requires c !in b
    ensures Split(b, c) == [b]
  {
    SplitJoin([b], c);
  }

  lemma {:induction false} JoinSnoc(parts: seq<string>, b: string, c: char)
    requires |parts| >= 1
    ensures Join(parts + [b], c) == Join(parts, c) + [c] + b
    decreases |parts|
  {
    if |parts| > 1 {
      assert (parts + [b])[1..] == parts[1..] + [b];
      JoinSnoc(parts[1..], b, c);
    }
  }

  /** Two elements contributing the same piece make an ungrouped table fail with its message. */
  lemma UngroupedRepeatFails<A>(xs: seq<A>, f: A -> seq<string>, message: string, i: int, j: int, n: string)
    requires 0 <= i < j < |xs| && f(xs[i]) == [n] && f(xs[j]) == [n]
    ensures UngroupedTable(xs, f, message).Fail?
    ensures UngroupedTable(xs, f, message).error.message == message
  {
    var names := FlatMap(xs, f);
    FlatMapAppend(xs, j, f);
    var before := FlatMap(xs[..j], f);
    var after := FlatMap(xs[j..], f);
    assert xs[..j][i] == xs[i];
    FlatMapComplete(xs[..j], f, i, n);
    var a :| 0 <= a < |before| && before[a] == n;
    FlatMapAppend(xs[j..], 1, f);
    assert xs[j..][..1] == [xs[j]];
    assert FlatMap([xs[j]], f) == FlatMap([xs[j]][..0], f) + f(xs[j]);
    assert after[0] == n;
    assert names[a] == n && names[|before|] == n;
    CollidingNamesFail(SelfPairs(names), message, a, |before|);
  }

  /**
   * Two interface definitions with the same name, in whatever directories,
   * make the table fail with the pipeline's message.
   */
  lemma SameNameTwiceFails(items: seq<ProjectItem>, extension: string, message: string, p: Platform, i: int, j: int)
    requires 0 <= i < j < |items|
    requires InterfaceName(items[i], extension, p) != [] && InterfaceName(items[i], extension, p) == InterfaceName(items[j], extension, p)
    ensures InterfaceTable(items, extension, message, p).Fail?
    ensures InterfaceTable(items, extension, message, p).error.message == message
  {
    var f := InterfaceNameOf(extension, p);
    assert f(items[i]) == InterfaceName(items[i], extension, p) == [InterfaceName(items[i], extension, p)[0]];
    UngroupedRepeatFails(items, f, message, i, j, InterfaceName(items[i], extension, p)[0]);
  }

  /** A finished ungrouped table holds one entry per piece, in element order, and nothing else. */
  lemma UngroupedTableContents<A>(xs: seq<A>, f: A -> seq<string>, message: string)
    requires UngroupedTable(xs, f, message).Ok?
    ensures var t := UngroupedTable(xs, f, message).value;
      && UniqueKeys(t)
      && |t| == |FlatMap(xs, f)|
      && (forall i, n :: 0 <= i < |xs| && n in f(xs[i]) ==> (LegacyConstName(n), n) in t)
      && (forall k :: 0 <= k < |t| ==> exists i, n :: 0 <= i < |xs| && n in f(xs[i]) && t[k] == (LegacyConstName(n), n))
  {
    var t := UngroupedTable(xs, f, message).value;
    forall i, n | 0 <= i < |xs| && n in f(xs[i]) ensures (LegacyConstName(n), n) in t {
      UngroupedTableHas(xs, f, message, i, n);
    }
    forall k | 0 <= k < |t|
      ensures exists i, n :: 0 <= i < |xs| && n in f(xs[i]) && t[k] == (LegacyConstName(n), n)
    {
      var names := FlatMap(xs, f);
      assert t[k] == (LegacyConstName(names[k]), names[k]);
      assert names[k] in names;
      FlatMapSound(xs, f, names[k]);
    }
  }

  lemma UngroupedTableHas<A>(xs: seq<A>, f: A -> seq<string>, message: string, i: int, n: string)
    requires UngroupedTable(xs, f, message).Ok?
    requires 0 <= i < |xs| && n in f(xs[i])
    ensures (LegacyConstName(n), n) in UngroupedTable(xs, f, message).value
  {
    var names := FlatMap(xs, f);
    var t := UngroupedTable(xs, f, message).value;
    FlatMapComplete(xs, f, i, n);
    var k :| 0 <= k < |names| && names[k] == n;
    assert t[k] == (LegacyConstName(n), n);
  }

  /** A finished storyboards or xibs table holds one entry per matching item, and nothing else. */
  lemma InterfaceTableContents(items: seq<ProjectItem>, extension: string, message: string, p: Platform)
    requires InterfaceTable(items, extension, message, p).Ok?
    ensures var t := InterfaceTable(items, extension, message, p).value;
      && UniqueKeys(t)
      && (forall i, n :: 0 <= i < |items| && InterfaceName(items[i], extension, p) == [n] ==> (LegacyConstName(n), n) in t)
      && (forall k :: 0 <= k < |t| ==> exists i, n :: 0 <= i < |items| && InterfaceName(items[i], extension, p) == [n] && t[k] == (LegacyConstName(n), n))
  {
    var f := InterfaceNameOf(extension, p);
    var t := InterfaceTable(items, extension, message, p).value;
    UngroupedTableContents(items, f, message);
    forall k | 0 <= k < |t|
      ensures exists i, n :: 0 <= i < |items| && InterfaceName(items[i], extension, p) == [n] && t[k] == (LegacyConstName(n), n)
    {
      var i, n :| 0 <= i < |items| && n in f(items[i]) && t[k] == (LegacyConstName(n), n);
      var r := InterfaceName(items[i], extension, p);
      assert f(items[i]) == r;
      OnlyPiece(r, n);
    }
  }
}
