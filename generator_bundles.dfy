/**
 * The bundle-resource tree of the older `Generator.Do`: items grouped by
 * their first path component, each group turned into a directory by the
 * recursive `ToBundleDirectory`, and the group named `Resources` kept as the
 * root.
 */
module GeneratorBundles {
  import opened Failures
  import opened Strings
  import opened DotNetPath
  import opened Tables
  import opened Extensions
  import opened ProjectItems
  import opened ValidNames
  import opened GeneratorNames
  import opened GeneratorTables

  const ResourcesDirectoryName: string := "Resources"

  /** `Generator.BundleDirectory`: a class name, its constants and its nested classes. */
  datatype BundleDirectory = BundleDirectory(name: string, resources: Table, subdirectories: seq<BundleDirectory>)

  /** `KeyValuePair<string[], string>`: the path components still to place and the item's include. */
  datatype BundleItem = BundleItem(components: seq<string>, evaluatedInclude: string)

  /** Every item still has a component to be grouped by. */
  predicate Groupable(xs: seq<BundleItem>)
  {
    forall i :: 0 <= i < |xs| ==> |xs[i].components| >= 1
  }

  /** The longest component list: what every level of grouping shortens. */
  function Height(xs: seq<BundleItem>): nat
  {
    if xs == [] then 0
    else
      var rest := Height(xs[1..]);
      if |xs[0].components| > rest then |xs[0].components| else rest
  }

  /** `Where(x => x.ItemType == "BundleResource").Select(x => (Split(Separator), EvaluatedInclude))`. */
  function BundleItems(items: seq<ProjectItem>, p: Platform): (r: seq<BundleItem>)
    ensures Groupable(r)
  {
    if items == [] then []
    else
      var head := if items[0].itemType == "BundleResource" then [BundleItem(Components(items[0], p), items[0].evaluatedInclude)] else [];
      head + BundleItems(items[1..], p)
  }

  /** The group keys, `x.Key.FirstOrDefault()`, one per item. */
  function Heads(xs: seq<BundleItem>): (r: seq<string>)
    requires Groupable(xs)
    ensures |r| == |xs|
    ensures forall i :: 0 <= i < |xs| ==> r[i] == xs[i].components[0]
  {
    if xs == [] then [] else [xs[0].components[0]] + Heads(xs[1..])
  }

  /** `GroupBy(x => x.Key.FirstOrDefault())`: the keys of the groups, in order of first appearance. */
  function GroupKeys(xs: seq<BundleItem>): (r: seq<string>)
    requires Groupable(xs)
    ensures |r| <= |xs|
  {
    Distinct(Heads(xs), Same)
  }

  /** The group of `k` with the first component dropped, `Select(x => (x.Key.Skip(1), x.Value))`. */
  function Members(xs: seq<BundleItem>, k: string): (r: seq<BundleItem>)
    requires Groupable(xs)
    ensures xs != [] ==> Height(r) < Height(xs)
  {
    if xs == [] then []
    else
      var head := if xs[0].components[0] == k then [BundleItem(xs[0].components[1..], xs[0].evaluatedInclude)] else [];
      var r := head + Members(xs[1..], k);
      assert head != [] ==> r[0] == head[0] && r[1..] == Members(xs[1..], k);
      assert head == [] ==> r == Members(xs[1..], k);
      r
  }

  /** `items.Where(x => x.Key.Length > 1)`: the items that belong to a subdirectory. */
  function Nested(xs: seq<BundleItem>): (r: seq<BundleItem>)
    ensures Groupable(r) && Height(r) <= Height(xs)
  {
    if xs == [] then []
    else
      var head := if |xs[0].components| > 1 then [xs[0]] else [];
      var r := head + Nested(xs[1..]);
      assert head != [] ==> r[0] == head[0] && r[1..] == Nested(xs[1..]);
      assert head == [] ==> r == Nested(xs[1..]);
      r
  }

  /**
   * The key of a resource: the file name without extension, cut before the
   * first `@` when that is not the first character.
   */
  function ResourceKey(component: string, p: Platform): string
  {
    var n := GetFileNameWithoutExtension(component, p);
    var at := IndexOf(n, '@');
    if at > 0 then n[..at] else n
  }

  /** `items.Where(x => x.Key.Length == 1)` projected to `(key, bundle reference)`. */
  function Leaves(xs: seq<BundleItem>, p: Platform): seq<(string, string)>
  {
    if xs == [] then []
    else
      var head := if |xs[0].components| == 1 then [(ResourceKey(xs[0].components[0], p), LegacyBundleName(xs[0].evaluatedInclude, p))] else [];
      head + Leaves(xs[1..], p)
  }

  function PairKey(e: (string, string)): string
  {
    e.0
  }

  /** `Where(x => !string.IsNullOrWhiteSpace(x.Key))`. */
  function NonBlank(es: seq<(string, string)>): (r: seq<(string, string)>)
    ensures forall e :: e in r <==> e in es && !IsBlank(e.0)
  {
    if es == [] then []
    else (if IsBlank(es[0].0) then [] else [es[0]]) + NonBlank(es[1..])
  }

  /**
   * The resources of one directory: the first leaf per key, blank keys
   * dropped, keyed by the sanitised key; a sanitised collision is rethrown
   * as "Error generating bundle resources".
   */
  function BundleResources(members: seq<BundleItem>, p: Platform): Result<Table>
  {
    ConstTable(NonBlank(Distinct(Leaves(members, p), PairKey)), BundleResourcesError)
  }

  /** `ToBundleDirectory`: resources first, then the subdirectories in group order; the first exception ends it. */
  function ToBundleDirectory(name: string, members: seq<BundleItem>, p: Platform): (r: Result<BundleDirectory>)
    ensures r.Ok? ==> r.value.name == LegacyConstName(name)
    decreases Height(members), 1
  {
    match BundleResources(members, p)
    case Fail(e) => Fail(e)
    case Ok(resources) =>
      var nested := Nested(members);
      match Directories(GroupKeys(nested), nested, p)
      case Fail(e) => Fail(e)
      case Ok(subdirectories) => Ok(BundleDirectory(LegacyConstName(name), resources, subdirectories))
  }

  /** `GroupBy(...).Select(ToBundleDirectory).ToArray()` over the given group keys. */
  function Directories(keys: seq<string>, xs: seq<BundleItem>, p: Platform): Result<seq<BundleDirectory>>
    requires Groupable(xs) && (keys == [] || xs != [])
    decreases Height(xs), 0, |keys|
  {
    if keys == [] then Ok([])
    else
      match ToBundleDirectory(keys[0], Members(xs, keys[0]), p)
      case Fail(e) => Fail(e)
      case Ok(d) =>
        match Directories(keys[1..], xs, p)
        case Fail(e) => Fail(e)
        case Ok(ds) => Ok([d] + ds)
  }

  /** The directory used when the project has no `Resources` group. */
  const EmptyResources: BundleDirectory := BundleDirectory(ResourcesDirectoryName, [], [])

  /** `FirstOrDefault(x => x.Name == "Resources") ?? new BundleDirectory { Name = "Resources", ... }`. */
  function RootBundle(dirs: seq<BundleDirectory>): (r: BundleDirectory)
    ensures r.name == ResourcesDirectoryName
    ensures (forall i :: 0 <= i < |dirs| ==> dirs[i].name != ResourcesDirectoryName) ==> r == EmptyResources
    ensures forall i ::
      (0 <= i < |dirs| && dirs[i].name == ResourcesDirectoryName && forall j :: 0 <= j < i ==> dirs[j].name != ResourcesDirectoryName)
      ==> r == dirs[i]
  {
    if dirs == [] then EmptyResources
    else if dirs[0].name == ResourcesDirectoryName then dirs[0]
    else
      var r := RootBundle(dirs[1..]);
      assert forall i :: 1 <= i < |dirs| ==> dirs[i] == dirs[1..][i - 1];
      r
  }

  /**
   * The bundle tree of `Do`: every top-level group is converted (a failure in
   * any of them is fatal), and the one named `Resources` is kept.
   */
  function BundleTree(items: seq<ProjectItem>, p: Platform): Result<BundleDirectory>
  {
    var all := BundleItems(items, p);
    match Directories(GroupKeys(all), all, p)
    case Fail(e) => Fail(e)
    case Ok(dirs) => Ok(RootBundle(dirs))
  }

  /* ------------------------------------ lemmas ------------------------------------ */

  /** A successful conversion has one directory per key, each the conversion of that key's group. */
  lemma {:induction false} DirectoriesPointwise(keys: seq<string>, xs: seq<BundleItem>, p: Platform)
    requires Groupable(xs) && (keys == [] || xs != [])
    requires Directories(keys, xs, p).Ok?
    ensures var ds := Directories(keys, xs, p).value;
      && |ds| == |keys|
      && forall i :: 0 <= i < |keys| ==>
           (ToBundleDirectory(keys[i], Members(xs, keys[i]), p) == Ok(ds[i]) && ds[i].name == LegacyConstName(keys[i]))
    decreases |keys|
  {
    if keys != [] {
      var first := ToBundleDirectory(keys[0], Members(xs, keys[0]), p);
      var rest := Directories(keys[1..], xs, p);
      assert first.Ok? && rest.Ok?;
      var ds := Directories(keys, xs, p).value;
      assert ds == [first.value] + rest.value;
      DirectoriesPointwise(keys[1..], xs, p);
      forall i | 0 <= i < |keys|
        ensures ToBundleDirectory(keys[i], Members(xs, keys[i]), p) == Ok(ds[i]) && ds[i].name == LegacyConstName(keys[i])
      {
        if i > 0 {
          assert keys[i] == keys[1..][i - 1] && ds[i] == rest.value[i - 1];
        }
      }
    }
  }

  /**
   * A group that fails to convert makes the whole conversion fail, even a
   * top-level group other than `Resources` whose directory would be dropped.
   */
  lemma {:induction false} AnyGroupFailureIsFatal(keys: seq<string>, xs: seq<BundleItem>, p: Platform, i: int)
    requires Groupable(xs) && (keys == [] || xs != [])
    requires 0 <= i < |keys| && ToBundleDirectory(keys[i], Members(xs, keys[i]), p).Fail?
    ensures Directories(keys, xs, p).Fail?
    decreases |keys|
  {
    var first := ToBundleDirectory(keys[0], Members(xs, keys[0]), p);
    if i > 0 && first.Ok? {
      assert keys[1..][i - 1] == keys[i];
      AnyGroupFailureIsFatal(keys[1..], xs, p, i - 1);
      assert Directories(keys[1..], xs, p).Fail?;
    }
  }

  /** The entries of a finished resources table: the kept leaves with their keys sanitised. */
  lemma BundleResourcesEntries(members: seq<BundleItem>, p: Platform)
    requires BundleResources(members, p).Ok?
    ensures var kept := NonBlank(Distinct(Leaves(members, p), PairKey));
      && BundleResources(members, p).value == ConstPairs(kept)
      && UniqueKeys(BundleResources(members, p).value)
  {
  }

  /**
   * What a directory's resources hold: keys that are clean and not blank,
   * the first leaf of every non-blank key, and nothing that is not a leaf.
   */
  lemma BundleResourcesContents(members: seq<BundleItem>, p: Platform)
    requires BundleResources(members, p).Ok?
    ensures var t := BundleResources(members, p).value;
      && UniqueKeys(t)
      && (forall k :: 0 <= k < |t| ==> '-' !in t[k].0 && '.' !in t[k].0 && !StartsWithDigit(t[k].0) && !IsBlank(t[k].0))
      && (forall k :: 0 <= k < |t| ==> exists e :: e in Leaves(members, p) && !IsBlank(e.0) && t[k] == (LegacyConstName(e.0), e.1))
  {
    var t := BundleResources(members, p).value;
    BundleResourcesEntries(members, p);
    forall k | 0 <= k < |t|
      ensures !IsBlank(t[k].0)
      ensures exists e :: e in Leaves(members, p) && !IsBlank(e.0) && t[k] == (LegacyConstName(e.0), e.1)
    {
      var e := ResourceEntryFrom(members, p, k);
      LegacyConstNameNotBlank(e.0);
    }
  }

  /** Every resource comes from a leaf with a non-blank key. */
  lemma ResourceEntryFrom(members: seq<BundleItem>, p: Platform, k: int) returns (e: (string, string))
    requires BundleResources(members, p).Ok?
    requires 0 <= k < |BundleResources(members, p).value|
    ensures e in Leaves(members, p) && !IsBlank(e.0)
    ensures BundleResources(members, p).value[k] == (LegacyConstName(e.0), e.1)
  {
    var leaves := Leaves(members, p);
    var d := Distinct(leaves, PairKey);
    var kept := NonBlank(d);
    BundleResourcesEntries(members, p);
    e := kept[k];
    assert e in kept;
    DistinctIsFirstOccurrences(leaves, PairKey);
    var j :| 0 <= j < |d| && d[j] == e;
    assert e == leaves[FirstPositions(leaves, PairKey)[j]];
  }

  /** The first leaf with a non-blank key is the one its constant holds: later leaves with that key are skipped. */
  lemma FirstLeafWins(members: seq<BundleItem>, p: Platform, i: int)
    requires BundleResources(members, p).Ok?
    requires 0 <= i < |Leaves(members, p)| && FirstOccurrence(Leaves(members, p), PairKey, i)
    requires !IsBlank(Leaves(members, p)[i].0)
    ensures (LegacyConstName(Leaves(members, p)[i].0), Leaves(members, p)[i].1) in BundleResources(members, p).value
  {
    var leaves := Leaves(members, p);
    var d := Distinct(leaves, PairKey);
    var kept := NonBlank(d);
    var t := BundleResources(members, p).value;
    BundleResourcesEntries(members, p);
    DistinctIsFirstOccurrences(leaves, PairKey);
    var ps := FirstPositions(leaves, PairKey);
    var j :| 0 <= j < |ps| && ps[j] == i;
    assert d[j] == leaves[i];
    assert leaves[i] in kept;
    var k :| 0 <= k < |kept| && kept[k] == leaves[i];
    assert t[k] == (LegacyConstName(leaves[i].0), leaves[i].1);
  }

  /**
   * Scale variants of one file share one resource key: `icon@2x.png` and
   * `icon.png` both give `icon`.
   */
  lemma ScaleVariantsShareKey(stem: string, suffix: string, ext: string, p: Platform)
    requires stem != [] && '@' !in stem && '.' !in stem && NoBreaks(stem, p)
    requires |suffix| >= 1 && suffix[0] == '@' && '.' !in suffix && NoBreaks(suffix, p)
    requires PlainExtension(ext, p)
    ensures ResourceKey(stem + suffix + ext, p) == stem
    ensures ResourceKey(stem + ext, p) == stem
  {
    var n := stem + suffix;
    StemOfPlainName(n, ext, p);
    StemOfPlainName(stem, ext, p);
    assert n[|stem|] == '@';
    assert IndexOf(n, '@') == |stem| by {
      assert forall j :: 0 <= j < |stem| ==> n[j] == stem[j];
    }
    assert n[..|stem|] == stem;
  }

  /** A plain name with a plain extension loses exactly that extension. */
  lemma StemOfPlainName(n: string, ext: string, p: Platform)
    requires NoBreaks(n, p) && PlainExtension(ext, p)
    ensures GetFileNameWithoutExtension(n + ext, p) == n
  {
    assert NoBreaks(n + ext, p);
    FileNameOfPlainName(n + ext, p);
    ExtensionOfName(n, ext, p);
  }

  /* -------------------------------- a clean tree -------------------------------- */

  /**
   * What `GetCorrectConstName` guarantees throughout a tree: class names and
   * constant names free of `-`, `.` and a leading digit, constant names not
   * blank and distinct within their class.
   */
  predicate CleanTree(d: BundleDirectory)
  {
    && '-' !in d.name && '.' !in d.name && !StartsWithDigit(d.name)
    && UniqueKeys(d.resources)
    && (forall k :: 0 <= k < |d.resources| ==>
          ('-' !in d.resources[k].0 && '.' !in d.resources[k].0 && !StartsWithDigit(d.resources[k].0) && !IsBlank(d.resources[k].0)))
    && forall i :: 0 <= i < |d.subdirectories| ==> CleanTree(d.subdirectories[i])
  }

  lemma {:induction false} BuiltDirectoryIsClean(name: string, members: seq<BundleItem>, p: Platform)
    requires ToBundleDirectory(name, members, p).Ok?
    ensures CleanTree(ToBundleDirectory(name, members, p).value)
    decreases Height(members), 1
  {
    BundleResourcesContents(members, p);
    var nested := Nested(members);
    BuiltDirectoriesAreClean(GroupKeys(nested), nested, p);
  }

  lemma {:induction false} BuiltDirectoriesAreClean(keys: seq<string>, xs: seq<BundleItem>, p: Platform)
    requires Groupable(xs) && (keys == [] || xs != [])
    requires Directories(keys, xs, p).Ok?
    ensures forall i :: 0 <= i < |Directories(keys, xs, p).value| ==> CleanTree(Directories(keys, xs, p).value[i])
    decreases Height(xs), 0, |keys|
  {
    if keys != [] {
      DirectoriesPointwise(keys, xs, p);
      var ds := Directories(keys, xs, p).value;
      forall i | 0 <= i < |ds| ensures CleanTree(ds[i]) {
        BuiltDirectoryIsClean(keys[i], Members(xs, keys[i]), p);
      }
    }
  }

  /** A successful tree is the root chosen among the converted top-level groups. */
  lemma BundleTreeConverted(items: seq<ProjectItem>, p: Platform)
    requires BundleTree(items, p).Ok?
    ensures var all := BundleItems(items, p);
      && Directories(GroupKeys(all), all, p).Ok?
      && BundleTree(items, p).value == RootBundle(Directories(GroupKeys(all), all, p).value)
  {
  }

  /** The root chosen among clean directories is clean. */
  lemma RootOfCleanIsClean(dirs: seq<BundleDirectory>)
    requires forall i :: 0 <= i < |dirs| ==> CleanTree(dirs[i])
    ensures CleanTree(RootBundle(dirs))
  {
    var r := RootBundle(dirs);
    RootChoice(dirs);
    if r in dirs {
      var j :| 0 <= j < |dirs| && dirs[j] == r;
      assert CleanTree(dirs[j]);
    } else {
      EmptyResourcesIsClean();
    }
  }

  lemma EmptyResourcesIsClean()
    ensures CleanTree(EmptyResources)
  {
    assert !StartsWithDigit(ResourcesDirectoryName) by { assert ResourcesDirectoryName[0] == 'R'; }
  }

  /** The root is one of the directories or the empty default. */
  lemma {:induction false} RootChoice(dirs: seq<BundleDirectory>)
    ensures RootBundle(dirs) in dirs || RootBundle(dirs) == EmptyResources
  {
    if dirs != [] && dirs[0].name != ResourcesDirectoryName {
      RootChoice(dirs[1..]);
    }
  }

  /** The tree `Do` renders is clean, whether it was built or is the empty default. */
  lemma BundleTreeIsClean(items: seq<ProjectItem>, p: Platform)
    requires BundleTree(items, p).Ok?
    ensures CleanTree(BundleTree(items, p).value)
  {
    var all := BundleItems(items, p);
    BundleTreeConverted(items, p);
    BuiltDirectoriesAreClean(GroupKeys(all), all, p);
    RootOfCleanIsClean(Directories(GroupKeys(all), all, p).value);
  }

  /** Some directory named `Resources` comes first among those so named. */
  lemma {:induction false} FirstNamed(dirs: seq<BundleDirectory>, i: int)
    requires 0 <= i < |dirs| && dirs[i].name == ResourcesDirectoryName
    ensures RootBundle(dirs) in dirs
    decreases i
  {
    if i > 0 && dirs[0].name != ResourcesDirectoryName {
      assert dirs[1..][i - 1] == dirs[i];
      FirstNamed(dirs[1..], i - 1);
    }
  }

  /**
   * The root is the conversion of the top-level group `Resources` when there
   * is one, and the empty `Resources` directory otherwise; every other
   * top-level group is dropped.
   */
  lemma BundleTreeRoot(items: seq<ProjectItem>, p: Platform)
    requires BundleTree(items, p).Ok?
    ensures var all := BundleItems(items, p);
      && (ResourcesDirectoryName in Heads(all) ==>
            ToBundleDirectory(ResourcesDirectoryName, Members(all, ResourcesDirectoryName), p) == BundleTree(items, p))
      && (ResourcesDirectoryName !in Heads(all) ==> BundleTree(items, p).value == EmptyResources)
  {
    var all := BundleItems(items, p);
    var keys := GroupKeys(all);
    BundleTreeConverted(items, p);
    var dirs := Directories(keys, all, p).value;
    DirectoriesPointwise(keys, all, p);
    GroupKeysFacts(all);
    RootOfConverted(keys, dirs);
    if ResourcesDirectoryName in Heads(all) {
      var i :| 0 <= i < |keys| && keys[i] == ResourcesDirectoryName;
      assert ToBundleDirectory(keys[i], Members(all, keys[i]), p) == Ok(dirs[i]);
    }
  }

  /** The group keys are the heads, each once. */
  lemma GroupKeysFacts(xs: seq<BundleItem>)
    requires Groupable(xs)
    ensures forall k :: k in GroupKeys(xs) <==> k in Heads(xs)
    ensures forall j, k :: 0 <= j < k < |GroupKeys(xs)| ==> GroupKeys(xs)[j] != GroupKeys(xs)[k]
  {
    var heads := Heads(xs);
    var keys := GroupKeys(xs);
    DistinctKeySet(heads, Same);
    DistinctKeysUnique(heads, Same);
    forall k ensures k in keys <==> k in heads {
      if k in heads {
        var h :| 0 <= h < |heads| && heads[h] == k;
        assert Same(heads[h]) in KeySet(heads, Same);
      }
      if k in keys {
        var h :| 0 <= h < |keys| && keys[h] == k;
        assert Same(keys[h]) in KeySet(keys, Same);
      }
    }
  }

  /** Among directories converted from distinct keys, the root is the one whose key is `Resources`. */
  lemma RootOfConverted(keys: seq<string>, dirs: seq<BundleDirectory>)
    requires |dirs| == |keys|
    requires forall i :: 0 <= i < |keys| ==> dirs[i].name == LegacyConstName(keys[i])
    requires forall j, k :: 0 <= j < k < |keys| ==> keys[j] != keys[k]
    ensures forall i :: 0 <= i < |keys| && keys[i] == ResourcesDirectoryName ==> RootBundle(dirs) == dirs[i]
    ensures ResourcesDirectoryName !in keys ==> RootBundle(dirs) == EmptyResources
  {
    forall i | 0 <= i < |keys| && keys[i] == ResourcesDirectoryName ensures RootBundle(dirs) == dirs[i] {
      forall j | 0 <= j < i ensures dirs[j].name != ResourcesDirectoryName {
        LegacyConstNameOfResources(keys[j]);
      }
      LegacyConstNameOfResources(keys[i]);
    }
    if ResourcesDirectoryName !in keys {
      forall i | 0 <= i < |keys| ensures dirs[i].name != ResourcesDirectoryName {
        LegacyConstNameOfResources(keys[i]);
      }
    }
  }
}
