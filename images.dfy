/**
 * `ImagesProcessor`: bundle images go into a tree of directories rooted at
 * `Resources`, asset-catalog images into the root's own table, and the tree
 * renders as nested static classes.
 *
 * The source walks and mutates the directory objects in place; here a
 * directory is a value and the walk is the pair of functions `Walk` (one step
 * in a list of sibling directories) and `Place` (inside one directory).
 */
module Images {
  import opened Failures
  import opened Strings
  import opened DotNetPath
  import opened ValidNames
  import opened Tables
  import opened ProjectItems

  datatype BundleDirectory = BundleDirectory(name: string, resources: Table, subdirectories: seq<BundleDirectory>)

  const SupportedImagesFormats: seq<string> :=
    [".png", ".tiff", ".tif", ".jpeg", ".jpg", ".gif", ".bmp", ".BMPf", ".ico", ".cur", ".xbm"]
  const SupportedBundleResourceProjectItemType: string := "BundleResource"
  const SupportedAssetResourceProjectItemType: string := "ImageAsset"
  const AssetSetExtension: string := ".imageset"
  const ResourcesDirectoryName: string := "Resources"

  function EmptyDirectory(name: string): BundleDirectory
  {
    BundleDirectory(name, [], [])
  }

  /** Sibling directories have distinct names. */
  predicate UniqueNames(ds: seq<BundleDirectory>)
  {
    forall i, j :: 0 <= i < j < |ds| ==> ds[i].name != ds[j].name
  }

  /** What the processor keeps true of every directory of its tree. */
  predicate WellFormed(d: BundleDirectory)
    decreases d
  {
    UniqueKeys(d.resources)
    && UniqueNames(d.subdirectories)
    && forall i :: 0 <= i < |d.subdirectories| ==> WellFormed(d.subdirectories[i])
  }

  predicate AllWellFormed(ds: seq<BundleDirectory>)
  {
    forall i :: 0 <= i < |ds| ==> WellFormed(ds[i])
  }

  /** `FirstOrDefault(x => x.Name == name)`, as a position. */
  function FindDirectory(ds: seq<BundleDirectory>, name: string): (r: int)
    ensures -1 <= r < |ds|
    ensures r >= 0 ==> ds[r].name == name && forall j :: 0 <= j < r ==> ds[j].name != name
    ensures r < 0 ==> forall j :: 0 <= j < |ds| ==> ds[j].name != name
  {
    if ds == [] then -1
    else if ds[0].name == name then 0
    else var k := FindDirectory(ds[1..], name); if k < 0 then -1 else k + 1
  }

  /**
   * The last step of `AcceptBundleResourceProjectItem`: a value already in
   * the directory is accepted without change, a new value under a key already
   * present is a duplicate key, anything else is appended.
   */
  function AddResource(d: BundleDirectory, key: string, value: string): (r: Result<BundleDirectory>)
    ensures HasValue(d.resources, value) ==> r == Ok(d)
    ensures !HasValue(d.resources, value) && HasKey(d.resources, key) ==> r == Fail(DuplicateKey(key))
    ensures !HasValue(d.resources, value) && !HasKey(d.resources, key) ==> r == Ok(d.(resources := d.resources + [(key, value)]))
  {
    if HasValue(d.resources, value) then Ok(d)
    else match Add(d.resources, key, value)
      case Ok(t) => Ok(d.(resources := t))
      case Fail(e) => Fail(e)
  }

  /**
   * One turn of the `while` loop: find the directory named `comps[0]` among
   * `ds`, or append a new one, and continue inside it with the rest.
   */
  function Walk(ds: seq<BundleDirectory>, comps: seq<string>, key: string, value: string): (r: Result<seq<BundleDirectory>>)
    requires |comps| >= 2
    ensures r.Ok? ==> |ds| <= |r.value| <= |ds| + 1
    decreases |comps|, 0
  {
    var i := FindDirectory(ds, comps[0]);
    var dir := if i >= 0 then ds[i] else EmptyDirectory(comps[0]);
    match Place(dir, comps[1..], key, value)
    case Fail(e) => Fail(e)
    case Ok(d) => Ok(if i >= 0 then ds[i := d] else ds + [d])
  }

  /** Inside `dir` with `rest` components left: the last one names the resource, the others subdirectories. */
  function Place(dir: BundleDirectory, rest: seq<string>, key: string, value: string): (r: Result<BundleDirectory>)
    requires |rest| >= 1
    ensures r.Ok? ==> r.value.name == dir.name
    decreases |rest|, 1
  {
    if |rest| == 1 then AddResource(dir, key, value)
    else match Walk(dir.subdirectories, rest, key, value)
      case Fail(e) => Fail(e)
      case Ok(subs) => Ok(dir.(subdirectories := subs))
  }

  /**
   * Puts `(key, value)` at the end of `comps`: straight into the root when
   * there is one component, otherwise along a walk that starts from a list
   * holding only the root. A first component other than the root's name
   * creates a directory in that list, and the list is then thrown away.
   */
  function PlaceAlong(root: BundleDirectory, comps: seq<string>, key: string, value: string): (r: Result<BundleDirectory>)
    requires |comps| >= 1
    ensures r.Ok? ==> r.value.name == root.name
    ensures |comps| == 1 ==> r == Place(root, comps, key, value)
    ensures |comps| >= 2 && comps[0] == root.name ==> r == Place(root, comps[1..], key, value)
    ensures |comps| >= 2 && comps[0] != root.name ==> r == Ok(root)
  {
    if |comps| == 1 then AddResource(root, key, value)
    else if comps[0] == root.name then
      assert FindDirectory([root], comps[0]) == 0;
      match Walk([root], comps, key, value)
      case Ok(ds) => Ok(ds[0])
      case Fail(e) => Fail(e)
    else
      assert FindDirectory([root], comps[0]) == -1;
      PlaceInFreshDirectory(comps[0], comps[1..], key, value);
      match Walk([root], comps, key, value)
      case Ok(ds) => Ok(ds[0])
      case Fail(e) => Fail(e)
  }
  /** The constant name of a bundle image: that of its last path component. */
  function BundleKey(comps: seq<string>, p: Platform): (r: string)
    requires |comps| >= 1
    ensures CleanConstName(r)
  {
    ConstName(BundleName(comps[|comps| - 1], p))
  }

  /**
   * `AcceptBundleResourceProjectItem`: an item whose extension is not one of
   * the listed image formats (compared case-sensitively) is declined; the
   * others are placed along their path components, under the constant name
   * of the file and the bundle reference of the whole path.
   */
  function AcceptBundleResource(root: BundleDirectory, path: string, p: Platform): (r: (Result<bool>, BundleDirectory))
    ensures GetExtension(path, p) !in SupportedImagesFormats ==> r == (Ok(false), root)
    ensures r.0.Fail? ==> r.1 == root
    ensures r.0.Ok? && r.0.value ==> GetExtension(path, p) in SupportedImagesFormats
  {
    if GetExtension(path, p) !in SupportedImagesFormats then (Ok(false), root)
    else
      var comps := Split(path, DirectorySeparator(p));
      match PlaceAlong(root, comps, BundleKey(comps, p), BundleName(path, p))
      case Ok(d) => (Ok(true), d)
      case Fail(e) => (Fail(e), root)
  }

  /**
   * `AcceptAssetResourceProjectItem`: a `Contents.json` under a `.imageset`
   * directory adds its asset to the root's table, with no value check, so a
   * repeated constant name is a duplicate key.
   */
  function AcceptAssetResource(root: BundleDirectory, path: string, p: Platform): (r: (Result<bool>, BundleDirectory))
    ensures AssetSetEntry(path, AssetSetExtension, p).None? ==> r == (Ok(false), root)
    ensures r.0.Fail? ==> r.1 == root && r.0.error.DuplicateKey?
    ensures r.0 == Ok(true) ==> r.1 == root.(resources := root.resources + [AssetSetEntry(path, AssetSetExtension, p).value])
    ensures AssetSetEntry(path, AssetSetExtension, p).Some?
            ==> r.0 != Ok(false) && (r.0.Fail? <==> HasKey(root.resources, AssetSetEntry(path, AssetSetExtension, p).value.0))
  {
    match AssetSetEntry(path, AssetSetExtension, p)
    case None => (Ok(false), root)
    case Some((k, v)) =>
      match Add(root.resources, k, v)
      case Ok(t) => (Ok(true), root.(resources := t))
      case Fail(e) => (Fail(e), root)
  }

  /** `Accept`: dispatch on the item type; every other type is declined. */
  function AcceptItem(root: BundleDirectory, item: ProjectItem, p: Platform): (r: (Result<bool>, BundleDirectory))
    ensures item.itemType != SupportedAssetResourceProjectItemType && item.itemType != SupportedBundleResourceProjectItemType
            ==> r == (Ok(false), root)
  {
    if item.itemType == SupportedAssetResourceProjectItemType then AcceptAssetResource(root, item.evaluatedInclude, p)
    else if item.itemType == SupportedBundleResourceProjectItemType then AcceptBundleResource(root, item.evaluatedInclude, p)
    else (Ok(false), root)
  }

  /* ---------------------------------------------------------------- */
  /* The tree only grows: existing directories and entries stay put.   */

  /** `b` holds everything `a` holds, at the same places. */
  predicate Extends(a: BundleDirectory, b: BundleDirectory)
    decreases a
  {
    a.name == b.name
    && |a.resources| <= |b.resources| && a.resources == b.resources[..|a.resources|]
    && |a.subdirectories| <= |b.subdirectories|
    && forall i :: 0 <= i < |a.subdirectories| ==> Extends(a.subdirectories[i], b.subdirectories[i])
  }

  predicate ExtendsAll(as_: seq<BundleDirectory>, bs: seq<BundleDirectory>)
  {
    |as_| <= |bs| && forall i :: 0 <= i < |as_| ==> Extends(as_[i], bs[i])
  }

  lemma {:induction false} ExtendsReflexive(d: BundleDirectory)
    ensures Extends(d, d)
    decreases d
  {
    forall i | 0 <= i < |d.subdirectories| ensures Extends(d.subdirectories[i], d.subdirectories[i]) {
      ExtendsReflexive(d.subdirectories[i]);
    }
    assert d.resources[..|d.resources|] == d.resources;
  }

  /** A walk reuses the directory it finds and appends one only when none has the name. */
  lemma {:induction false} WalkExtends(ds: seq<BundleDirectory>, comps: seq<string>, key: string, value: string)
    requires |comps| >= 2
    requires Walk(ds, comps, key, value).Ok?
    ensures ExtendsAll(ds, Walk(ds, comps, key, value).value)
    ensures |Walk(ds, comps, key, value).value| == |ds| + 1 <==> FindDirectory(ds, comps[0]) < 0
    decreases |comps|, 0
  {
    var i := FindDirectory(ds, comps[0]);
    var dir := if i >= 0 then ds[i] else EmptyDirectory(comps[0]);
    PlaceExtends(dir, comps[1..], key, value);
    var r := Walk(ds, comps, key, value).value;
    forall j | 0 <= j < |ds| ensures Extends(ds[j], r[j]) {
      if j != i { ExtendsReflexive(ds[j]); }
    }
  }

  lemma {:induction false} PlaceExtends(dir: BundleDirectory, rest: seq<string>, key: string, value: string)
    requires |rest| >= 1
    requires Place(dir, rest, key, value).Ok?
    ensures Extends(dir, Place(dir, rest, key, value).value)
    decreases |rest|, 1
  {
    var r := Place(dir, rest, key, value).value;
    if |rest| == 1 {
      forall i | 0 <= i < |dir.subdirectories| ensures Extends(dir.subdirectories[i], r.subdirectories[i]) {
        ExtendsReflexive(dir.subdirectories[i]);
      }
      if r.resources != dir.resources {
        assert r.resources == dir.resources + [(key, value)];
        assert r.resources[..|dir.resources|] == dir.resources;
      } else {
        assert r.resources[..|dir.resources|] == dir.resources;
      }
    } else {
      WalkExtends(dir.subdirectories, rest, key, value);
      assert r.resources[..|dir.resources|] == dir.resources;
    }
  }

  lemma PlaceAlongExtends(root: BundleDirectory, comps: seq<string>, key: string, value: string)
    requires |comps| >= 1 && PlaceAlong(root, comps, key, value).Ok?
    ensures Extends(root, PlaceAlong(root, comps, key, value).value)
  {
    if |comps| == 1 {
      PlaceExtends(root, comps, key, value);
    } else {
      WalkExtends([root], comps, key, value);
    }
  }

  /** Accepting an item never removes or moves anything already in the tree. */
  lemma AcceptExtends(root: BundleDirectory, item: ProjectItem, p: Platform)
    ensures Extends(root, AcceptItem(root, item, p).1)
  {
    var r := AcceptItem(root, item, p).1;
    ExtendsReflexive(root);
    if item.itemType == SupportedAssetResourceProjectItemType {
      if r != root {
        assert r.resources[..|root.resources|] == root.resources;
      }
    } else if item.itemType == SupportedBundleResourceProjectItemType {
      var path := item.evaluatedInclude;
      if GetExtension(path, p) in SupportedImagesFormats {
        var comps := Split(path, DirectorySeparator(p));
        if PlaceAlong(root, comps, BundleKey(comps, p), BundleName(path, p)).Ok? {
          PlaceAlongExtends(root, comps, BundleKey(comps, p), BundleName(path, p));
        }
      }
    }
  }

  /* ---------------------------------------------------------------- */
  /* Well-formedness: distinct sibling names, distinct keys per table. */

  lemma {:induction false} WalkWellFormed(ds: seq<BundleDirectory>, comps: seq<string>, key: string, value: string)
    requires |comps| >= 2 && UniqueNames(ds) && AllWellFormed(ds)
    requires Walk(ds, comps, key, value).Ok?
    ensures UniqueNames(Walk(ds, comps, key, value).value) && AllWellFormed(Walk(ds, comps, key, value).value)
    decreases |comps|, 0
  {
    var i := FindDirectory(ds, comps[0]);
    var dir := if i >= 0 then ds[i] else EmptyDirectory(comps[0]);
    PlaceWellFormed(dir, comps[1..], key, value);
    var d := Place(dir, comps[1..], key, value).value;
    var r := Walk(ds, comps, key, value).value;
    assert forall j :: 0 <= j < |ds| && j != i ==> r[j] == ds[j];
    assert r[if i >= 0 then i else |ds|] == d;
  }

  lemma {:induction false} PlaceWellFormed(dir: BundleDirectory, rest: seq<string>, key: string, value: string)
    requires |rest| >= 1 && WellFormed(dir)
    requires Place(dir, rest, key, value).Ok?
    ensures WellFormed(Place(dir, rest, key, value).value)
    decreases |rest|, 1
  {
    if |rest| > 1 {
      WalkWellFormed(dir.subdirectories, rest, key, value);
    }
  }

  lemma PlaceAlongWellFormed(root: BundleDirectory, comps: seq<string>, key: string, value: string)
    requires |comps| >= 1 && WellFormed(root) && PlaceAlong(root, comps, key, value).Ok?
    ensures WellFormed(PlaceAlong(root, comps, key, value).value)
  {
    if |comps| == 1 {
      PlaceWellFormed(root, comps, key, value);
    } else {
      WalkWellFormed([root], comps, key, value);
    }
  }

  /** Accepting an item keeps the tree well formed. */
  lemma AcceptWellFormed(root: BundleDirectory, item: ProjectItem, p: Platform)
    requires WellFormed(root)
    ensures WellFormed(AcceptItem(root, item, p).1)
  {
    if item.itemType == SupportedBundleResourceProjectItemType {
      var path := item.evaluatedInclude;
      if GetExtension(path, p) in SupportedImagesFormats {
        var comps := Split(path, DirectorySeparator(p));
        if PlaceAlong(root, comps, BundleKey(comps, p), BundleName(path, p)).Ok? {
          PlaceAlongWellFormed(root, comps, BundleKey(comps, p), BundleName(path, p));
        }
      }
    }
  }

  /* ---------------------------------------------------------------- */
  /* Paths that do not start at `Resources`.                           */

  /** Nothing can go wrong inside a directory that was just created. */
  lemma {:induction false} PlaceInFreshDirectory(name: string, rest: seq<string>, key: string, value: string)
    requires |rest| >= 1
    ensures Place(EmptyDirectory(name), rest, key, value).Ok?
    decreases |rest|
  {
    if |rest| > 1 {
      assert FindDirectory([], rest[0]) == -1;
      PlaceInFreshDirectory(rest[0], rest[1..], key, value);
    }
  }

  /**
   * A path of two or more components whose first one is not the root's name
   * is accepted, yet the root comes out unchanged: the directory built for it
   * hangs off a list that is thrown away.
   */
  lemma OrphanPathLeavesRootUnchanged(root: BundleDirectory, comps: seq<string>, key: string, value: string)
    requires |comps| >= 2 && comps[0] != root.name
    ensures PlaceAlong(root, comps, key, value) == Ok(root)
  {
    assert FindDirectory([root], comps[0]) == -1;
    PlaceInFreshDirectory(comps[0], comps[1..], key, value);
  }

  /** The same for a whole bundle item, such as `Images/icon.png` beside `Resources/icon.png`. */
  lemma OrphanItemLeavesRootUnchanged(root: BundleDirectory, path: string, p: Platform)
    requires GetExtension(path, p) in SupportedImagesFormats
    requires |Split(path, DirectorySeparator(p))| >= 2
    requires Split(path, DirectorySeparator(p))[0] != root.name
    ensures AcceptBundleResource(root, path, p) == (Ok(true), root)
  {
    var comps := Split(path, DirectorySeparator(p));
    OrphanPathLeavesRootUnchanged(root, comps, BundleKey(comps, p), BundleName(path, p));
  }

  /* ---------------------------------------------------------------- */
  /* Where an image lands.                                             */

  /** The directory `dirs` names below `d`, one subdirectory at a time, when every step exists. */
  function Target(d: BundleDirectory, dirs: seq<string>): (r: Option<BundleDirectory>)
    ensures dirs == [] ==> r == Some(d)
    decreases |dirs|
  {
    if dirs == [] then Some(d)
    else
      var i := FindDirectory(d.subdirectories, dirs[0]);
      if i < 0 then None else Target(d.subdirectories[i], dirs[1..])
  }

  /** What a target holds: nothing when it does not exist yet. */
  function ResourcesAt(t: Option<BundleDirectory>): Table
  {
    if t.Some? then t.value.resources else []
  }

  /** The three outcomes of placing `(key, value)` in the directory `dirs` names below `dir`. */
  predicate PlacedAsTargetSays(dir: BundleDirectory, dirs: seq<string>, r: Result<BundleDirectory>, key: string, value: string)
  {
    var t := Target(dir, dirs);
    (t.Some? && HasValue(t.value.resources, value) ==> r == Ok(dir))
    && (t.Some? && !HasValue(t.value.resources, value) && HasKey(t.value.resources, key)
        ==> r == Fail(DuplicateKey(key)))
    && (!HasValue(ResourcesAt(t), value) && !HasKey(ResourcesAt(t), key)
        ==> r.Ok? && Target(r.value, dirs).Some?
            && Target(r.value, dirs).value.resources == ResourcesAt(t) + [(key, value)])
  }

  /** The outcome of `AcceptBundleResourceProjectItem` for a placement: `true` with the new tree, or the exception with the tree untouched. */
  function Accepted(root: BundleDirectory, placed: Result<BundleDirectory>): (Result<bool>, BundleDirectory)
  {
    match placed
    case Ok(d) => (Ok(true), d)
    case Fail(e) => (Fail(e), root)
  }

  /** The same three outcomes, as `Accept` reports them. */
  predicate AcceptedAsTargetSays(root: BundleDirectory, dirs: seq<string>, r: (Result<bool>, BundleDirectory), key: string, value: string)
  {
    var t := Target(root, dirs);
    (t.Some? && HasValue(t.value.resources, value) ==> r == (Ok(true), root))
    && (t.Some? && !HasValue(t.value.resources, value) && HasKey(t.value.resources, key)
        ==> r == (Fail(DuplicateKey(key)), root))
    && (!HasValue(ResourcesAt(t), value) && !HasKey(ResourcesAt(t), key)
        ==> r.0 == Ok(true) && Target(r.1, dirs).Some?
            && Target(r.1, dirs).value.resources == ResourcesAt(t) + [(key, value)])
  }

  lemma PlacedToAccepted(root: BundleDirectory, dirs: seq<string>, placed: Result<BundleDirectory>, key: string, value: string)
    requires PlacedAsTargetSays(root, dirs, placed, key, value)
    ensures AcceptedAsTargetSays(root, dirs, Accepted(root, placed), key, value)
  {
  }

  /**
   * For a supported image directly in the root or under the root's own name:
   * the three outcomes, at the directory the path's middle components name,
   * for the image's constant name and bundle reference.
   */
  predicate LandsAsTargetSays(root: BundleDirectory, path: string, p: Platform, r: (Result<bool>, BundleDirectory))
  {
    var comps := Split(path, DirectorySeparator(p));
    GetExtension(path, p) in SupportedImagesFormats && (|comps| == 1 || comps[0] == root.name)
    ==> AcceptedAsTargetSays(root, DestinationPath(comps), r, BundleKey(comps, p), BundleName(path, p))
  }

  /** The first step of a walk and the path left after it. */
  lemma DirectoriesTail(rest: seq<string>)
    requires |rest| >= 2
    ensures rest[..|rest| - 1][0] == rest[0]
    ensures rest[..|rest| - 1][1..] == rest[1..][..|rest| - 2]
  {
  }

  /**
   * A value the target already holds is accepted with nothing changed; a new
   * value under a key the target already has is a duplicate key; otherwise
   * the target, created on the way when missing, ends with `(key, value)`.
   */
  lemma {:induction false} PlaceLands(dir: BundleDirectory, rest: seq<string>, key: string, value: string)
    requires |rest| >= 1
    ensures PlacedAsTargetSays(dir, rest[..|rest| - 1], Place(dir, rest, key, value), key, value)
    decreases |rest|
  {
    if |rest| > 1 {
      var dirs := rest[..|rest| - 1];
      DirectoriesTail(rest);
      var subs := dir.subdirectories;
      var i := FindDirectory(subs, rest[0]);
      var child := if i >= 0 then subs[i] else EmptyDirectory(rest[0]);
      var inner := Place(child, rest[1..], key, value);
      PlaceLands(child, rest[1..], key, value);
      var dirs' := rest[1..][..|rest| - 2];
      var t := Target(dir, dirs);
      var t' := Target(child, dirs');
      assert i >= 0 ==> t == t';
      assert i < 0 ==> t == None && ResourcesAt(t') == [] by {
        if i < 0 && dirs' != [] { assert FindDirectory([], dirs'[0]) == -1; }
      }
      if inner.Ok? {
        var c' := inner.value;
        var subs' := if i >= 0 then subs[i := c'] else subs + [c'];
        var k := if i >= 0 then i else |subs|;
        assert Place(dir, rest, key, value) == Ok(dir.(subdirectories := subs'));
        assert subs'[k] == c';
        assert FindDirectory(subs', rest[0]) == k by {
          assert forall j :: 0 <= j < k ==> subs'[j] == subs[j];
        }
        assert Target(dir.(subdirectories := subs'), dirs) == Target(c', dirs');
        if i >= 0 && c' == child {
          assert subs' == subs;
        }
      }
    }
  }

  /** The directories an image passes through below the root: its path without the first and the last component. */
  function DestinationPath(comps: seq<string>): (r: seq<string>)
    requires |comps| >= 1
    ensures |r| == if |comps| == 1 then 0 else |comps| - 2
  {
    if |comps| == 1 then [] else comps[1..|comps| - 1]
  }

  /** From the root, a path of one name or under the root's own name places as its middle names say. */
  lemma PlaceAlongLands(root: BundleDirectory, comps: seq<string>, key: string, value: string)
    requires |comps| == 1 || (|comps| >= 2 && comps[0] == root.name)
    ensures PlacedAsTargetSays(root, DestinationPath(comps), PlaceAlong(root, comps, key, value), key, value)
  {
    var rest := if |comps| == 1 then comps else comps[1..];
    assert rest[..|rest| - 1] == DestinationPath(comps);
    assert PlaceAlong(root, comps, key, value) == Place(root, rest, key, value);
    PlaceLands(root, rest, key, value);
  }

  /**
   * `AcceptBundleResourceProjectItem` for an image directly in the root or
   * under the root's own name: a bundle reference the destination already
   * holds returns `true` and adds nothing; a new reference whose constant
   * name the destination already has throws; otherwise the destination,
   * created when missing, ends with the image's constant and reference.
   */
  lemma AcceptBundleResourceLands(root: BundleDirectory, path: string, p: Platform)
    ensures LandsAsTargetSays(root, path, p, AcceptBundleResource(root, path, p))
  {
    var comps := Split(path, DirectorySeparator(p));
    if GetExtension(path, p) in SupportedImagesFormats && (|comps| == 1 || comps[0] == root.name) {
      var key := BundleKey(comps, p);
      var value := BundleName(path, p);
      var placed := PlaceAlong(root, comps, key, value);
      PlaceAlongLands(root, comps, key, value);
      PlacedToAccepted(root, DestinationPath(comps), placed, key, value);
      assert AcceptBundleResource(root, path, p) == Accepted(root, placed);
    }
  }

  /** A `.png` file name with no path break is a single path component. */
  lemma PngIsOneComponent(stem: string, p: Platform)
    requires NoBreaks(stem, p)
    ensures DirectorySeparator(p) !in stem
    ensures Split(stem + ".png", DirectorySeparator(p)) == [stem + ".png"]
  {
    var sep := DirectorySeparator(p);
    var n := stem + ".png";
    assert IsBreak(sep, p);
    assert sep !in n by {
      forall j | 0 <= j < |n| ensures n[j] != sep {
        if j < |stem| { assert n[j] == stem[j]; }
      }
    }
    SplitJoin([n], sep);
  }

  /** A file name with no path break: one component, and `.png` is its extension. */
  lemma PngInRoot(stem: string, p: Platform)
    requires '@' !in stem && '\\' !in stem && NoBreaks(stem, p)
    ensures Split(stem + ".png", DirectorySeparator(p)) == [stem + ".png"]
    ensures GetExtension(stem + ".png", p) == ".png"
    ensures BundleName(stem + ".png", p) == stem
    ensures BundleKey([stem + ".png"], p) == ConstName(stem)
  {
    PngIsOneComponent(stem, p);
    ExtensionOfName(stem, ".png", p);
    BundleNameStripsOnePng(stem, p);
  }


  /** A `.png` directly in the root: the three outcomes at the root's own table. */
  lemma PngLandsInRoot(root: BundleDirectory, stem: string, p: Platform)
    requires '@' !in stem && '\\' !in stem && NoBreaks(stem, p)
    ensures var r := AcceptBundleResource(root, stem + ".png", p);
            (HasValue(root.resources, stem) ==> r == (Ok(true), root))
            && (!HasValue(root.resources, stem) && HasKey(root.resources, ConstName(stem))
                ==> r == (Fail(DuplicateKey(ConstName(stem))), root))
            && (!HasValue(root.resources, stem) && !HasKey(root.resources, ConstName(stem))
                ==> r.0 == Ok(true) && r.1.resources == root.resources + [(ConstName(stem), stem)])
  {
    PngInRoot(stem, p);
    assert ".png" in SupportedImagesFormats;
    AcceptBundleResourceLands(root, stem + ".png", p);
    assert DestinationPath([stem + ".png"]) == [];
    var r := AcceptBundleResource(root, stem + ".png", p);
    assert Target(root, []) == Some(root);
    assert r.0 == Ok(true) ==> Target(r.1, []) == Some(r.1);
  }

  /**
   * Two different images whose constant names coincide, such as `foo-bar.png`
   * and `foo.bar.png` (both `foo_bar`): the first is added, the second throws
   * a duplicate key and leaves the tree as the first left it.
   */
  lemma CollidingConstNamesThrow(root: BundleDirectory, a: string, b: string, p: Platform)
    requires '@' !in a && '\\' !in a && NoBreaks(a, p)
    requires '@' !in b && '\\' !in b && NoBreaks(b, p)
    requires a != b && ConstName(a) == ConstName(b)
    requires !HasValue(root.resources, a) && !HasValue(root.resources, b) && !HasKey(root.resources, ConstName(a))
    ensures var first := AcceptBundleResource(root, a + ".png", p);
            first.0 == Ok(true) && first.1.resources == root.resources + [(ConstName(a), a)]
            && AcceptBundleResource(first.1, b + ".png", p) == (Fail(DuplicateKey(ConstName(a))), first.1)
  {
    PngLandsInRoot(root, a, p);
    var first := AcceptBundleResource(root, a + ".png", p);
    AppendedEntry(root.resources, ConstName(a), a, b);
    PngLandsInRoot(first.1, b, p);
  }

  /** `foo-bar.png` after `foo.bar.png` in the root, as `foo.bar` and `foo-bar` share the constant `foo_bar`. */
  lemma HyphenBesideDotThrows(root: BundleDirectory, x: string, y: string, p: Platform)
    requires '@' !in x + y && '\\' !in x + y && NoBreaks(x, p) && NoBreaks(y, p)
    requires var a := x + "." + y; var b := x + "-" + y;
             !HasValue(root.resources, a) && !HasValue(root.resources, b) && !HasKey(root.resources, ConstName(a))
    ensures var first := AcceptBundleResource(root, x + "." + y + ".png", p);
            first.0 == Ok(true)
            && AcceptBundleResource(first.1, x + "-" + y + ".png", p) == (Fail(DuplicateKey(ConstName(x + "." + y))), first.1)
  {
    var a := x + "." + y;
    var b := x + "-" + y;
    assert a == x + ['.'] + y && b == x + ['-'] + y;
    SymbolsCollide(x, y, '.', '-');
    assert a[|x|] != b[|x|];
    assert '@' !in a && '\\' !in a && NoBreaks(a, p) by {
      forall i | 0 <= i < |a| ensures a[i] != '@' && a[i] != '\\' && !IsBreak(a[i], p) {
        if i < |x| { assert a[i] == x[i]; assert x[i] in x + y; }
        else if i > |x| { assert a[i] == y[i - |x| - 1]; assert y[i - |x| - 1] in x + y; }
      }
    }
    assert '@' !in b && '\\' !in b && NoBreaks(b, p) by {
      forall i | 0 <= i < |b| ensures b[i] != '@' && b[i] != '\\' && !IsBreak(b[i], p) {
        if i < |x| { assert b[i] == x[i]; assert x[i] in x + y; }
        else if i > |x| { assert b[i] == y[i - |x| - 1]; assert y[i - |x| - 1] in x + y; }
      }
    }
    CollidingConstNamesThrow(root, a, b, p);
  }

  /* ---------------------------------------------------------------- */
  /* Value de-duplication.                                             */

  /** Placing a value puts it in the destination directory, where a second walk finds it. */
  lemma {:induction false} PlaceAgain(dir: BundleDirectory, rest: seq<string>, rest': seq<string>, key: string, key': string, value: string)
    requires |rest| >= 1 && |rest'| == |rest| && rest[..|rest| - 1] == rest'[..|rest'| - 1]
    requires Place(dir, rest, key, value).Ok?
    ensures Place(Place(dir, rest, key, value).value, rest', key', value) == Place(dir, rest, key, value)
    decreases |rest|
  {
    var d := Place(dir, rest, key, value).value;
    if |rest| == 1 {
      assert HasValue(d.resources, value) by {
        if !HasValue(dir.resources, value) {
          assert d.resources[|dir.resources|] == (key, value);
        }
      }
    } else {
      assert rest[0] == rest'[0];
      var subs := dir.subdirectories;
      var i := FindDirectory(subs, rest[0]);
      var child := if i >= 0 then subs[i] else EmptyDirectory(rest[0]);
      var child' := Place(child, rest[1..], key, value).value;
      var subs' := d.subdirectories;
      assert subs' == if i >= 0 then subs[i := child'] else subs + [child'];
      var k := if i >= 0 then i else |subs|;
      assert subs'[k] == child';
      assert FindDirectory(subs', rest[0]) == k by {
        assert forall j :: 0 <= j < k ==> subs'[j] == subs[j];
      }
      SameTail(rest, rest');
      PlaceAgain(child, rest[1..], rest'[1..], key, key', value);
      assert subs'[k := child'] == subs';
    }
  }

  /** Placing along the same directories with the same value a second time changes nothing. */
  lemma PlaceAlongAgain(root: BundleDirectory, comps: seq<string>, comps': seq<string>, key: string, key': string, value: string)
    requires |comps| >= 1 && |comps'| == |comps| && comps[..|comps| - 1] == comps'[..|comps'| - 1]
    requires PlaceAlong(root, comps, key, value).Ok?
    ensures PlaceAlong(PlaceAlong(root, comps, key, value).value, comps', key', value) == PlaceAlong(root, comps, key, value)
  {
    var root1 := PlaceAlong(root, comps, key, value).value;
    if |comps| == 1 {
      PlaceAgain(root, comps, comps', key, key', value);
    } else {
      assert comps[0] == comps[..|comps| - 1][0];
      assert comps[0] == comps'[0];
      if comps[0] == root.name {
        assert FindDirectory([root], comps[0]) == 0;
        assert root1 == Place(root, comps[1..], key, value).value;
        SameTail(comps, comps');
        PlaceAgain(root, comps[1..], comps'[1..], key, key', value);
        assert FindDirectory([root1], comps'[0]) == 0;
        assert [root1][0 := root1] == [root1];
      } else {
        OrphanPathLeavesRootUnchanged(root, comps, key, value);
        OrphanPathLeavesRootUnchanged(root, comps', key', value);
      }
    }
  }

  lemma SameTail(a: seq<string>, b: seq<string>)
    requires |a| >= 2 && |b| == |a| && a[..|a| - 1] == b[..|b| - 1]
    ensures a[1..][..|a| - 2] == b[1..][..|b| - 2]
  {
    var x := a[1..][..|a| - 2];
    var y := b[1..][..|b| - 2];
    forall j | 0 <= j < |x| ensures x[j] == y[j] {
      assert x[j] == a[..|a| - 1][1 + j];
      assert y[j] == b[..|b| - 1][1 + j];
    }
  }

  /**
   * Two bundle images in the same directory with the same bundle reference
   * give one entry: once the first is in, the second changes nothing. Scale
   * variants such as `icon@2x.png` and `icon@3x.png` are the case in point.
   */
  lemma SameReferenceAddsNothing(root: BundleDirectory, path: string, path': string, p: Platform)
    requires GetExtension(path, p) in SupportedImagesFormats && GetExtension(path', p) in SupportedImagesFormats
    requires var c := Split(path, DirectorySeparator(p)); var c' := Split(path', DirectorySeparator(p));
             |c| == |c'| && c[..|c| - 1] == c'[..|c'| - 1]
    requires BundleName(path, p) == BundleName(path', p)
    requires AcceptBundleResource(root, path, p).0 == Ok(true)
    ensures AcceptBundleResource(AcceptBundleResource(root, path, p).1, path', p) == AcceptBundleResource(root, path, p)
  {
    var comps := Split(path, DirectorySeparator(p));
    var comps' := Split(path', DirectorySeparator(p));
    PlaceAlongAgain(root, comps, comps', BundleKey(comps, p), BundleKey(comps', p), BundleName(path, p));
  }

  /* ---------------------------------------------------------------- */
  /* Rendering.                                                        */

  function ImageLine(key: string, value: string): string
  {
    "public static UIKit.UIImage " + key + "() => UIKit.UIImage.FromBundle(@\"" + value + "\");"
  }

  /** The class line, the opening brace and one accessor per resource, in insertion order. */
  function ClassOpening(d: BundleDirectory): seq<string>
  {
    ClassHeader(d.name) + EntryLines(d.resources, ImageLine)
  }

  function ClassHeader(name: string): seq<string>
  {
    ["public static class " + name, "{"]
  }

  /** A directory as a class: its resources first, then its subdirectories, depth first. */
  function RenderDirectory(d: BundleDirectory): seq<string>
    decreases d, 1
  {
    ClassOpening(d) + RenderAll(d.subdirectories) + ["}"]
  }

  function RenderAll(ds: seq<BundleDirectory>): seq<string>
    decreases ds, 0
  {
    if ds == [] then [] else RenderDirectory(ds[0]) + RenderAll(ds[1..])
  }

  lemma {:induction false} RenderAllAppend(ds: seq<BundleDirectory>, d: BundleDirectory)
    ensures RenderAll(ds + [d]) == RenderAll(ds) + RenderDirectory(d)
    decreases |ds|
  {
    if ds == [] {
      assert [] + [d] == [d];
    } else {
      assert (ds + [d])[1..] == ds[1..] + [d];
      RenderAllAppend(ds[1..], d);
    }
  }

  /** The local function `AddClassForBundleDirectory`, appending to the shared builder. */
  method AddClassForBundleDirectory(bd: BundleDirectory, acc: seq<string>) returns (lines: seq<string>)
    ensures lines == acc + RenderDirectory(bd)
    decreases bd, 1
  {
    lines := AppendEntries(acc + ClassHeader(bd.name), bd.resources, ImageLine);
    lines := AddClassesForSubdirectories(bd, lines);
    lines := lines + ["}"];
    RenderDirectoryInParts(acc, bd);
  }

  /** The class of a directory, piece by piece as the generator appends it. */
  lemma RenderDirectoryInParts(acc: seq<string>, bd: BundleDirectory)
    ensures acc + RenderDirectory(bd)
         == acc + ClassHeader(bd.name) + EntryLines(bd.resources, ImageLine) + RenderAll(bd.subdirectories) + ["}"]
  {
  }

  /** The `foreach` over a directory's subdirectories, one class after another. */
  method AddClassesForSubdirectories(bd: BundleDirectory, acc: seq<string>) returns (lines: seq<string>)
    ensures lines == acc + RenderAll(bd.subdirectories)
    decreases bd, 0
  {
    var subs := bd.subdirectories;
    lines := acc;
    var i := 0;
    while i < |subs|
      invariant 0 <= i <= |subs|
      invariant lines == acc + RenderAll(subs[..i])
    {
      RenderAllStep(subs, i);
      lines := AddClassForBundleDirectory(subs[i], lines);
      i := i + 1;
    }
    assert subs[..i] == subs;
  }

  lemma RenderAllStep(ds: seq<BundleDirectory>, i: int)
    requires 0 <= i < |ds|
    ensures forall acc: seq<string> :: acc + RenderAll(ds[..i]) + RenderDirectory(ds[i]) == acc + RenderAll(ds[..i + 1])
  {
    assert ds[..i + 1] == ds[..i] + [ds[i]];
    RenderAllAppend(ds[..i], ds[i]);
  }

  /** How many lines are exactly `s`. */
  function Count(lines: seq<string>, s: string): nat
  {
    if lines == [] then 0 else (if lines[0] == s then 1 else 0) + Count(lines[1..], s)
  }

  lemma {:induction false} CountAppend(a: seq<string>, b: seq<string>, s: string)
    ensures Count(a + b, s) == Count(a, s) + Count(b, s)
    decreases |a|
  {
    if a != [] {
      assert (a + b)[1..] == a[1..] + b;
      CountAppend(a[1..], b, s);
    } else {
      assert a + b == b;
    }
  }

  lemma {:induction false} EntryLinesHaveNoBraces(t: Table, s: string)
    requires s == "{" || s == "}"
    ensures Count(EntryLines(t, ImageLine), s) == 0
    decreases |t|
  {
    if t != [] {
      var l := EntryLines(t, ImageLine);
      assert l[0][0] == 'p';
      assert l[1..] == EntryLines(t[1..], ImageLine);
      EntryLinesHaveNoBraces(t[1..], s);
    }
  }

  /** The number of directories in a tree. */
  function Directories(d: BundleDirectory): nat
    decreases d, 1
  {
    1 + DirectoriesOfAll(d.subdirectories)
  }

  function DirectoriesOfAll(ds: seq<BundleDirectory>): nat
    decreases ds, 0
  {
    if ds == [] then 0 else Directories(ds[0]) + DirectoriesOfAll(ds[1..])
  }

  /** Every directory opens one brace and closes one, and nothing else is a brace line. */
  lemma {:induction false} RenderBalanced(d: BundleDirectory)
    ensures Count(RenderDirectory(d), "{") == Directories(d)
    ensures Count(RenderDirectory(d), "}") == Directories(d)
    decreases d, 1
  {
    RenderAllBalanced(d.subdirectories);
    var head := ["public static class " + d.name, "{"];
    var body := EntryLines(d.resources, ImageLine);
    assert ClassOpening(d) == head + body;
    var subs := RenderAll(d.subdirectories);
    EntryLinesHaveNoBraces(d.resources, "{");
    EntryLinesHaveNoBraces(d.resources, "}");
    assert head[0][0] == 'p';
    CountAppend(head, body, "{");
    CountAppend(head, body, "}");
    CountAppend(head + body, subs, "{");
    CountAppend(head + body, subs, "}");
    CountAppend(head + body + subs, ["}"], "{");
    CountAppend(head + body + subs, ["}"], "}");
  }

  lemma {:induction false} RenderAllBalanced(ds: seq<BundleDirectory>)
    ensures Count(RenderAll(ds), "{") == DirectoriesOfAll(ds)
    ensures Count(RenderAll(ds), "}") == DirectoriesOfAll(ds)
    decreases ds, 0
  {
    if ds != [] {
      RenderBalanced(ds[0]);
      RenderAllBalanced(ds[1..]);
      CountAppend(RenderDirectory(ds[0]), RenderAll(ds[1..]), "{");
      CountAppend(RenderDirectory(ds[0]), RenderAll(ds[1..]), "}");
    }
  }

  /* ---------------------------------------------------------------- */

  class ImagesProcessor {
    const platform: Platform
    var root: BundleDirectory

    ghost predicate Valid()
      reads this
    {
      root.name == ResourcesDirectoryName && WellFormed(root)
    }

    constructor (p: Platform)
      ensures Valid() && platform == p && root == EmptyDirectory(ResourcesDirectoryName)
    {
      platform := p;
      root := EmptyDirectory(ResourcesDirectoryName);
    }

    /** `Accept`: the tree grows as `Accept` says, keeps its well-formedness and loses nothing. */
    method Accept(item: ProjectItem) returns (r: Result<bool>)
      requires Valid()
      modifies this
      ensures Valid()
      ensures (r, root) == AcceptItem(old(root), item, platform)
      ensures Extends(old(root), root)
    {
      var outcome := AcceptItem(root, item, platform);
      AcceptWellFormed(root, item, platform);
      AcceptExtends(root, item, platform);
      r := outcome.0;
      root := outcome.1;
    }

    /** `GenerateSourceCode`: the tree from the root, depth first. */
    method GenerateSourceCode() returns (code: seq<string>)
      ensures code == RenderDirectory(root)
    {
      code := AddClassForBundleDirectory(root, []);
    }
  }
}
