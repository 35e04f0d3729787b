/**
 * `ColorsProcessor`: collects one `UIColor` accessor per `.colorset` asset of
 * an asset catalog and renders them as the `Color` class.
 */
module Colors {
  import opened Failures
  import opened Strings
  import opened DotNetPath
  import opened ValidNames
  import opened Tables
  import opened ProjectItems

  const SupportedProjectItemType: string := "ImageAsset"
  const AssetSetExtension: string := ".colorset"

  /**
   * The entry an item contributes: backslashes in the include are first
   * turned into the platform separator, then the `.colorset` rule applies.
   */
  function ColorEntry(item: ProjectItem, p: Platform): (r: Option<(string, string)>)
    ensures item.itemType != SupportedProjectItemType ==> r.None?
    ensures r.Some? ==> CleanConstName(r.value.0) && '\\' !in r.value.1
    ensures r.Some? ==> GetFileName(ReplaceChar(item.evaluatedInclude, '\\', DirectorySeparator(p)), p) == ContentsFileName
  {
    if item.itemType != SupportedProjectItemType then None
    else AssetSetEntry(ReplaceChar(item.evaluatedInclude, '\\', DirectorySeparator(p)), AssetSetExtension, p)
  }

  /** Only the separator-normalised include matters: normalising it again changes nothing. */
  lemma ColorEntryNormalisesBackslashes(item: ProjectItem, p: Platform)
    ensures ColorEntry(item, p) == ColorEntry(ProjectItem(item.itemType, ReplaceChar(item.evaluatedInclude, '\\', DirectorySeparator(p))), p)
  {
    ReplaceCharIdempotent(item.evaluatedInclude, '\\', DirectorySeparator(p));
  }

  /** The backslashes of a catalog include become platform separators. */
  lemma CatalogIncludeNormalised(catalog: string, name: string, p: Platform)
    requires '\\' !in catalog && '\\' !in name
    ensures ReplaceChar(catalog + "\\" + name + AssetSetExtension + "\\" + ContentsFileName, '\\', DirectorySeparator(p))
         == catalog + [DirectorySeparator(p)] + name + AssetSetExtension + [DirectorySeparator(p)] + ContentsFileName
  {
    assert '\\' !in AssetSetExtension && '\\' !in ContentsFileName;
    ReplaceCharAroundTwoParts(catalog, name, AssetSetExtension, ContentsFileName, '\\', DirectorySeparator(p));
  }

  /** `.colorset` is a dot followed by plain characters. */
  lemma ColorSetExtensionIsPlain(p: Platform)
    ensures PlainExtension(AssetSetExtension, p)
  {
    var ext := AssetSetExtension;
    assert ext == ['.', 'c', 'o', 'l', 'o', 'r', 's', 'e', 't'];
  }

  /** A catalog include is read through the `.colorset` rule on its normalised path. */
  lemma CatalogColorEntry(catalog: string, name: string, p: Platform)
    requires '\\' !in catalog && '\\' !in name
    ensures ColorEntry(ProjectItem(SupportedProjectItemType, catalog + "\\" + name + AssetSetExtension + "\\" + ContentsFileName), p)
         == AssetSetEntry(catalog + [DirectorySeparator(p)] + name + AssetSetExtension + [DirectorySeparator(p)] + ContentsFileName, AssetSetExtension, p)
  {
    CatalogIncludeNormalised(catalog, name, p);
  }

  /**
   * An include written `<catalog>\<name>.colorset\Contents.json`, as project
   * files store it (`Assets.xcassets\Red.colorset\Contents.json`), yields
   * the constant `name` on either platform.
   */
  lemma ColorOfCatalogPath(catalog: string, name: string, p: Platform)
    requires '\\' !in catalog && !Contains(catalog, AssetSetExtension)
    requires '\\' !in name && '.' !in name && '@' !in name && NoBreaks(name, p)
    ensures ColorEntry(ProjectItem(SupportedProjectItemType, catalog + "\\" + name + AssetSetExtension + "\\" + ContentsFileName), p)
         == Some((ConstName(name), name))
  {
    CatalogColorEntry(catalog, name, p);
    ColorSetExtensionIsPlain(p);
    AssetSetEntryOfPath(catalog, name, AssetSetExtension, p);
    assert DirectorySeparator(p) !in name by {
      assert IsBreak(DirectorySeparator(p), p);
    }
    BundleNameOfPlainName(name, p);
  }

  function ColorLine(key: string, value: string): string
  {
    "public static UIKit.UIColor " + key + "() => UIKit.UIColor.FromName(\"" + value + "\");"
  }

  class ColorsProcessor {
    const platform: Platform
    var consts: Table

    ghost predicate Valid()
      reads this
    {
      UniqueKeys(consts)
    }

    constructor (p: Platform)
      ensures Valid() && platform == p && consts == []
    {
      platform := p;
      consts := [];
    }

    /** `Process`: records the item's entry, if any; see `Record`. */
    method Process(item: ProjectItem) returns (r: Result<bool>)
      requires Valid()
      modifies this
      ensures Valid()
      ensures (r, consts) == Record(old(consts), ColorEntry(item, platform))
    {
      var entry := ColorEntry(item, platform);
      var outcome := Record(consts, entry);
      r := outcome.0;
      consts := outcome.1;
    }

    /** `GenerateSourceCode`: the `Color` class with one accessor per entry, in insertion order. */
    method GenerateSourceCode() returns (code: seq<string>)
      ensures code == ["public static class Color", "{"] + EntryLines(consts, ColorLine) + ["}"]
    {
      code := ["public static class Color", "{"];
      code := AppendEntries(code, consts, ColorLine);
      code := code + ["}"];
    }
  }
}
