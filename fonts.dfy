/**
 * `FontsProcessor`: collects one `UIFont` accessor per `.otf` or `.ttf` bundle
 * resource and renders them as the `Font` class.
 */
module Fonts {
  import opened Failures
  import opened DotNetPath
  import opened ValidNames
  import opened Tables
  import opened ProjectItems

  const SupportedProjectItemType: string := "BundleResource"
  const FontFileExtensions: seq<string> := [".otf", ".ttf"]

  /** The entry an item contributes: a bundle resource whose file name ends in exactly
   * `.otf` or `.ttf` (case-sensitive) yields its file name without extension. */
  function FontEntry(item: ProjectItem, p: Platform): (r: Option<(string, string)>)
    ensures item.itemType != SupportedProjectItemType ==> r.None?
    ensures r.Some? ==> CleanConstName(r.value.0) && '\\' !in r.value.1
    ensures r.Some? ==> GetExtension(GetFileName(item.evaluatedInclude, p), p) in FontFileExtensions
  {
    FileNameEntry(item, SupportedProjectItemType, FontFileExtensions, p)
  }

  /** A font is known by its file name alone: the directories play no part. */
  lemma FontsIgnoreDirectories(d: string, c: char, file: string, p: Platform)
    requires IsBreak(c, p) && NoBreaks(file, p)
    ensures forall t :: FontEntry(ProjectItem(t, d + [c] + file), p) == FontEntry(ProjectItem(t, file), p)
  {
    FileNameEntryIgnoresDirectories(d, c, file, SupportedProjectItemType, FontFileExtensions, p);
  }

  /** `Brand.otf` gives the constant `Brand` with the reference `Brand`, for any plain name. */
  lemma FontOfFile(stem: string, ext: string, p: Platform)
    requires ext in FontFileExtensions
    requires NoBreaks(stem, p) && '.' !in stem && '@' !in stem && '\\' !in stem
    ensures FontEntry(ProjectItem(SupportedProjectItemType, stem + ext), p) == Some((ConstName(stem), stem))
  {
    assert PlainExtension(ext, p);
    FileNameEntryOfName(stem, ext, SupportedProjectItemType, FontFileExtensions, p);
    BundleNameOfPlainName(stem, p);
  }

  /** The same file name in two directories is a duplicate key the second time. */
  lemma FontNameInTwoDirectoriesCollides(t: Table, d1: string, d2: string, c: char, file: string, p: Platform)
    requires IsBreak(c, p) && NoBreaks(file, p)
    requires FontEntry(ProjectItem(SupportedProjectItemType, d1 + [c] + file), p).Some?
    ensures var e := FontEntry(ProjectItem(SupportedProjectItemType, d1 + [c] + file), p);
            Record(Record(t, e).1, FontEntry(ProjectItem(SupportedProjectItemType, d2 + [c] + file), p)).0
              == Fail(DuplicateKey(e.value.0))
  {
    FontsIgnoreDirectories(d1, c, file, p);
    FontsIgnoreDirectories(d2, c, file, p);
    var e := FontEntry(ProjectItem(SupportedProjectItemType, d1 + [c] + file), p);
    var t1 := Record(t, e).1;
    assert HasKey(t1, e.value.0) by {
      if !HasKey(t, e.value.0) {
        assert t1[|t|] == e.value;
      }
    }
  }

  function FontLine(key: string, value: string): string
  {
    "public static UIKit.UIFont " + key + "(System.nfloat size) => UIKit.UIFont.FromName(\"" + value + "\", size);"
  }

  class FontsProcessor {
    const platform: Platform
    var consts: Table

    ghost predicate Valid()
      reads this
    {
      UniqueKeys(consts)
    }

    constructor (p: Platform)
      ensures Valid() && platform == p && consts == []
    {
      platform := p;
      consts := [];
    }

    /** `Process`: records the item's entry, if any; see `Record`. */
    method Process(item: ProjectItem) returns (r: Result<bool>)
      requires Valid()
      modifies this
      ensures Valid()
      ensures (r, consts) == Record(old(consts), FontEntry(item, platform))
    {
      var entry := FontEntry(item, platform);
      var outcome := Record(consts, entry);
      r := outcome.0;
      consts := outcome.1;
    }

    /** `GenerateSourceCode`: the `Font` class with one size-parameterised accessor per entry, in insertion order. */
    method GenerateSourceCode() returns (code: seq<string>)
      ensures code == ["public static class Font", "{"] + EntryLines(consts, FontLine) + ["}"]
    {
      code := ["public static class Font", "{"];
      code := AppendEntries(code, consts, FontLine);
      code := code + ["}"];
    }
  }
}
