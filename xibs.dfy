/**
 * `XibsProcessor`: collects one nib-loading accessor per `.xib` interface
 * definition and renders them as the non-public `Xib` class.
 */
module Xibs {
  import opened Failures
  import opened DotNetPath
  import opened ValidNames
  import opened Tables
  import opened ProjectItems
  import Storyboards

  const SupportedProjectItemType: string := "InterfaceDefinition"
  const XibFileExtensions: seq<string> := [".xib"]

  /** The entry an item contributes: an interface definition whose file name ends in exactly
   * `.xib` yields its file name without extension. */
  function XibEntry(item: ProjectItem, p: Platform): (r: Option<(string, string)>)
    ensures item.itemType != SupportedProjectItemType ==> r.None?
    ensures r.Some? ==> CleanConstName(r.value.0) && '\\' !in r.value.1
    ensures r.Some? ==> GetExtension(GetFileName(item.evaluatedInclude, p), p) in XibFileExtensions
  {
    FileNameEntry(item, SupportedProjectItemType, XibFileExtensions, p)
  }

  /** A xib is known by its file name alone: the directories play no part. */
  lemma XibsIgnoreDirectories(d: string, c: char, file: string, p: Platform)
    requires IsBreak(c, p) && NoBreaks(file, p)
    ensures forall t :: XibEntry(ProjectItem(t, d + [c] + file), p) == XibEntry(ProjectItem(t, file), p)
  {
    FileNameEntryIgnoresDirectories(d, c, file, SupportedProjectItemType, XibFileExtensions, p);
  }

  /** `Cell.xib` gives the constant `Cell` with the reference `Cell`, for any plain name. */
  lemma XibOfFile(stem: string, ext: string, p: Platform)
    requires ext in XibFileExtensions
    requires NoBreaks(stem, p) && '.' !in stem && '@' !in stem && '\\' !in stem
    ensures XibEntry(ProjectItem(SupportedProjectItemType, stem + ext), p) == Some((ConstName(stem), stem))
  {
    assert PlainExtension(ext, p);
    FileNameEntryOfName(stem, ext, SupportedProjectItemType, XibFileExtensions, p);
    BundleNameOfPlainName(stem, p);
  }

  /** The same file name in two directories is a duplicate key the second time. */
  lemma XibNameInTwoDirectoriesCollides(t: Table, d1: string, d2: string, c: char, file: string, p: Platform)
    requires IsBreak(c, p) && NoBreaks(file, p)
    requires XibEntry(ProjectItem(SupportedProjectItemType, d1 + [c] + file), p).Some?
    ensures var e := XibEntry(ProjectItem(SupportedProjectItemType, d1 + [c] + file), p);
            Record(Record(t, e).1, XibEntry(ProjectItem(SupportedProjectItemType, d2 + [c] + file), p)).0
              == Fail(DuplicateKey(e.value.0))
  {
    XibsIgnoreDirectories(d1, c, file, p);
    XibsIgnoreDirectories(d2, c, file, p);
    var e := XibEntry(ProjectItem(SupportedProjectItemType, d1 + [c] + file), p);
    var t1 := Record(t, e).1;
    assert HasKey(t1, e.value.0) by {
      if !HasKey(t, e.value.0) {
        assert t1[|t|] == e.value;
      }
    }
  }

  /** Both processors see `InterfaceDefinition` items, but no item is both a storyboard and a xib. */
  lemma XibsAndStoryboardsDisjoint(item: ProjectItem, p: Platform)
    ensures XibEntry(item, p).Some? ==> Storyboards.StoryboardEntry(item, p).None?
  {
    assert ".xib"[1] != ".storyboard"[1];
    FileNameEntriesDisjoint(item, SupportedProjectItemType, XibFileExtensions, Storyboards.StoryboardFileExtensions, p);
  }

  function XibLine(key: string, value: string): string
  {
    "public static T " + key + "<T>(Foundation.NSBundle bundle = null, Foundation.NSObject owner = null, Foundation.NSDictionary options = null) where T : Foundation.NSObject"
      + " => ObjCRuntime.Runtime.GetNSObject<T>((bundle ??  Foundation.NSBundle.MainBundle).LoadNib(\"" + value + "\", owner, options).ValueAt(0));"
  }

  class XibsProcessor {
    const platform: Platform
    var consts: Table

    ghost predicate Valid()
      reads this
    {
      UniqueKeys(consts)
    }

    constructor (p: Platform)
      ensures Valid() && platform == p && consts == []
    {
      platform := p;
      consts := [];
    }

    /** `Process`: records the item's entry, if any; see `Record`. */
    method Process(item: ProjectItem) returns (r: Result<bool>)
      requires Valid()
      modifies this
      ensures Valid()
      ensures (r, consts) == Record(old(consts), XibEntry(item, platform))
    {
      var entry := XibEntry(item, platform);
      var outcome := Record(consts, entry);
      r := outcome.0;
      consts := outcome.1;
    }

    /** `GenerateSourceCode`: the non-public `Xib` class with one generic accessor per entry, in insertion order. */
    method GenerateSourceCode() returns (code: seq<string>)
      ensures code == ["static class Xib", "{"] + EntryLines(consts, XibLine) + ["}"]
    {
      code := ["static class Xib", "{"];
      code := AppendEntries(code, consts, XibLine);
      code := code + ["}"];
    }
  }
}
