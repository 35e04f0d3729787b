/**
 * `StoryboardsProcessor`: collects one `UIStoryboard` accessor per `.storyboard`
 * interface definition and renders them as the `Storyboard` class.
 */
module Storyboards {
  import opened Failures
  import opened DotNetPath
  import opened ValidNames
  import opened Tables
  import opened ProjectItems

  const SupportedProjectItemType: string := "InterfaceDefinition"
  const StoryboardFileExtensions: seq<string> := [".storyboard"]

  /** The entry an item contributes: an interface definition whose file name ends in
   * exactly `.storyboard` yields its file name without extension. */
  function StoryboardEntry(item: ProjectItem, p: Platform): (r: Option<(string, string)>)
    ensures item.itemType != SupportedProjectItemType ==> r.None?
    ensures r.Some? ==> CleanConstName(r.value.0) && '\\' !in r.value.1
    ensures r.Some? ==> GetExtension(GetFileName(item.evaluatedInclude, p), p) in StoryboardFileExtensions
  {
    FileNameEntry(item, SupportedProjectItemType, StoryboardFileExtensions, p)
  }

  /** A storyboard is known by its file name alone: the directories play no part. */
  lemma StoryboardsIgnoreDirectories(d: string, c: char, file: string, p: Platform)
    requires IsBreak(c, p) && NoBreaks(file, p)
    ensures forall t :: StoryboardEntry(ProjectItem(t, d + [c] + file), p) == StoryboardEntry(ProjectItem(t, file), p)
  {
    FileNameEntryIgnoresDirectories(d, c, file, SupportedProjectItemType, StoryboardFileExtensions, p);
  }

  /** `Main.storyboard` gives the constant `Main` with the reference `Main`, for any plain name. */
  lemma StoryboardOfFile(stem: string, ext: string, p: Platform)
    requires ext in StoryboardFileExtensions
    requires NoBreaks(stem, p) && '.' !in stem && '@' !in stem && '\\' !in stem
    ensures StoryboardEntry(ProjectItem(SupportedProjectItemType, stem + ext), p) == Some((ConstName(stem), stem))
  {
    assert PlainExtension(ext, p);
    FileNameEntryOfName(stem, ext, SupportedProjectItemType, StoryboardFileExtensions, p);
    BundleNameOfPlainName(stem, p);
  }

  /** The same file name in two directories is a duplicate key the second time. */
  lemma StoryboardNameInTwoDirectoriesCollides(t: Table, d1: string, d2: string, c: char, file: string, p: Platform)
    requires IsBreak(c, p) && NoBreaks(file, p)
    requires StoryboardEntry(ProjectItem(SupportedProjectItemType, d1 + [c] + file), p).Some?
    ensures var e := StoryboardEntry(ProjectItem(SupportedProjectItemType, d1 + [c] + file), p);
            Record(Record(t, e).1, StoryboardEntry(ProjectItem(SupportedProjectItemType, d2 + [c] + file), p)).0
              == Fail(DuplicateKey(e.value.0))
  {
    StoryboardsIgnoreDirectories(d1, c, file, p);
    StoryboardsIgnoreDirectories(d2, c, file, p);
    var e := StoryboardEntry(ProjectItem(SupportedProjectItemType, d1 + [c] + file), p);
    var t1 := Record(t, e).1;
    assert HasKey(t1, e.value.0) by {
      if !HasKey(t, e.value.0) {
        assert t1[|t|] == e.value;
      }
    }
  }

  function StoryboardLine(key: string, value: string): string
  {
    "public static UIKit.UIStoryboard " + key + "(Foundation.NSBundle bundle = null) => UIKit.UIStoryboard.FromName(\"" + value + "\", bundle);"
  }

  class StoryboardsProcessor {
    const platform: Platform
    var consts: Table

    ghost predicate Valid()
      reads this
    {
      UniqueKeys(consts)
    }

    constructor (p: Platform)
      ensures Valid() && platform == p && consts == []
    {
      platform := p;
      consts := [];
    }

    /** `Process`: records the item's entry, if any; see `Record`. */
    method Process(item: ProjectItem) returns (r: Result<bool>)
      requires Valid()
      modifies this
      ensures Valid()
      ensures (r, consts) == Record(old(consts), StoryboardEntry(item, platform))
    {
      var entry := StoryboardEntry(item, platform);
      var outcome := Record(consts, entry);
      r := outcome.0;
      consts := outcome.1;
    }

    /** `GenerateSourceCode`: the `Storyboard` class with one accessor per entry, taking an optional bundle, in insertion order. */
    method GenerateSourceCode() returns (code: seq<string>)
      ensures code == ["public static class Storyboard", "{"] + EntryLines(consts, StoryboardLine) + ["}"]
    {
      code := ["public static class Storyboard", "{"];
      code := AppendEntries(code, consts, StoryboardLine);
      code := code + ["}"];
    }
  }
}
