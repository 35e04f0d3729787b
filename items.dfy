/**
 * Project items and the classification the flat processors share: each
 * processor looks at one `(ItemType, EvaluatedInclude)` pair and either
 * declines it or derives one `(constant name, bundle reference)` entry.
 */
module ProjectItems {
  import opened Failures
  import opened Strings
  import opened DotNetPath
  import opened ValidNames
  import opened Tables

  datatype ProjectItem = ProjectItem(itemType: string, evaluatedInclude: string)

  const ContentsFileName: string := "Contents.json"

  /** An extension as `Path.GetExtension` returns it: a dot, then at least one character that is neither a dot nor a break. */
  predicate PlainExtension(ext: string, p: Platform)
  {
    |ext| >= 2 && ext[0] == '.' && forall j :: 1 <= j < |ext| ==> ext[j] != '.' && !IsBreak(ext[j], p)
  }

  predicate NoBreaks(s: string, p: Platform)
  {
    forall j :: 0 <= j < |s| ==> !IsBreak(s[j], p)
  }

  /** An identifier as `GetCorrectConstName` guarantees it: no `-`, `.`, `(`, `)` and no leading digit. */
  predicate CleanConstName(k: string)
  {
    (forall c :: c in SymbolsToRemove ==> c !in k) && !StartsWithDigit(k)
  }

  /**
   * The Fonts, Storyboards and Xibs processors: an item of the supported type
   * whose file name has one of the supported extensions yields the constant
   * name and the bundle reference of its file name without extension.
   */
  function FileNameEntry(item: ProjectItem, itemType: string, extensions: seq<string>, p: Platform): (r: Option<(string, string)>)
    ensures item.itemType != itemType ==> r.None?
    ensures r.Some? ==> CleanConstName(r.value.0) && '\\' !in r.value.1
    ensures r.Some? ==> GetExtension(GetFileName(item.evaluatedInclude, p), p) in extensions
  {
    if item.itemType != itemType then None
    else
      var filename := GetFileName(item.evaluatedInclude, p);
      var extension := GetExtension(filename, p);
      if extension !in extensions then None
      else
        var baseName := GetFileNameWithoutExtension(filename, p);
        Some((ConstName(baseName), BundleName(baseName, p)))
  }

  /** The directories in front of the file name play no part. */
  lemma FileNameEntryIgnoresDirectories(d: string, c: char, file: string, itemType: string, extensions: seq<string>, p: Platform)
    requires IsBreak(c, p) && NoBreaks(file, p)
    ensures forall t :: FileNameEntry(ProjectItem(t, d + [c] + file), itemType, extensions, p)
                    == FileNameEntry(ProjectItem(t, file), itemType, extensions, p)
  {
    FileNameAfterBreak(d, c, file, p);
    FileNameOfPlainName(file, p);
  }

  /** A file `stem + ext` with a supported `ext` gives the entry of `stem`. */
  lemma FileNameEntryOfName(stem: string, ext: string, itemType: string, extensions: seq<string>, p: Platform)
    requires NoBreaks(stem, p) && PlainExtension(ext, p) && ext in extensions
    ensures FileNameEntry(ProjectItem(itemType, stem + ext), itemType, extensions, p)
         == Some((ConstName(stem), BundleName(stem, p)))
  {
    FileNameOfPlainName(stem + ext, p);
    ExtensionOfName(stem, ext, p);
  }

  /** Processors of one item type with no extension in common never both accept an item. */
  lemma FileNameEntriesDisjoint(item: ProjectItem, itemType: string, exts1: seq<string>, exts2: seq<string>, p: Platform)
    requires forall e :: e in exts1 ==> e !in exts2
    ensures FileNameEntry(item, itemType, exts1, p).Some? ==> FileNameEntry(item, itemType, exts2, p).None?
  {
  }

  /**
   * The asset-catalog entries of Colors and Images: a `Contents.json` whose
   * parent path contains the set extension yields the entry of the parent's
   * last component with every occurrence of the set extension removed.
   */
  function AssetSetEntry(path: string, setExtension: string, p: Platform): (r: Option<(string, string)>)
    requires |setExtension| > 0
    ensures r.Some? ==> GetFileName(path, p) == ContentsFileName && Contains(ParentDirectory(path, p), setExtension)
    ensures r.Some? ==> CleanConstName(r.value.0) && '\\' !in r.value.1
  {
    if GetFileName(path, p) != ContentsFileName then None
    else
      var parent := ParentDirectory(path, p);
      if !Contains(parent, setExtension) then None
      else
        var assetName := GetFileNameWithoutExtension(Replace(parent, setExtension, ""), p);
        Some((ConstName(assetName), BundleName(assetName, p)))
  }

  /** The set extension occurs in `<catalog><sep><name><set extension>` only at its end. */
  lemma SetExtensionRemoved(catalog: string, name: string, setExtension: string, p: Platform)
    requires !Contains(catalog, setExtension) && '.' !in name && NoBreaks(name, p)
    requires PlainExtension(setExtension, p)
    ensures Contains(catalog + [DirectorySeparator(p)] + name + setExtension, setExtension)
    ensures Replace(catalog + [DirectorySeparator(p)] + name + setExtension, setExtension, "") == catalog + [DirectorySeparator(p)] + name
  {
    var sep := DirectorySeparator(p);
    var dir := catalog + [sep] + name;
    ContainsAt(dir, setExtension, "");
    assert dir + setExtension + "" == dir + setExtension;
    assert sep !in setExtension by {
      forall j | 0 <= j < |setExtension| ensures setExtension[j] != sep {
        if j > 0 { assert !IsBreak(setExtension[j], p); }
      }
    }
    NotContainedAcross(catalog, sep, name, setExtension);
    ReplaceTrailing(dir, setExtension);
  }

  /**
   * `<catalog><sep><name><set extension><sep>Contents.json` gives the entry
   * of `name`, for a catalog such as `Assets.xcassets` that does not itself
   * hold the set extension.
   */
  lemma AssetSetEntryOfPath(catalog: string, name: string, setExtension: string, p: Platform)
    requires !Contains(catalog, setExtension) && '.' !in name && NoBreaks(name, p)
    requires PlainExtension(setExtension, p)
    ensures AssetSetEntry(catalog + [DirectorySeparator(p)] + name + setExtension + [DirectorySeparator(p)] + ContentsFileName, setExtension, p)
         == Some((ConstName(name), BundleName(name, p)))
  {
    var sep := DirectorySeparator(p);
    var dir := catalog + [sep] + name;
    var parent := dir + setExtension;
    assert NoBreaks(ContentsFileName, p);
    FileNameAfterBreak(parent, sep, ContentsFileName, p);
    SetExtensionRemoved(catalog, name, setExtension, p);
    FileNameAfterBreak(catalog, sep, name, p);
    NoDotNoExtension(name, p);
    assert GetFileNameWithoutExtension(Replace(parent, setExtension, ""), p) == name;
  }

  /**
   * How a processor's `Process` answers and what its table becomes: a
   * declined item gives `false`; a derived entry is added, and a key already
   * in the table is `Dictionary.Add`'s exception with the table unchanged.
   */
  function Record(t: Table, entry: Option<(string, string)>): (r: (Result<bool>, Table))
    ensures entry.None? ==> r == (Ok(false), t)
    ensures entry.Some? && !HasKey(t, entry.value.0) ==> r == (Ok(true), t + [entry.value])
    ensures entry.Some? && HasKey(t, entry.value.0) ==> r == (Fail(DuplicateKey(entry.value.0)), t)
    ensures UniqueKeys(t) ==> UniqueKeys(r.1)
  {
    match entry
    case None => (Ok(false), t)
    case Some((k, v)) =>
      match Add(t, k, v)
      case Ok(t') => (Ok(true), t')
      case Fail(e) => (Fail(e), t)
  }
}
