# R.cs — a Dafny model of the resource accessor generator

R.cs reads the evaluated items of a Xamarin.iOS project. Each item is an
`(ItemType, EvaluatedInclude)` pair. From these items it generates C# classes
with one strongly typed accessor per resource:

- images, from bundle resources and `.imageset` assets;
- colors, from `.colorset` assets;
- fonts (`.otf`, `.ttf`);
- storyboards and xibs;
- view controllers, read from the scenes of each storyboard and resolved
  through the classes that carry a `[Register]` attribute.

The repository has two generations of the generator:

- the newer one has one processor object per category. The processor
  accumulates a dictionary or a directory tree item by item, and then
  renders it;
- the older one, `Generator`, builds everything in one pass of LINQ
  pipelines. It renders a single `R` class, whose nested `Image`, `Color`,
  `Storyboard` and `Xibs` classes are followed by a tree of bundle classes.

This project models both generations:

- **Names.** The identifier sanitiser `GetCorrectConstName` and the
  resource-reference normaliser `GetCorrectResourceBundleName`, in both
  versions (`valid_names.dfy`, `generator_names.dfy`).
- **Distinct.** `DistinctBy` (`extensions.dfy`).
- **Processors.** Each processor is a class whose fields are the
  dictionaries or the tree it updates (`colors.dfy`, `fonts.dfy`,
  `storyboards.dfy`, `xibs.dfy`, `images.dfy`, `controllers.dfy`).
  - Its `Process`/`Accept` method is proved equal to a function on the old
    state.
  - The properties of that function are lemmas.
- **Controllers.** The scene scan and the controller mapping of
  `ControllerGenerator` (`controller_generator.dfy`), over an XML element
  tree (`storyboard_xml.dfy`).
- **Older generator.** The tables of `Generator.Do`, the recursive
  `ToBundleDirectory` grouping and `GenerateRcsContent`
  (`generator_tables.dfy`, `generator_bundles.dfy`, `generator.dfy`).

Modelling conventions:

- A .NET `Dictionary` is an insertion-ordered sequence of `(key, value)`
  pairs with unique keys (`tables.dfy`). Entries are never removed, so
  enumeration order is insertion order.
- Throwing `Add` is a `Result` whose failure names the key.
- A `StringBuilder` is the sequence of lines passed to `AppendLine`.
- The directory separator is a `Platform` parameter. Windows and Mono are
  the two values.
- `Path.GetFileName`, `GetExtension`, `ChangeExtension`,
  `GetFileNameWithoutExtension`, `string.Split`, `Replace`, `IndexOf`,
  `StartsWith` and `Trim` are written out as functions (`paths.dfy`,
  `strings.dfy`). Each has the contract the model relies on. All string
  comparisons are ordinal.
- `Directory.GetParent(path).ToString()` is modelled as the text before
  the last path break (`DotNetPath.ParentDirectory`), without the
  full-path normalisation; see "## Left out".

## Model

| member | source | states |
|---|---|---|
| ValidNames.CleanChars | R.cs.Core/ValidNamesProvider.cs:19 | each character is replaced by `_` exactly when it is one of the symbols, otherwise kept; the length is unchanged |
| ValidNames.ReplaceEachIsPointwise | R.cs.Core/ValidNamesProvider.cs:19 | the `Aggregate` of one `Replace(c, '_')` per symbol equals the pointwise character map |
| ValidNames.SanitizeName | R.cs.Core/ValidNamesProvider.cs:12-20 | the result is the digit guard (`_` when the input starts with a digit) followed by the pointwise-cleaned input |
| ValidNames.SanitizedIsClean | R.cs.Core/ValidNamesProvider.cs:12-20 | no symbol survives sanitising and the result never starts with a digit |
| ValidNames.ConstName | R.cs.Core/ValidNamesProvider.cs:10-20 | `GetCorrectConstName`: the result contains none of `-`, `.`, `(`, `)` and does not start with a digit |
| ValidNames.ConstNameShape | R.cs.Core/ValidNamesProvider.cs:14-19 | a leading digit gives `_` plus the cleaned input (one longer); otherwise the cleaned input of the same length; every non-symbol character keeps its place |
| ValidNames.CleanCharsFixed | R.cs.Core/ValidNamesProvider.cs:19 | a string containing none of the symbols is left unchanged |
| ValidNames.SanitizeIdempotent | R.cs.Core/ValidNamesProvider.cs:12-20 | sanitising twice gives the same as sanitising once, for any symbol set |
| ValidNames.ConstNameIdempotent | R.cs.Core/ValidNamesProvider.cs:12-20 | `GetCorrectConstName` is idempotent |
| ValidNames.DropResourcesPrefix | R.cs.Core/ValidNamesProvider.cs:24-27 | without the `Resources`+separator prefix the string is unchanged; with it, EVERY occurrence of the prefix is removed (`Replace`, not a single cut); the step never lengthens it |
| ValidNames.DropSinglePrefix | R.cs.Core/ValidNamesProvider.cs:24-27 | a name with the prefix once and no other `R` comes back as the rest |
| ValidNames.DropsEveryOccurrence | R.cs.Core/ValidNamesProvider.cs:26 | `Resources\a Resources\b` loses both occurrences, giving `a b` |
| ValidNames.RemoveEach | R.cs.Core/ValidNamesProvider.cs:29 | removing the scale markers one replace pass each never lengthens the string |
| ValidNames.NormalizeBundlePath | R.cs.Core/ValidNamesProvider.cs:24-31 | after prefix removal, marker removal and the backslash replacement no backslash is left |
| ValidNames.BundleName | R.cs.Core/ValidNamesProvider.cs:22-37 | `GetCorrectResourceBundleName`: no backslash; an extension outside `.png`, `.otf`, `.ttf`, empty is kept verbatim; one of those is cut at the last dot |
| ValidNames.ScaleMarkersShaped | R.cs.Core/ValidNamesProvider.cs:29 | each of `@1x`, `@2x`, `@3x` is `@`, a digit, `x` |
| ValidNames.ReplaceMarker | R.cs.Core/ValidNamesProvider.cs:29 | replacing one marker in a string with a single marker removes it only when it is that marker |
| ValidNames.RemoveMarkersFromFree | R.cs.Core/ValidNamesProvider.cs:29 | a string without `@` is unchanged by marker removal |
| ValidNames.ScaleMarkerRemoved | R.cs.Core/ValidNamesProvider.cs:29 | `a@2xb` and `ab` both become `ab` when `a` and `b` hold no `@` |
| ValidNames.DropPrefixAroundMarker | R.cs.Core/ValidNamesProvider.cs:24-27 | prefix removal commutes with appending a marker and a separator-free tail |
| ValidNames.ScaleVariantsShareBundleName | R.cs.Core/ValidNamesProvider.cs:22-37 | `icon@2x.png` and `icon.png` (in the same directory) get the same bundle reference |
| ValidNames.NormalizePlainPath | R.cs.Core/ValidNamesProvider.cs:24-31 | a name with no `@`, backslash or separator passes the prefix, marker and slash steps unchanged |
| ValidNames.NormalizeUnderResources | R.cs.Core/ValidNamesProvider.cs:24-31 | on Windows, `Resources\dir\stem.png` becomes `dir/stem.png` |
| ValidNames.BundleNameUnderResources | R.cs.Core/ValidNamesProvider.cs:22-37 | on Windows, `Resources\dir\stem.png` gives the reference `dir/stem` |
| ValidNames.BundleNameOfScaledImageIn | R.cs.Core/ValidNamesProvider.cs:22-37 | on Windows, `Resources\dir\stem@2x.png` (or `@1x`, `@3x`) gives `dir/stem`, e.g. `Resources\Icons\star@2x.png` is `Icons/star` |
| ValidNames.BundleNameStripsOnePng | R.cs.Core/ValidNamesProvider.cs:33-36 | a plain name plus `.png` gives the name back |
| ValidNames.BundleNameNotIdempotent | R.cs.Core/ValidNamesProvider.cs:33-36 | only one `.png` is stripped: `x.png.png` gives `x.png`, which in turn gives `x`, so the normaliser is not idempotent |
| ValidNames.SymbolsCollide | R.cs.Core/ValidNamesProvider.cs:19 | names that differ only in which of `-`, `.`, `(`, `)` stands at one place get the same constant, e.g. `foo-bar` and `foo.bar` |
| ValidNames.BundleNameOfPlainName | R.cs.Core/ValidNamesProvider.cs:22-37 | a name with no dot, `@`, backslash or separator is its own bundle reference |
| Extensions.Distinct | R.cs.Core/Extensions.cs:14-22 | the first-occurrence filter is no longer than its input |
| Extensions.FirstPositions | R.cs.Core/Extensions.cs:17-21 | the positions of first occurrences are valid indices of the input |
| Extensions.DistinctKeySet | R.cs.Core/Extensions.cs:16-21 | the output has exactly the keys of the input |
| Extensions.KeySetOfPrefix | R.cs.Core/Extensions.cs:19 | `knownKeys.Add` fails at position n exactly when n is not the first occurrence of its key |
| Extensions.DistinctIsFirstOccurrences | R.cs.Core/Extensions.cs:17-21 | the output is the subsequence of the input at the first occurrence of each key, in increasing input order |
| Extensions.DistinctKeysUnique | R.cs.Core/Extensions.cs:16-19 | the keys of the output are pairwise distinct |
| Extensions.DistinctLength | R.cs.Core/Extensions.cs:17-21 | the output length equals the number of distinct keys |
| Extensions.KeysOfUniqueCount | R.cs.Core/Extensions.cs:16 | a sequence with pairwise distinct keys has as many keys as elements |
| Extensions.DistinctBy | R.cs.Core/Extensions.cs:8-23 | a null source or key selector fails with `ArgumentNullException` naming it (source first); otherwise the loop over `knownKeys` yields exactly the first-occurrence filter |
| Tables.Add | R.cs.Core/ProjectItemsProcessors/ColorsProcessor.cs:42 | `Dictionary.Add` fails with the key exactly when the key is present; otherwise appends the pair and keeps keys unique |
| Tables.Lookup | R.cs.Core/ProjectItemsProcessors/ControllersProcessor.cs:54 | the indexer succeeds exactly when the key is present and returns a value stored under it; otherwise `KeyNotFound` with the key |
| Tables.LookupEntry | R.cs.Core/ProjectItemsProcessors/ControllersProcessor.cs:54 | in a table with unique keys each stored pair is found by its key |
| Tables.ToDictionary | R.cs.Core/Generator.cs:48 | `ToDictionary` succeeds exactly when the keys are unique, then keeps the pairs in order; otherwise fails on the second of two equal keys |
| Tables.AddEntry | R.cs.Core/ProjectItemsProcessors/ControllersProcessor.cs:140 | one `Add` of a computed entry: succeeds exactly when the entry exists and its key is new; a failure leaves the table unchanged |
| Tables.AddEach | R.cs.Core/ProjectItemsProcessors/ControllersProcessor.cs:134-141 | a loop of `Add`: the table only grows, by at most one per element, keeps unique keys, and success adds one entry per element |
| Tables.AddEachStep | R.cs.Core/ProjectItemsProcessors/ControllersProcessor.cs:134-141 | one more loop iteration is one more `Add` |
| Tables.AddEachStopsAtFailure | R.cs.Core/ProjectItemsProcessors/ControllersProcessor.cs:134-141 | after a throw the rest of the loop contributes nothing |
| Tables.AddEachAppend | R.cs.Core/ProjectItemsProcessors/ControllersProcessor.cs:134-141 | adding two batches in a row is adding their concatenation |
| Tables.AddEachNestedStep | R.cs.Core/ControllerGenerator.cs:117-134 | in the nested document/class loop, one more class is one more `Add` |
| Tables.AddEachNestedDone | R.cs.Core/ControllerGenerator.cs:117-134 | finishing a document's classes reaches the next document's prefix |
| Tables.AddEachNestedStopsAtFailure | R.cs.Core/ControllerGenerator.cs:117-134 | a throw in the nested loop fixes the final outcome |
| Tables.AddEachEntryAt | R.cs.Core/ProjectItemsProcessors/ControllersProcessor.cs:134-141 | after a successful loop, element i's entry sits at position (old size + i) |
| Tables.EntryLines | R.cs.Core/ProjectItemsProcessors/ColorsProcessor.cs:54-57 | one rendered line per entry, in table order |
| Tables.AppendEntries | R.cs.Core/ProjectItemsProcessors/ColorsProcessor.cs:54-57 | the `foreach` loop appends exactly the entry lines to what was there |
| ProjectItems.FileNameEntry | R.cs.Core/ProjectItemsProcessors/FontsProcessor.cs:21-40 | wrong item type gives no entry; an entry has a clean constant name, a backslash-free value, and a file extension from the accepted list |
| ProjectItems.FileNameEntryIgnoresDirectories | R.cs.Core/ProjectItemsProcessors/FontsProcessor.cs:26-32 | only the leaf file name matters: any directory prefix gives the same entry |
| ProjectItems.FileNameEntryOfName | R.cs.Core/ProjectItemsProcessors/FontsProcessor.cs:32-37 | `stem.ext` with an accepted extension gives `(GetCorrectConstName(stem), GetCorrectResourceBundleName(stem))` |
| ProjectItems.FileNameEntriesDisjoint | R.cs.Core/ProjectItemsProcessors/XibsProcessor.cs:26-29 | processors with disjoint extension lists never both accept an item |
| ProjectItems.AssetSetEntry | R.cs.Core/ProjectItemsProcessors/ColorsProcessor.cs:27-40 | an entry only for a `Contents.json` whose parent contains the set extension; its key is clean and its value backslash-free |
| ProjectItems.AssetSetEntryOfPath | R.cs.Core/ProjectItemsProcessors/ColorsProcessor.cs:27-40 | `catalog/name.colorset/Contents.json`, for any catalog path (nested, dotted like `Assets.xcassets`) that does not itself hold the set extension, gives `(GetCorrectConstName(name), GetCorrectResourceBundleName(name))` |
| ProjectItems.Record | R.cs.Core/ProjectItemsProcessors/ColorsProcessor.cs:37-44 | no entry: false and no change; new key: true and one appended pair; repeated key: `DuplicateKey` and no change; keys stay unique |
| Colors.ColorEntry | R.cs.Core/ProjectItemsProcessors/ColorsProcessor.cs:21-45 | non-`ImageAsset` items give nothing; an entry comes only from a `Contents.json` after backslashes become the separator, with clean key and backslash-free value |
| Colors.ColorEntryNormalisesBackslashes | R.cs.Core/ProjectItemsProcessors/ColorsProcessor.cs:26 | the entry depends only on the separator-normalised include |
| Colors.CatalogIncludeNormalised | R.cs.Core/ProjectItemsProcessors/ColorsProcessor.cs:26 | a backslash-separated include becomes the separator-separated path |
| Colors.ColorOfCatalogPath | R.cs.Core/ProjectItemsProcessors/ColorsProcessor.cs:26-42 | `catalog\name.colorset\Contents.json`, for any backslash-free catalog such as `Assets.xcassets` that does not hold `.colorset`, yields `(GetCorrectConstName(name), name)` on both platforms |
| Colors.ColorLine | R.cs.Core/ProjectItemsProcessors/ColorsProcessor.cs:56 | the `UIColor.FromName` accessor; emitted once per entry in order by `Colors.ColorsProcessor.GenerateSourceCode` |
| Colors.ColorsProcessor.constructor | R.cs.Core/ProjectItemsProcessors/ColorsProcessor.cs:16-19 | starts with an empty `_consts` |
| Colors.ColorsProcessor.Process | R.cs.Core/ProjectItemsProcessors/ColorsProcessor.cs:21-45 | result and new `_consts` are `Record` of the old table and the item's color entry |
| Colors.ColorsProcessor.GenerateSourceCode | R.cs.Core/ProjectItemsProcessors/ColorsProcessor.cs:47-62 | `Color` header, one accessor line per entry in insertion order, closing brace |
| Fonts.FontEntry | R.cs.Core/ProjectItemsProcessors/FontsProcessor.cs:21-40 | non-`BundleResource` items give nothing; an entry's file extension is exactly `.otf` or `.ttf` |
| Fonts.FontsIgnoreDirectories | R.cs.Core/ProjectItemsProcessors/FontsProcessor.cs:26-32 | directories are ignored |
| Fonts.FontOfFile | R.cs.Core/ProjectItemsProcessors/FontsProcessor.cs:32-37 | `stem.ttf` gives `(GetCorrectConstName(stem), stem)` |
| Fonts.FontNameInTwoDirectoriesCollides | R.cs.Core/ProjectItemsProcessors/FontsProcessor.cs:37 | the same font file in two directories throws `DuplicateKey` on the second `Add` |
| Fonts.FontsProcessor.constructor | R.cs.Core/ProjectItemsProcessors/FontsProcessor.cs:16-19 | starts with an empty `_consts` |
| Fonts.FontsProcessor.Process | R.cs.Core/ProjectItemsProcessors/FontsProcessor.cs:21-40 | result and new `_consts` are `Record` of the old table and the item's font entry |
| Fonts.FontsProcessor.GenerateSourceCode | R.cs.Core/ProjectItemsProcessors/FontsProcessor.cs:42-57 | `Font` header, one size-parameterised accessor per entry in order, closing brace |
| Fonts.FontLine | R.cs.Core/ProjectItemsProcessors/FontsProcessor.cs:51 | the `UIFont.FromName` accessor; emitted once per entry in order by `Fonts.FontsProcessor.GenerateSourceCode` |
| Storyboards.StoryboardEntry | R.cs.Core/ProjectItemsProcessors/StoryboardsProcessor.cs:20-39 | only `InterfaceDefinition` items with extension exactly `.storyboard` give an entry |
| Storyboards.StoryboardsIgnoreDirectories | R.cs.Core/ProjectItemsProcessors/StoryboardsProcessor.cs:25-31 | directories are ignored |
| Storyboards.StoryboardOfFile | R.cs.Core/ProjectItemsProcessors/StoryboardsProcessor.cs:31-36 | `stem.storyboard` gives `(GetCorrectConstName(stem), GetCorrectResourceBundleName(stem))`, i.e. `stem` |
| Storyboards.StoryboardNameInTwoDirectoriesCollides | R.cs.Core/ProjectItemsProcessors/StoryboardsProcessor.cs:36 | a duplicate base name throws on the second `Add` |
| Storyboards.StoryboardsProcessor.constructor | R.cs.Core/ProjectItemsProcessors/StoryboardsProcessor.cs:15-18 | starts with an empty `_consts` |
| Storyboards.StoryboardsProcessor.Process | R.cs.Core/ProjectItemsProcessors/StoryboardsProcessor.cs:20-39 | result and new `_consts` are `Record` of the old table and the item's storyboard entry |
| Storyboards.StoryboardsProcessor.GenerateSourceCode | R.cs.Core/ProjectItemsProcessors/StoryboardsProcessor.cs:41-56 | `Storyboard` header, one accessor with optional bundle per entry in order, closing brace |
| Storyboards.StoryboardLine | R.cs.Core/ProjectItemsProcessors/StoryboardsProcessor.cs:50 | the `UIStoryboard.FromName` accessor; emitted once per entry in order by `Storyboards.StoryboardsProcessor.GenerateSourceCode` |
| Xibs.XibEntry | R.cs.Core/ProjectItemsProcessors/XibsProcessor.cs:20-39 | only `InterfaceDefinition` items with extension exactly `.xib` give an entry |
| Xibs.XibsIgnoreDirectories | R.cs.Core/ProjectItemsProcessors/XibsProcessor.cs:25-31 | directories are ignored |
| Xibs.XibOfFile | R.cs.Core/ProjectItemsProcessors/XibsProcessor.cs:31-36 | `stem.xib` gives `(GetCorrectConstName(stem), stem)` |
| Xibs.XibNameInTwoDirectoriesCollides | R.cs.Core/ProjectItemsProcessors/XibsProcessor.cs:36 | a duplicate base name throws on the second `Add` |
| Xibs.XibsAndStoryboardsDisjoint | R.cs.Core/ProjectItemsProcessors/XibsProcessor.cs:11-28 | no item is accepted by both the xib and the storyboard processor |
| Xibs.XibsProcessor.constructor | R.cs.Core/ProjectItemsProcessors/XibsProcessor.cs:15-18 | starts with an empty `_consts` |
| Xibs.XibsProcessor.Process | R.cs.Core/ProjectItemsProcessors/XibsProcessor.cs:20-39 | result and new `_consts` are `Record` of the old table and the item's xib entry |
| Xibs.XibsProcessor.GenerateSourceCode | R.cs.Core/ProjectItemsProcessors/XibsProcessor.cs:41-57 | non-public `static class Xib` header, one generic accessor per entry in order, closing brace |
| Xibs.XibLine | R.cs.Core/ProjectItemsProcessors/XibsProcessor.cs:50-51 | the `UINib.FromName` accessor; emitted once per entry in order by `Xibs.XibsProcessor.GenerateSourceCode` |
| Images.FindDirectory | R.cs.Core/ProjectItemsProcessors/ImagesProcessor.cs:66 | `FirstOrDefault` by name: the first index with that name, or -1 when none has it |
| Images.AddResource | R.cs.Core/ProjectItemsProcessors/ImagesProcessor.cs:86-89 | a value already present: unchanged; a new value with a present key: `DuplicateKey`; otherwise the pair is appended |
| Images.Walk | R.cs.Core/ProjectItemsProcessors/ImagesProcessor.cs:64-81 | the sibling list grows by at most one new node |
| Images.Place | R.cs.Core/ProjectItemsProcessors/ImagesProcessor.cs:64-89 | placing below a directory keeps its name (where the image lands: `Images.PlaceLands`) |
| Images.PlaceAlong | R.cs.Core/ProjectItemsProcessors/ImagesProcessor.cs:56-89 | placing from the root keeps the root's name; one component places in the root; more components whose first is the root's name place below the root with the rest; a first component naming no root directory leaves the root as it was |
| Images.BundleKey | R.cs.Core/ProjectItemsProcessors/ImagesProcessor.cs:83 | the key from the last component is a clean constant name |
| Images.AcceptBundleResource | R.cs.Core/ProjectItemsProcessors/ImagesProcessor.cs:48-92 | an extension not exactly one of the formats: false and no change; a failure leaves the tree unchanged; acceptance implies a listed extension |
| Images.AcceptAssetResource | R.cs.Core/ProjectItemsProcessors/ImagesProcessor.cs:94-114 | no `.imageset` entry: false, no change; with an entry the result is never false, and it fails exactly when the root table already holds the key (`Dictionary.Add`), with no change; acceptance appends the entry to the root table, with no value de-duplication |
| Images.Target | R.cs.Core/ProjectItemsProcessors/ImagesProcessor.cs:64-81 | following no directory names gives the directory itself |
| Images.DestinationPath | R.cs.Core/ProjectItemsProcessors/ImagesProcessor.cs:55-81 | the names the walk follows below the root |
| Images.PlaceLands | R.cs.Core/ProjectItemsProcessors/ImagesProcessor.cs:64-89 | placing through existing or new directories ends in the target named by the path: a value already there gives the tree back; a new value whose key is there fails with `DuplicateKey`; otherwise the target's table gains exactly `(key, value)` at its end |
| Images.PlaceAlongLands | R.cs.Core/ProjectItemsProcessors/ImagesProcessor.cs:56-89 | from the root, a path of one name or under the root's own name places as `PlaceLands` says at the directory its middle names reach |
| Images.AcceptBundleResourceLands | R.cs.Core/ProjectItemsProcessors/ImagesProcessor.cs:48-92 | a supported image whose path is one name or starts with the root's name lands in the directory its path names, with key `GetCorrectConstName` of its file's reference and value the reference of the whole path: already there: true, no change; key taken: throws; else appended |
| Images.PngInRoot | R.cs.Core/ProjectItemsProcessors/ImagesProcessor.cs:50-84 | `stem.png` is one component with extension `.png`, reference `stem` and key `GetCorrectConstName(stem)` |
| Images.PngLandsInRoot | R.cs.Core/ProjectItemsProcessors/ImagesProcessor.cs:48-92 | a `stem.png` in the root: already held: true, no change; its constant taken: throws; else `(GetCorrectConstName(stem), stem)` is appended to the root table |
| Images.CollidingConstNamesThrow | R.cs.Core/ProjectItemsProcessors/ImagesProcessor.cs:83-89 | two root images with different references but the same constant name: the first is added, the second throws with the tree as after the first |
| Images.HyphenBesideDotThrows | R.cs.Core/ProjectItemsProcessors/ImagesProcessor.cs:83-89 | `x.y.png` then `x-y.png` in the root: the second throws a duplicate key `x_y` |
| Images.AcceptItem | R.cs.Core/ProjectItemsProcessors/ImagesProcessor.cs:35-46 | item types other than `ImageAsset`/`BundleResource` return false and change nothing |
| Images.ExtendsReflexive | R.cs.Core/ProjectItemsProcessors/ImagesProcessor.cs:64-81 | a tree extends itself |
| Images.WalkExtends | R.cs.Core/ProjectItemsProcessors/ImagesProcessor.cs:64-81 | existing nodes are kept and extended; a node is added exactly when no sibling has the name |
| Images.PlaceExtends | R.cs.Core/ProjectItemsProcessors/ImagesProcessor.cs:64-89 | placing never removes a node or a resource |
| Images.PlaceAlongExtends | R.cs.Core/ProjectItemsProcessors/ImagesProcessor.cs:56-89 | placing from the root never removes a node or a resource |
| Images.AcceptExtends | R.cs.Core/ProjectItemsProcessors/ImagesProcessor.cs:35-114 | `Accept` never removes a node or a resource |
| Images.WalkWellFormed | R.cs.Core/ProjectItemsProcessors/ImagesProcessor.cs:64-81 | sibling names stay unique and every table keeps unique keys |
| Images.PlaceWellFormed | R.cs.Core/ProjectItemsProcessors/ImagesProcessor.cs:64-89 | a well-formed directory stays well-formed |
| Images.PlaceAlongWellFormed | R.cs.Core/ProjectItemsProcessors/ImagesProcessor.cs:56-89 | a well-formed root stays well-formed |
| Images.AcceptWellFormed | R.cs.Core/ProjectItemsProcessors/ImagesProcessor.cs:35-114 | `Accept` preserves well-formedness |
| Images.PlaceInFreshDirectory | R.cs.Core/ProjectItemsProcessors/ImagesProcessor.cs:68-89 | placing into freshly created directories cannot fail |
| Images.OrphanPathLeavesRootUnchanged | R.cs.Core/ProjectItemsProcessors/ImagesProcessor.cs:56-80 | a path whose first component is not the root's name changes nothing reachable from the root |
| Images.OrphanItemLeavesRootUnchanged | R.cs.Core/ProjectItemsProcessors/ImagesProcessor.cs:48-91 | such a bundle image is accepted (true) with the tree unchanged |
| Images.PlaceAgain | R.cs.Core/ProjectItemsProcessors/ImagesProcessor.cs:64-87 | placing the same value again in the same directory is a no-op |
| Images.PlaceAlongAgain | R.cs.Core/ProjectItemsProcessors/ImagesProcessor.cs:56-87 | the same from the root |
| Images.SameTail | R.cs.Core/ProjectItemsProcessors/ImagesProcessor.cs:79 | two paths with the same directories still share them after `Skip(1)` |
| Images.SameReferenceAddsNothing | R.cs.Core/ProjectItemsProcessors/ImagesProcessor.cs:83-87 | a second image with the same bundle reference in the same directory (e.g. `icon@3x.png` after `icon@2x.png`) returns true and adds nothing |
| Images.RenderAllAppend | R.cs.Core/ProjectItemsProcessors/ImagesProcessor.cs:132-135 | rendering one more subdirectory appends its lines |
| Images.AddClassForBundleDirectory | R.cs.Core/ProjectItemsProcessors/ImagesProcessor.cs:122-138 | appends exactly the pre-order rendering of the directory |
| Images.RenderDirectoryInParts | R.cs.Core/ProjectItemsProcessors/ImagesProcessor.cs:122-138 | a directory renders as header, its resources in order, its subdirectories, closing brace |
| Images.ImageLine | R.cs.Core/ProjectItemsProcessors/ImagesProcessor.cs:129 | the `UIImage.FromBundle` accessor; never a brace line by `Images.EntryLinesHaveNoBraces` |
| Images.RenderDirectory | R.cs.Core/ProjectItemsProcessors/ImagesProcessor.cs:122-138 | the nested image classes; their parts by `Images.RenderDirectoryInParts`, balance by `Images.RenderBalanced` |
| Images.AddClassesForSubdirectories | R.cs.Core/ProjectItemsProcessors/ImagesProcessor.cs:132-135 | the loop appends exactly the subdirectories' renderings in order |
| Images.RenderAllStep | R.cs.Core/ProjectItemsProcessors/ImagesProcessor.cs:132-135 | one loop step appends one subdirectory's rendering |
| Images.CountAppend | R.cs.Core/ProjectItemsProcessors/ImagesProcessor.cs:116-141 | line counts add over concatenation |
| Images.EntryLinesHaveNoBraces | R.cs.Core/ProjectItemsProcessors/ImagesProcessor.cs:129 | no resource line is a brace line |
| Images.RenderBalanced | R.cs.Core/ProjectItemsProcessors/ImagesProcessor.cs:122-138 | a directory's rendering has one `{` and one `}` line per directory in its subtree |
| Images.RenderAllBalanced | R.cs.Core/ProjectItemsProcessors/ImagesProcessor.cs:132-135 | the same for a list of directories |
| Images.ImagesProcessor.constructor | R.cs.Core/ProjectItemsProcessors/ImagesProcessor.cs:30-33 | starts with an empty `Resources` root |
| Images.ImagesProcessor.Accept | R.cs.Core/ProjectItemsProcessors/ImagesProcessor.cs:35-114 | result and new root are `AcceptItem` of the old root; the new root extends the old one |
| Images.ImagesProcessor.GenerateSourceCode | R.cs.Core/ProjectItemsProcessors/ImagesProcessor.cs:116-141 | the pre-order rendering of the root |
| StoryboardXml.Descendants | R.cs.Core/ProjectItemsProcessors/ControllersProcessor.cs:88-91 | `Descendants()` contains every child |
| StoryboardXml.Subtrees | R.cs.Core/ProjectItemsProcessors/ControllersProcessor.cs:96-100 | the subtrees of a list contain each element of it |
| StoryboardXml.DocumentDescendants | R.cs.Core/ProjectItemsProcessors/ControllersProcessor.cs:88 | `XDocument.Descendants()` starts with the root element |
| StoryboardXml.DescendantsClosed | R.cs.Core/ProjectItemsProcessors/ControllersProcessor.cs:88-91 | a descendant of a descendant is a descendant |
| StoryboardXml.SubtreesClosed | R.cs.Core/ProjectItemsProcessors/ControllersProcessor.cs:96-100 | the same for a list of subtrees |
| StoryboardXml.WhereNamed | R.cs.Core/ProjectItemsProcessors/ControllersProcessor.cs:97 | `Where(x => x.Name == n)` keeps exactly the elements named n |
| StoryboardXml.WhereNameIn | R.cs.Core/ProjectItemsProcessors/ControllersProcessor.cs:101 | keeps exactly the elements whose name is whitelisted |
| StoryboardXml.FirstNamed | R.cs.Core/ProjectItemsProcessors/ControllersProcessor.cs:89-91 | `First`/`FirstOrDefault` by name: none exactly when no element has the name, else the first one that does |
| StoryboardXml.DescendantsOfEachComplete | R.cs.Core/ProjectItemsProcessors/ControllersProcessor.cs:98 | `IEnumerable.Descendants()` contains the descendants of each element |
| StoryboardXml.DescendantsOfEachSound | R.cs.Core/ProjectItemsProcessors/ControllersProcessor.cs:98 | and nothing else |
| StoryboardXml.DescendantsOfEach | R.cs.Core/ProjectItemsProcessors/ControllersProcessor.cs:98 | the descendants of every element in turn; both directions by `StoryboardXml.DescendantsOfEachComplete` and `StoryboardXml.DescendantsOfEachSound` |
| StoryboardXml.Attribute | R.cs.Core/ProjectItemsProcessors/ControllersProcessor.cs:106-112 | an attribute lookup is absent exactly when no attribute has the name, and otherwise yields a stored value |
| StoryboardXml.AttributeIn | R.cs.Core/ProjectItemsProcessors/ControllersProcessor.cs:106-112 | the same on an attribute list |
| Controllers.ScanScenes | R.cs.Core/ProjectItemsProcessors/ControllersProcessor.cs:96-102 | only whitelisted tags are returned |
| Controllers.ScanScenesSound | R.cs.Core/ProjectItemsProcessors/ControllersProcessor.cs:96-102 | every returned element is whitelisted and lies under `scene` then `objects` under `scenes` |
| Controllers.ScanScenesComplete | R.cs.Core/ProjectItemsProcessors/ControllersProcessor.cs:96-102 | every whitelisted element under `scene`/`objects` is returned |
| Controllers.ScannedLieUnderScenes | R.cs.Core/ProjectItemsProcessors/ControllersProcessor.cs:96-102 | everything returned is a descendant of `scenes` |
| Controllers.ViewControllerElements | R.cs.Core/ProjectItemsProcessors/ControllersProcessor.cs:88-102 | the only failure is a missing `document` element |
| Controllers.ViewControllerElementsMeaning | R.cs.Core/ProjectItemsProcessors/ControllersProcessor.cs:88-102 | fails exactly when no `document` element exists; otherwise only whitelisted elements |
| Controllers.BindingOf | R.cs.Core/ProjectItemsProcessors/ControllersProcessor.cs:106-114 | an element yields at most one binding |
| Controllers.BindingOfAttributes | R.cs.Core/ProjectItemsProcessors/ControllersProcessor.cs:106-114 | a binding exists exactly when both `storyboardIdentifier` and `customClass` exist, and carries their values and the storyboard |
| Controllers.BindingOfIs | R.cs.Core/ProjectItemsProcessors/ControllersProcessor.cs:106-114 | the binding in terms of the two attribute lookups |
| Controllers.InterfaceDefinitionOutcome | R.cs.Core/ProjectItemsProcessors/ControllersProcessor.cs:76-118 | not a `.storyboard`: false, no change; no `document`: failure, no change; true: the bindings of the document appended |
| Controllers.AppendBindings | R.cs.Core/ProjectItemsProcessors/ControllersProcessor.cs:104-115 | the loop appends exactly the elements' bindings in document order |
| Controllers.BindingsExactly | R.cs.Core/ProjectItemsProcessors/ControllersProcessor.cs:104-115 | a binding is listed exactly when some element yields it; all carry the storyboard name |
| Controllers.Bindings | R.cs.Core/ProjectItemsProcessors/ControllersProcessor.cs:104-115 | the bindings of a storyboard's view controllers; stated by `Controllers.BindingsExactly` |
| Controllers.StoryboardName | R.cs.Core/ProjectItemsProcessors/ControllersProcessor.cs:114 | the storyboard name holds no path separator |
| Controllers.StoryboardNameOfPath | R.cs.Core/ProjectItemsProcessors/ControllersProcessor.cs:78-114 | `GetFileNameWithoutExtension(GetFileName(p))` is `GetFileNameWithoutExtension(p)` |
| Controllers.RegisteredClasses | R.cs.Core/ProjectItemsProcessors/ControllersProcessor.cs:126-132 | exactly the namespace-level classes with a `Register` attribute are kept |
| Controllers.RegisterArgument | R.cs.Core/ProjectItemsProcessors/ControllersProcessor.cs:143-157 | throws exactly when no attribute is named `Register`; else the result is the first argument of the FIRST such attribute (or its failure when it has none) |
| Controllers.FirstArgument | R.cs.Core/ProjectItemsProcessors/ControllersProcessor.cs:151 | the first argument of an attribute, failing when it has none; as used by `Controllers.RegisterArgument` |
| Controllers.RegistryEntry | R.cs.Core/ProjectItemsProcessors/ControllersProcessor.cs:136-140 | succeeds exactly when the `Register` argument does, with its error otherwise; the key is that argument trimmed of `"` and holds no surrounding quote; the value is `namespace.Class` |
| Controllers.RegisteredUnderQuotedName | R.cs.Core/ProjectItemsProcessors/ControllersProcessor.cs:136-151 | `[Register("Name")]` on the first `Register` attribute registers the class under `Name` |
| Controllers.RegisteredClassIsFound | R.cs.Core/ProjectItemsProcessors/ControllersProcessor.cs:134-141 | after a successful scan each class is found under its registered name |
| Controllers.Resolve | R.cs.Core/ProjectItemsProcessors/ControllersProcessor.cs:52-56 | success maps each binding to one controller |
| Controllers.ResolveSucceedsIff | R.cs.Core/ProjectItemsProcessors/ControllersProcessor.cs:54 | resolution succeeds exactly when every native class is registered |
| Controllers.ResolveStep | R.cs.Core/ProjectItemsProcessors/ControllersProcessor.cs:52-56 | one more binding is one more lookup |
| Controllers.ResolvePointwise | R.cs.Core/ProjectItemsProcessors/ControllersProcessor.cs:52-56 | on success controller i is binding i with its class looked up |
| Controllers.ResolveReportsFirstMissing | R.cs.Core/ProjectItemsProcessors/ControllersProcessor.cs:52-56 | a failure names the first unregistered native class |
| Controllers.ResolveAppend | R.cs.Core/ProjectItemsProcessors/ControllersProcessor.cs:52-56 | resolving a concatenation is resolving each part |
| Controllers.RenderViewControllersShape | R.cs.Core/ProjectItemsProcessors/ControllersProcessor.cs:45-61 | header, `{`, one line per controller in order, `}` |
| Controllers.ControllerLine | R.cs.Core/ProjectItemsProcessors/ControllersProcessor.cs:54-56 | one typed accessor per mapped controller; its form by `Controllers.ControllerLinesShape` |
| Controllers.RenderViewControllers | R.cs.Core/ProjectItemsProcessors/ControllersProcessor.cs:45-61 | the `ViewControllers` class; its shape by `Controllers.RenderViewControllersShape` |
| Controllers.ControllerLinesShape | R.cs.Core/ProjectItemsProcessors/ControllersProcessor.cs:52-56 | one line per controller in order |
| Controllers.ViewControllerSource | R.cs.Core/ProjectItemsProcessors/ControllersProcessor.cs:45-61 | rendering succeeds exactly when every native class of a binding is registered; it then has three lines more than there are bindings |
| Controllers.ControllersProcessor.constructor | R.cs.Core/ProjectItemsProcessors/ControllersProcessor.cs:37-43 | starts with no bindings and an empty registry |
| Controllers.ControllersProcessor.Process | R.cs.Core/ProjectItemsProcessors/ControllersProcessor.cs:63-74 | other item types: false, nothing changes; interface items leave the registry and give exactly `InterfaceDefinitionOutcome` of the old bindings; compile items leave the bindings and add the scanned classes |
| Controllers.ControllersProcessor.ProcessInterfaceDefinition | R.cs.Core/ProjectItemsProcessors/ControllersProcessor.cs:76-118 | result and new bindings are `InterfaceDefinitionOutcome` of the old list |
| Controllers.ControllersProcessor.ProcessCompile | R.cs.Core/ProjectItemsProcessors/ControllersProcessor.cs:120-160 | result and new registry are the `Add` loop over the registered classes |
| Controllers.ControllersProcessor.GenerateSourceCode | R.cs.Core/ProjectItemsProcessors/ControllersProcessor.cs:45-61 | the rendering of the bindings against the registry |
| Controllers.ResolveAndRender | R.cs.Core/ProjectItemsProcessors/ControllersProcessor.cs:45-61 | the `foreach` loop produces `ViewControllerSource` |
| Controllers.ControllerLinesAppend | R.cs.Core/ProjectItemsProcessors/ControllersProcessor.cs:52-56 | one more controller is one more line |
| Controllers.ResolveStopsAtFailure | R.cs.Core/ProjectItemsProcessors/ControllersProcessor.cs:54 | after a missing class the remaining bindings contribute nothing |
| ControllerGenerator.RegistryOf | R.cs.Core/ControllerGenerator.cs:106-156 | a successful registry has unique keys and one entry per registered class |
| ControllerGenerator.TouchClasses | R.cs.Core/ControllerGenerator.cs:117-125 | every `Register`ed class of every document in order; stated by `ControllerGenerator.RegistryOf` |
| ControllerGenerator.RegistryDocumentByDocument | R.cs.Core/ControllerGenerator.cs:117-135 | the registry is built document by document |
| ControllerGenerator.RegistryFindsEachClass | R.cs.Core/ControllerGenerator.cs:127-134 | every registered class is found under its name |
| ControllerGenerator.GetRegisteredTouchClasses | R.cs.Core/ControllerGenerator.cs:106-156 | the nested loop computes `RegistryOf` |
| ControllerGenerator.ProcessorTakesSameBindings | R.cs.Core/ControllerGenerator.cs:72-100 | per storyboard the generator reads the same bindings as the processor, and fails when it fails |
| ControllerGenerator.AllBindings | R.cs.Core/ControllerGenerator.cs:72-100 | the bindings of every storyboard, the first failure ending it; stated by `ControllerGenerator.ProcessorTakesSameBindings` |
| ControllerGenerator.GeneratorAgreesWithProcessor | R.cs.Core/ControllerGenerator.cs:64-104 | the mapped controllers are the resolution of all storyboards' bindings |
| ControllerGenerator.ResolveElementsStep | R.cs.Core/ControllerGenerator.cs:89-100 | one more element is one more resolved binding |
| ControllerGenerator.ResolveElementsStopsAtFailure | R.cs.Core/ControllerGenerator.cs:99 | a missing class ends mapping |
| ControllerGenerator.ResolveOne | R.cs.Core/ControllerGenerator.cs:99 | one binding resolves through one lookup |
| ControllerGenerator.MapElementStep | R.cs.Core/ControllerGenerator.cs:89-100 | skipped element: unchanged; missing class: the lookup's failure; else one more mapped controller |
| ControllerGenerator.MapElements | R.cs.Core/ControllerGenerator.cs:89-100 | the inner loop appends the resolved bindings of the elements |
| ControllerGenerator.MapStoryboardIs | R.cs.Core/ControllerGenerator.cs:70-100 | no `document`: failure; otherwise the resolution of its bindings |
| ControllerGenerator.MapStoryboard | R.cs.Core/ControllerGenerator.cs:70-100 | one storyboard's mapped controllers; stated by `ControllerGenerator.MapStoryboardIs` |
| ControllerGenerator.MapStoryboardsStep | R.cs.Core/ControllerGenerator.cs:68-101 | one more storyboard appends its controllers or fails |
| ControllerGenerator.MapStoryboards | R.cs.Core/ControllerGenerator.cs:68-101 | the storyboards mapped in order, the first failure ending it; stated by `ControllerGenerator.MapStoryboardsStep` |
| ControllerGenerator.GetMappedViewControllers | R.cs.Core/ControllerGenerator.cs:64-104 | the loop over storyboards computes `MapStoryboards` |
| ControllerGenerator.GeneratedSourceIsProcessorSource | R.cs.Core/ControllerGenerator.cs:43-62 | the generator's output equals the processor's for the same storyboards and classes |
| ControllerGenerator.GeneratedSource | R.cs.Core/ControllerGenerator.cs:43-62 | the controller file's lines; equal to the processor's own rendering by `ControllerGenerator.GeneratedSourceIsProcessorSource` |
| ControllerGenerator.GenerateSourceCode | R.cs.Core/ControllerGenerator.cs:43-62 | registry, then mapping, then rendering |
| ControllerGenerator.RenderMapped | R.cs.Core/ControllerGenerator.cs:48-61 | the rendering loop emits `RenderViewControllers` |
| GeneratorNames.LegacyConstName | R.cs.Core/Generator.cs:177-185 | the older sanitiser: no `-` or `.`, no leading digit |
| GeneratorNames.LegacyConstNameShape | R.cs.Core/Generator.cs:177-185 | digit guard followed by the pointwise-cleaned input |
| GeneratorNames.LegacyConstNameKeeps | R.cs.Core/Generator.cs:184 | every other character keeps its place; parentheses survive |
| GeneratorNames.NewerSanitiserSubsumesLegacy | R.cs.Core/Generator.cs:177-185 | the newer sanitiser after the older gives the newer's result |
| GeneratorNames.CleanAfterLegacy | R.cs.Core/Generator.cs:184 | pointwise form of the same |
| GeneratorNames.LegacyConstNameIdempotent | R.cs.Core/Generator.cs:177-185 | the older sanitiser is idempotent |
| GeneratorNames.LegacyConstNameOfResources | R.cs.Core/Generator.cs:107-150 | only `Resources` is sanitised to `Resources` |
| GeneratorNames.NoSymbolsUnchanged | R.cs.Core/Generator.cs:177-185 | a name without `-`, `.` or leading digit is unchanged |
| GeneratorNames.LegacyConstNameNotBlank | R.cs.Core/Generator.cs:135-136 | a non-blank name stays non-blank |
| GeneratorNames.LegacyBundleName | R.cs.Core/Generator.cs:187-199 | the older normaliser: backslash-free, always the extension stripped |
| GeneratorNames.LegacyBundleNameVersusNewer | R.cs.Core/Generator.cs:187-199 | agrees with the newer one on `.png`/`.otf`/`.ttf`/no extension; else the newer keeps the extension |
| GeneratorNames.LegacyScaleVariantsShareBundleName | R.cs.Core/Generator.cs:194 | scale variants share one older reference |
| GeneratorTables.Components | R.cs.Core/Generator.cs:44 | `Split` yields at least one component |
| GeneratorTables.ConstTable | R.cs.Core/Generator.cs:48-53 | succeeds exactly when sanitised keys are unique; failure names a colliding key wrapped in the stage's message |
| GeneratorTables.CollidingNamesFail | R.cs.Core/Generator.cs:48-53 | two names sanitised alike make the stage fail with its message |
| GeneratorTables.FirstContaining | R.cs.Core/Generator.cs:45-46 | none exactly when no component contains the marker; else the first that does |
| GeneratorTables.SetDirectory | R.cs.Core/Generator.cs:44-46 | an item names at most one set directory |
| GeneratorTables.OnlyPiece | R.cs.Core/Generator.cs:45-46 | a set directory of an item is its only one |
| GeneratorTables.GroupedTableContents | R.cs.Core/Generator.cs:42-48 | unique keys, one entry per distinct set directory, each directory's entry present and nothing else |
| GeneratorTables.GroupedTableEntries | R.cs.Core/Generator.cs:46-48 | entry k is that of the k-th distinct directory, in first-occurrence order |
| GeneratorTables.GroupedTableHas | R.cs.Core/Generator.cs:42-48 | every item's set directory has its entry |
| GeneratorTables.GroupedTableEntryFrom | R.cs.Core/Generator.cs:42-48 | every entry comes from some item's set directory |
| GeneratorTables.AssetTableContents | R.cs.Core/Generator.cs:42-68 | the images and colors tables: one constant per distinct `.imageset`/`.colorset` directory name, and nothing else |
| GeneratorTables.InterfaceName | R.cs.Core/Generator.cs:74-77 | an item gives at most one name |
| GeneratorTables.InterfaceNameIgnoresDirectories | R.cs.Core/Generator.cs:74-75 | keyed by the last path component only |
| GeneratorTables.SplitAfterLast | R.cs.Core/Generator.cs:74-75 | splitting adds the last component at the end |
| GeneratorTables.SplitPlain | R.cs.Core/Generator.cs:74-75 | a separator-free string is one component |
| GeneratorTables.JoinSnoc | R.cs.Core/Generator.cs:74-75 | joining one more component |
| GeneratorTables.UngroupedRepeatFails | R.cs.Core/Generator.cs:72-83 | a name occurring twice fails with the stage's message |
| GeneratorTables.SameNameTwiceFails | R.cs.Core/Generator.cs:72-98 | the same base name in two directories fails the storyboards or xibs stage |
| GeneratorTables.UngroupedTableContents | R.cs.Core/Generator.cs:72-98 | unique keys, one entry per name, each name's entry present and nothing else |
| GeneratorTables.UngroupedTableHas | R.cs.Core/Generator.cs:72-98 | each name has its entry |
| GeneratorTables.InterfaceTableContents | R.cs.Core/Generator.cs:72-98 | storyboards and xibs: exactly `(GetCorrectConstName(n), n)` for each base name n |
| GeneratorTables.ImagesTable | R.cs.Core/Generator.cs:42-53 | the `.imageset` table; contents by `GeneratorTables.AssetTableContents`, rendering by `Generator.DoRendersAssets` |
| GeneratorTables.ColorsTable | R.cs.Core/Generator.cs:57-68 | the `.colorset` table; contents by `GeneratorTables.AssetTableContents`, rendering by `Generator.DoRendersAssets` |
| GeneratorTables.StoryboardsTable | R.cs.Core/Generator.cs:72-83 | the `.storyboard` table; contents by `GeneratorTables.InterfaceTableContents`, collisions by `GeneratorTables.SameNameTwiceFails` |
| GeneratorTables.XibsTable | R.cs.Core/Generator.cs:87-98 | the `.xib` table; contents by `GeneratorTables.InterfaceTableContents`, collisions by `GeneratorTables.SameNameTwiceFails` |
| GeneratorTables.GroupedTable | R.cs.Core/Generator.cs:42-48 | one constant per distinct set directory; stated by `GeneratorTables.GroupedTableContents` and `GeneratorTables.GroupedTableEntries` |
| GeneratorTables.UngroupedTable | R.cs.Core/Generator.cs:72-78 | one constant per name, a repeat failing; stated by `GeneratorTables.UngroupedTableContents` and `GeneratorTables.UngroupedRepeatFails` |
| GeneratorBundles.BundleItems | R.cs.Core/Generator.cs:100-102 | every bundle item has at least one component |
| GeneratorBundles.Heads | R.cs.Core/Generator.cs:103 | the group key of item i is its first component |
| GeneratorBundles.GroupKeys | R.cs.Core/Generator.cs:103 | no more keys than items |
| GeneratorBundles.GroupKeysFacts | R.cs.Core/Generator.cs:103-144 | `GroupBy` keys are exactly the first components, without repeats |
| GeneratorBundles.Members | R.cs.Core/Generator.cs:119 | a group's items after `Skip(1)` are strictly shallower |
| GeneratorBundles.Nested | R.cs.Core/Generator.cs:143 | items with more than one component remain groupable and no deeper |
| GeneratorBundles.NonBlank | R.cs.Core/Generator.cs:135 | keeps exactly the non-blank keys |
| GeneratorBundles.ToBundleDirectory | R.cs.Core/Generator.cs:115-156 | the directory's name is the sanitised group key |
| GeneratorBundles.RootBundle | R.cs.Core/Generator.cs:107-113 | the first group named `Resources`, or an empty `Resources` node when none is |
| GeneratorBundles.DirectoriesPointwise | R.cs.Core/Generator.cs:143-146 | one directory per key, built from that key's members |
| GeneratorBundles.AnyGroupFailureIsFatal | R.cs.Core/Generator.cs:138-141 | a failure in any group fails the whole tree |
| GeneratorBundles.BundleResourcesEntries | R.cs.Core/Generator.cs:125-136 | the resources are the first-per-key, non-blank leaf pairs with sanitised keys |
| GeneratorBundles.BundleResourcesContents | R.cs.Core/Generator.cs:125-141 | unique clean non-blank keys, each from a leaf of the group |
| GeneratorBundles.ResourceEntryFrom | R.cs.Core/Generator.cs:125-136 | each resource comes from a non-blank leaf |
| GeneratorBundles.FirstLeafWins | R.cs.Core/Generator.cs:134 | the first leaf of each key is kept |
| GeneratorBundles.ScaleVariantsShareKey | R.cs.Core/Generator.cs:129-132 | the key is cut at the first `@` when it is past position 0 |
| GeneratorBundles.StemOfPlainName | R.cs.Core/Generator.cs:126 | `GetFileNameWithoutExtension(n + ext)` is n |
| GeneratorBundles.BuiltDirectoryIsClean | R.cs.Core/Generator.cs:115-156 | every name and key in a built directory is sanitised |
| GeneratorBundles.BuiltDirectoriesAreClean | R.cs.Core/Generator.cs:143-146 | the same for all groups |
| GeneratorBundles.BundleTreeConverted | R.cs.Core/Generator.cs:100-113 | the root bundle is chosen among the converted groups |
| GeneratorBundles.RootOfCleanIsClean | R.cs.Core/Generator.cs:107-113 | the chosen root is clean when all groups are |
| GeneratorBundles.EmptyResourcesIsClean | R.cs.Core/Generator.cs:108-113 | the empty fallback is clean |
| GeneratorBundles.RootChoice | R.cs.Core/Generator.cs:107-113 | the root is one of the groups or the fallback |
| GeneratorBundles.BundleTreeIsClean | R.cs.Core/Generator.cs:100-156 | the whole bundle tree is sanitised |
| GeneratorBundles.FirstNamed | R.cs.Core/Generator.cs:107 | a group named `Resources` makes the root one of the groups |
| GeneratorBundles.BundleTreeRoot | R.cs.Core/Generator.cs:100-113 | the root is the `Resources` group when present, else the empty node; other top-level groups are dropped |
| GeneratorBundles.RootOfConverted | R.cs.Core/Generator.cs:107-113 | among converted distinct keys the root is the one keyed `Resources` |
| GeneratorBundles.BundleTree | R.cs.Core/Generator.cs:100-113 | the root bundle of the grouped items; stated by `GeneratorBundles.BundleTreeRoot`, `GeneratorBundles.AnyGroupFailureIsFatal` and `GeneratorBundles.BundleTreeIsClean` |
| GeneratorBundles.Directories | R.cs.Core/Generator.cs:143-146 | one converted directory per group key; stated by `GeneratorBundles.DirectoriesPointwise` and `GeneratorBundles.AnyGroupFailureIsFatal` |
| GeneratorBundles.BundleResources | R.cs.Core/Generator.cs:125-141 | a group's resource table; stated by `GeneratorBundles.BundleResourcesEntries` and `GeneratorBundles.BundleResourcesContents` |
| GeneratorBundles.Leaves | R.cs.Core/Generator.cs:125-133 | the `(key, reference)` pairs of single-component items; stated by `GeneratorBundles.ResourceEntryFrom` and `GeneratorBundles.FirstLeafWins` |
| GeneratorBundles.ResourceKey | R.cs.Core/Generator.cs:126-132 | the file stem cut at an `@` past position 0; stated by `GeneratorBundles.ScaleVariantsShareKey` and `GeneratorBundles.StemOfPlainName` |
| Generator.Spaces | R.cs.Core/Generator.cs:221 | `new string(' ', n)`: n spaces |
| Generator.SpacesSplit | R.cs.Core/Generator.cs:226-231 | `Spaces(a + b)` is `Spaces(a)` followed by `Spaces(b)`: a deeper indentation extends a shallower one, which `Generator.DeeperIsIndented` rests on |
| Generator.AddClass | R.cs.Core/Generator.cs:237-248 | appends the class header, one constant per entry in order, closing brace |
| Generator.AddClassForBundleDirectory | R.cs.Core/Generator.cs:219-235 | appends exactly the recursive rendering of the directory |
| Generator.DirectoryLinesInParts | R.cs.Core/Generator.cs:219-235 | a directory renders as header, resources, subdirectories four deeper, closing brace |
| Generator.AddClassesForSubdirectories | R.cs.Core/Generator.cs:229-232 | the loop appends the subdirectories' renderings |
| Generator.AllDirectoryLinesAppend | R.cs.Core/Generator.cs:229-232 | one more subdirectory appends its rendering |
| Generator.AllDirectoryLinesStep | R.cs.Core/Generator.cs:229-232 | one loop step |
| Generator.GenerateRcsContent | R.cs.Core/Generator.cs:201-251 | banner, namespace, `R`, the four classes, the bundle tree at 8 spaces, closing lines |
| Generator.RcsContent | R.cs.Core/Generator.cs:201-251 | the whole file's lines; the method `Generator.GenerateRcsContent` is proved equal to it, and `Generator.DoShape`, `Generator.RcsContentBalanced` and `Generator.ContentHasEntries` state its shape |
| Generator.Preamble | R.cs.Core/Generator.cs:205-210 | banner, blank line, namespace, `{`, `R` class header, `{`; two opening braces by `Generator.PreambleBraces` |
| Generator.ClassLines | R.cs.Core/Generator.cs:237-248 | a flat class; built by `Generator.AddClass`, balanced by `Generator.ClassBalanced`, holding its entries by `Generator.ClassHasEntries` |
| Generator.ConstLine | R.cs.Core/Generator.cs:244 | `public const string key = "value";`; never a brace line by `Generator.ConstLinesHaveNoBraces` |
| Generator.ResourceLine | R.cs.Core/Generator.cs:226 | the bundle constant with a verbatim `@"…"` value, four spaces deeper; never a brace line by `Generator.ResourceLinesHaveNoBraces` |
| Generator.ClassName | R.cs.Core/Generator.cs:221 | the root name prints as `Bundle`, others as themselves; stated by `Generator.RootClassName` and `Generator.CleanNamePrinted` |
| Generator.DirectoryLines | R.cs.Core/Generator.cs:219-235 | the recursive rendering; its parts by `Generator.DirectoryLinesInParts`, balance by `Generator.DirectoryBalanced`, indentation by `Generator.DirectoryIndented` |
| Generator.DoOutcome | R.cs.Core/Generator.cs:30-158 | `Do` succeeds exactly when all five stages do; a failure is the first failing stage's error: images, colors, storyboards, xibs, and the bundle tree once the four tables have succeeded |
| Generator.Do | R.cs.Core/Generator.cs:30-158 | the five stages in order, the first failure ending it; outcome and value stated by `Generator.DoOutcome` and `Generator.DoValue` |
| Generator.DoValue | R.cs.Core/Generator.cs:30-158 | on success the content is `GenerateRcsContent` of the four tables and the root bundle, namespace `ns.Resources` |
| Generator.DoShape | R.cs.Core/Generator.cs:201-251 | banner first, `namespace ns.Resources` third, `}` last, as many `{` as `}` lines |
| Generator.ContentHasEntries | R.cs.Core/Generator.cs:211-215 | every table entry and root resource is a line of the content |
| Generator.ClassHasEntries | R.cs.Core/Generator.cs:237-248 | every entry is a line of its class |
| Generator.DoRendersAssets | R.cs.Core/Generator.cs:42-68 | every image set and color set is rendered as a constant |
| Generator.DoRendersInterfaces | R.cs.Core/Generator.cs:72-98 | every storyboard and xib is rendered as a constant |
| Generator.DoRendersBundle | R.cs.Core/Generator.cs:107-113 | the `Resources` class is rendered at 8 spaces with all its resources |
| Generator.RootClassName | R.cs.Core/Generator.cs:221 | `Resources` is printed as itself |
| Generator.CleanNamePrinted | R.cs.Core/Generator.cs:221 | a name without `.` is printed unchanged, so a sanitised node is never renamed `Bundle` |
| Generator.BracesAppend | R.cs.Core/Generator.cs:201-251 | brace lines add over concatenation |
| Generator.TextIsNoBrace | R.cs.Core/Generator.cs:221-226 | a declaration line is not a brace line |
| Generator.EntryLinesHaveNoBraces | R.cs.Core/Generator.cs:226-244 | entry lines are not brace lines |
| Generator.ConstLinesHaveNoBraces | R.cs.Core/Generator.cs:244 | constant lines are not brace lines |
| Generator.ResourceLinesHaveNoBraces | R.cs.Core/Generator.cs:226 | resource lines are not brace lines |
| Generator.DirectoryBalanced | R.cs.Core/Generator.cs:219-235 | a directory's rendering has one `{` and one `}` line per class in its subtree |
| Generator.AllDirectoriesBalanced | R.cs.Core/Generator.cs:229-232 | the same for a list |
| Generator.BracesOne | R.cs.Core/Generator.cs:201-251 | counting one line |
| Generator.OpeningBraces | R.cs.Core/Generator.cs:221-222 | a header pair has one `{` and no `}` |
| Generator.HeaderBraces | R.cs.Core/Generator.cs:221-222 | the same for a bundle class header |
| Generator.ClosingBraces | R.cs.Core/Generator.cs:234 | a closing line has one `}` |
| Generator.ClassBalanced | R.cs.Core/Generator.cs:237-248 | a flat class has one `{` and one `}` |
| Generator.PairBraces | R.cs.Core/Generator.cs:201-251 | counting two lines |
| Generator.PreambleBraces | R.cs.Core/Generator.cs:205-210 | the preamble opens two braces |
| Generator.RcsContentBalanced | R.cs.Core/Generator.cs:201-251 | the content has `6 + classes of the bundle tree` opening and closing brace lines |
| Generator.DeeperIsIndented | R.cs.Core/Generator.cs:221-231 | deeper indentation implies shallower |
| Generator.DirectoryIndented | R.cs.Core/Generator.cs:219-235 | every line of a directory at depth n starts with n spaces |
| Generator.AllDirectoriesIndented | R.cs.Core/Generator.cs:229-232 | the same for a list |
| Strings.ReplaceChar | R.cs.Core/ProjectItemsProcessors/ColorsProcessor.cs:26 | `Replace(char, char)`: pointwise, same length |
| Strings.Replace | R.cs.Core/ValidNamesProvider.cs:26-31 | `Replace(string, string)`: unchanged when the pattern is absent; removal never lengthens |
| Strings.ReplaceOneChar | R.cs.Core/ValidNamesProvider.cs:31 | a one-character string replace is the character replace |
| Strings.JoinSplit | R.cs.Core/Generator.cs:44 | `Split` loses nothing: joining the parts gives the input back |
| Strings.SplitJoin | R.cs.Core/Generator.cs:44 | splitting separator-free parts joined gives the parts back |
| Strings.Split | R.cs.Core/ProjectItemsProcessors/ImagesProcessor.cs:55 | at least one part, none containing the separator |
| Strings.IndexOf | R.cs.Core/Generator.cs:129 | -1 exactly when absent; otherwise the first position |
| Strings.Trim | R.cs.Core/ProjectItemsProcessors/ControllersProcessor.cs:140 | `Trim('"')`: a contiguous slice of the input with no quote at either end, everything cut off before and after it being quotes |
| Strings.TrimQuotes | R.cs.Core/ProjectItemsProcessors/ControllersProcessor.cs:140 | a text without end quotes, wrapped in one quote on each side, is trimmed back to itself |
| DotNetPath.GetFileName | R.cs.Core/ProjectItemsProcessors/FontsProcessor.cs:26 | the suffix after the last separator, holding none |
| DotNetPath.ParentDirectory | R.cs.Core/ProjectItemsProcessors/ColorsProcessor.cs:32 | the prefix before the separator that precedes the file name |
| DotNetPath.GetExtension | R.cs.Core/ProjectItemsProcessors/FontsProcessor.cs:27 | empty or a dot-started suffix of the file name holding no other dot |
| DotNetPath.StripExtension | R.cs.Core/ValidNamesProvider.cs:36 | a prefix cut at a dot |
| DotNetPath.ChangeExtension | R.cs.Core/ValidNamesProvider.cs:36 | with `null` strips the extension |
| DotNetPath.ChangeToOwnExtension | R.cs.Core/ValidNamesProvider.cs:34-36 | changing to the same extension is the identity |
| DotNetPath.GetFileNameWithoutExtension | R.cs.Core/ProjectItemsProcessors/FontsProcessor.cs:32 | holds no separator |
| DotNetPath.ExtensionOfName | R.cs.Core/ProjectItemsProcessors/FontsProcessor.cs:27-32 | `stem.ext` has extension `.ext` and stem `stem` |
| DotNetPath.NoDotNoExtension | R.cs.Core/ValidNamesProvider.cs:33-36 | a name without a dot has no extension |

## Left out

- Loading the MSBuild project, `AddItem`/`Save` of the `R.cs` compile item,
  `File.WriteAllText` and `UnloadProject` in `Generator.Do`. This is
  project-file and disk I/O; `Generator.Do` takes the item list as input
  and returns the content lines.
- Roslyn parsing (`CSharpSyntaxTree.ParseText`, `MSBuildWorkspace`,
  `GetSyntaxRootAsync`, `Task.Result`). The class declarations of each
  source file are an input: a list with identifier, enclosing namespace
  (when the parent is a namespace) and attributes. `File.ReadAllText` is
  left out with them.
- `XDocument.Load`, `Directory.GetParent(projectPath)` and `Path.Combine`
  with the project path. Storyboards are given as already parsed element
  trees together with their include path.
- `StoryboardsProcessor.StoryboardPaths`, which the `ControllerGenerator`
  constructor reads, is not part of this model. The list of storyboards is
  an input of `GetMappedViewControllers`.
- `IsRunningOnMono` / `Mono.IsMono()`: runtime probing. `Platform` is a
  parameter, with `\` as the separator on Windows and `/` on Mono.
- The assembly-version banner `GeneratedFileDescription`: reflection. The
  banner is built from a version parameter.
- The debugging `Console.WriteLine` in `AcceptBundleResourceProjectItem`:
  it has no effect on state.
- The newline text of `StringBuilder.AppendLine` and `ToString`: output is
  the sequence of appended lines.
- Images.Place: its own contract states only that the directory keeps its name;
  where the image lands, and when placing fails, is stated by
  `Images.PlaceLands` over the same function.
- Images.AcceptBundleResource: its own contract keeps the decline and failure
  facts. Where the image lands and when the accept throws is stated by
  `Images.AcceptBundleResourceLands` over the same function, because the
  combined contract exceeds the verifier's resource limit.
- GeneratorBundles.ScaleVariantsShareKey: `IndexOf("@",
  StringComparison.InvariantCulture)` (Generator.cs:129) is modelled as an
  ordinal search for the character. A culture-aware search compares text
  elements, so an `@` followed by a combining mark may not be found there
  while the model finds it.
- ValidNames.DropResourcesPrefix: `original.StartsWith($"Resources{Separator}")`
  (ValidNamesProvider.cs:24, and the same test in
  `GeneratorNames.LegacyBundleName`, Generator.cs:189) passes no
  `StringComparison`, so .NET compares with the current culture. The model
  tests the prefix ordinally. A culture comparison ignores characters such
  as the soft hyphen U+00AD: on Windows `Re\u00ADsources\Resources\a.png`
  passes the source's test, and the ordinal `Replace` then removes the
  inner `Resources\`, giving `Re\u00ADsources/a`. The model leaves the
  string unchanged and gives `Re\u00ADsources/Resources/a`. Conversely,
  `Resources\` followed by a combining mark can fail the culture test while
  the model strips it. The difference reaches `ValidNames.NormalizeBundlePath`,
  `ValidNames.BundleName` and `GeneratorNames.LegacyBundleName`.
- ValidNames.ConstName: `Regex.IsMatch(s, "^\d")` matches any Unicode
  decimal digit; the model recognises ASCII `0`-`9` only.
- Extensions.DistinctBy: deferred execution is not modelled. The null
  checks run at call time and the enumeration is taken whole; a null
  comparer is the default equality on keys.
- Images: the bundle tree is modelled on values, not as shared mutable
  nodes. `Accept` replaces the root with the updated tree. Aliasing of
  `BundleSubDirectories` lists and the orphan node kept in the local list
  are not modelled; their only observable effect, that the root is
  unchanged, is proved (`Images.OrphanPathLeavesRootUnchanged`).
- `ArgumentNullException` for a null project path in the constructors of
  `ControllersProcessor` and `ControllerGenerator`: strings are never null
  here.
- Exceptions are modelled as `Result` failures. The outer
  `new Exception(message, inner)` wrapping keeps the message and the inner
  error; stack traces are not modelled.
- `Path.GetFullPath`-style normalisation, drive roots and invalid path
  characters are not modelled in the path functions. This includes
  `Directory.GetParent` at ImagesProcessor.cs:101 and ColorsProcessor.cs:32,
  which returns the full path: the working directory followed by the
  parent with `.` and `..` collapsed. The source's `.Contains(".imageset")`
  and `.Contains(".colorset")` tests therefore see the working directory
  and the collapsed path. `DotNetPath.ParentDirectory` and
  `ProjectItems.AssetSetEntry` see only the relative parent as written. So
  `Logo.imageset\..\Contents.json` gives an entry in the model but none in
  the source (unless the working directory contains `.imageset`). A
  working directory containing the set extension makes the source accept a
  `Contents.json` the model rejects. Windows treats `\`,
  `/` and `:` as breaks; Mono treats `/` only.
- R.cs.Core/BuildTask.cs, Rcs/RcsBuildTask.cs, R.cs.Tests/ViewController.cs
  and IProjectItemProcessor.cs are not part of this model: they are build
  glue, a runtime UIKit test and a signature without logic.
