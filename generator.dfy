/**
 * The older single-file generator: `Generator.Do` builds the four constant
 * tables and the bundle tree from the project items, and
 * `GenerateRcsContent` writes them out as the nested static classes of
 * `R.cs`. The generated text is modelled as its sequence of lines; the
 * assembly version in the banner is a parameter.
 */
module Generator {
  import opened Failures
  import opened Strings
  import opened DotNetPath
  import opened Tables
  import opened ProjectItems
  import opened GeneratorNames
  import opened GeneratorTables
  import opened GeneratorBundles

  /** The name that `AddClassForBundleDirectory` prints as `Bundle`. */
  const RootBundleDirectoryName: string := "R.cs_root"

  /** `GeneratedFileDescription`, with the assembly version given. */
  function Banner(version: string): string
  {
    "// This file generated with R.cs v." + version
  }

  /** `new string(' ', n)`. */
  function Spaces(n: nat): (r: string)
    ensures |r| == n && forall j :: 0 <= j < n ==> r[j] == ' '
  {
    seq(n, _ => ' ')
  }

  lemma SpacesSplit(a: nat, b: nat)
    ensures Spaces(a + b) == Spaces(a) + Spaces(b)
  {
    assert forall j :: 0 <= j < a + b ==> Spaces(a + b)[j] == (Spaces(a) + Spaces(b))[j];
  }

  /* ---------------------------------------------------------------- */
  /* The text, as functions.                                           */

  /** A constant of `AddClass`: a regular string literal. */
  function ConstLine(key: string, value: string): string
  {
    "            public const string " + key + " = \"" + value + "\";"
  }

  /** `AddClass`: a class at depth 2, one constant per entry in table order. */
  function ClassLines(name: string, consts: Table): seq<string>
  {
    ["        public static class " + name, "        {"] + EntryLines(consts, ConstLine) + ["        }"]
  }

  /** A constant of a bundle class indented by `spaces`: a verbatim string literal. */
  function ResourceLine(spaces: nat): (string, string) -> string
  {
    (key, value) => Spaces(spaces + 4) + "public const string " + key + " = @\"" + value + "\";"
  }

  /** The class name printed for a directory: `R.cs_root` is printed as `Bundle`. */
  function ClassName(name: string): string
  {
    if name == RootBundleDirectoryName then "Bundle" else name
  }

  function ClassHeader(name: string, spaces: nat): seq<string>
  {
    [Spaces(spaces) + "public static class " + ClassName(name), Spaces(spaces) + "{"]
  }

  /** `AddClassForBundleDirectory(bd, spaces)`: header, resources, nested classes four spaces deeper, closing brace. */
  function DirectoryLines(bd: BundleDirectory, spaces: nat): seq<string>
    decreases bd, 1
  {
    ClassHeader(bd.name, spaces) + EntryLines(bd.resources, ResourceLine(spaces))
      + AllDirectoryLines(bd.subdirectories, spaces + 4) + [Spaces(spaces) + "}"]
  }

  function AllDirectoryLines(ds: seq<BundleDirectory>, spaces: nat): seq<string>
    decreases ds, 0
  {
    if ds == [] then [] else DirectoryLines(ds[0], spaces) + AllDirectoryLines(ds[1..], spaces)
  }

  /** The banner, the namespace and the opening of class `R`. */
  function Preamble(version: string, namespace: string): seq<string>
  {
    [Banner(version), "", "namespace " + namespace, "{", "    public static class R", "    {"]
  }

  /** `GenerateRcsContent`: the four flat classes, then the bundle tree at depth 2. */
  function RcsContent(version: string, namespace: string, images: Table, colors: Table,
                      bundle: BundleDirectory, storyboards: Table, xibs: Table): seq<string>
  {
    Preamble(version, namespace)
      + ClassLines("Image", images) + ClassLines("Color", colors)
      + ClassLines("Storyboard", storyboards) + ClassLines("Xibs", xibs)
      + DirectoryLines(bundle, 8)
      + ["    }", "}"]
  }

  /* ---------------------------------------------------------------- */
  /* The text, as the generator appends it.                            */

  /** The local function `AddClass`. */
  method AddClass(acc: seq<string>, name: string, consts: Table) returns (lines: seq<string>)
    ensures lines == acc + ClassLines(name, consts)
  {
    lines := acc + ["        public static class " + name, "        {"];
    lines := AppendEntries(lines, consts, ConstLine);
    lines := lines + ["        }"];
  }

  /** The local function `AddClassForBundleDirectory`. */
  method AddClassForBundleDirectory(acc: seq<string>, bd: BundleDirectory, spaces: nat) returns (lines: seq<string>)
    ensures lines == acc + DirectoryLines(bd, spaces)
    decreases bd, 1
  {
    lines := AppendEntries(acc + ClassHeader(bd.name, spaces), bd.resources, ResourceLine(spaces));
    lines := AddClassesForSubdirectories(lines, bd, spaces + 4);
    lines := lines + [Spaces(spaces) + "}"];
    DirectoryLinesInParts(acc, bd, spaces);
  }

  /** The class of a directory, piece by piece as the generator appends it. */
  lemma DirectoryLinesInParts(acc: seq<string>, bd: BundleDirectory, spaces: nat)
    ensures acc + DirectoryLines(bd, spaces)
         == acc + ClassHeader(bd.name, spaces) + EntryLines(bd.resources, ResourceLine(spaces))
            + AllDirectoryLines(bd.subdirectories, spaces + 4) + [Spaces(spaces) + "}"]
  {
  }

  /** The `foreach` over `BundleSubDirectories`. */
  method AddClassesForSubdirectories(acc: seq<string>, bd: BundleDirectory, spaces: nat) returns (lines: seq<string>)
    ensures lines == acc + AllDirectoryLines(bd.subdirectories, spaces)
    decreases bd, 0
  {
    var subs := bd.subdirectories;
    lines := acc;
    var i := 0;
    while i < |subs|
      invariant 0 <= i <= |subs|
      invariant lines == acc + AllDirectoryLines(subs[..i], spaces)
    {
      AllDirectoryLinesStep(subs, i, spaces);
      lines := AddClassForBundleDirectory(lines, subs[i], spaces);
      i := i + 1;
    }
    assert subs[..i] == subs;
  }

  lemma {:induction false} AllDirectoryLinesAppend(ds: seq<BundleDirectory>, d: BundleDirectory, spaces: nat)
    ensures AllDirectoryLines(ds + [d], spaces) == AllDirectoryLines(ds, spaces) + DirectoryLines(d, spaces)
    decreases |ds|
  {
    if ds == [] {
      assert [] + [d] == [d];
    } else {
      assert (ds + [d])[1..] == ds[1..] + [d];
      AllDirectoryLinesAppend(ds[1..], d, spaces);
    }
  }

  lemma AllDirectoryLinesStep(ds: seq<BundleDirectory>, i: int, spaces: nat)
    requires 0 <= i < |ds|
    ensures forall acc: seq<string> ::
      acc + AllDirectoryLines(ds[..i], spaces) + DirectoryLines(ds[i], spaces) == acc + AllDirectoryLines(ds[..i + 1], spaces)
  {
    assert ds[..i + 1] == ds[..i] + [ds[i]];
    AllDirectoryLinesAppend(ds[..i], ds[i], spaces);
  }

  /** `GenerateRcsContent`, line by line into the builder. */
  method GenerateRcsContent(version: string, namespace: string, images: Table, colors: Table,
                            bundle: BundleDirectory, storyboards: Table, xibs: Table) returns (content: seq<string>)
    ensures content == RcsContent(version, namespace, images, colors, bundle, storyboards, xibs)
  {
    content := Preamble(version, namespace);
    content := AddClass(content, "Image", images);
    content := AddClass(content, "Color", colors);
    content := AddClass(content, "Storyboard", storyboards);
    content := AddClass(content, "Xibs", xibs);
    content := AddClassForBundleDirectory(content, bundle, 8);
    content := content + ["    }", "}"];
  }

  /* ---------------------------------------------------------------- */
  /* Do.                                                               */

  /**
   * `Do` without the project loading and the file writing: images, colors,
   * storyboards, xibs and the bundle tree in that order, the first failure
   * ending it, then the content for namespace `<root>.Resources`.
   */
  function Do(items: seq<ProjectItem>, rootNamespace: string, version: string, p: Platform): Result<seq<string>>
  {
    match ImagesTable(items, p)
    case Fail(e) => Fail(e)
    case Ok(images) =>
      match ColorsTable(items, p)
      case Fail(e) => Fail(e)
      case Ok(colors) =>
        match StoryboardsTable(items, p)
        case Fail(e) => Fail(e)
        case Ok(storyboards) =>
          match XibsTable(items, p)
          case Fail(e) => Fail(e)
          case Ok(xibs) =>
            match BundleTree(items, p)
            case Fail(e) => Fail(e)
            case Ok(root) => Ok(RcsContent(version, rootNamespace + ".Resources", images, colors, root, storyboards, xibs))
  }

  /** `Do` succeeds exactly when every stage does, and otherwise reports the first stage's error. */
  lemma DoOutcome(items: seq<ProjectItem>, rootNamespace: string, version: string, p: Platform)
    ensures var r := Do(items, rootNamespace, version, p);
      && (r.Ok? <==> ImagesTable(items, p).Ok? && ColorsTable(items, p).Ok? && StoryboardsTable(items, p).Ok?
                     && XibsTable(items, p).Ok? && BundleTree(items, p).Ok?)
      && (ImagesTable(items, p).Fail? ==> r == Fail(ImagesTable(items, p).error))
      && (ImagesTable(items, p).Ok? && ColorsTable(items, p).Fail? ==> r == Fail(ColorsTable(items, p).error))
      && (ImagesTable(items, p).Ok? && ColorsTable(items, p).Ok? && StoryboardsTable(items, p).Fail?
          ==> r == Fail(StoryboardsTable(items, p).error))
      && (ImagesTable(items, p).Ok? && ColorsTable(items, p).Ok? && StoryboardsTable(items, p).Ok? && XibsTable(items, p).Fail?
          ==> r == Fail(XibsTable(items, p).error))
      && (ImagesTable(items, p).Ok? && ColorsTable(items, p).Ok? && StoryboardsTable(items, p).Ok? && XibsTable(items, p).Ok?
          && BundleTree(items, p).Fail?
          ==> r == Fail(BundleTree(items, p).error))
  {
  }

  /** A successful `Do` is the content of its five stages' results. */
  lemma DoValue(items: seq<ProjectItem>, rootNamespace: string, version: string, p: Platform)
    requires Do(items, rootNamespace, version, p).Ok?
    ensures ImagesTable(items, p).Ok? && ColorsTable(items, p).Ok? && StoryboardsTable(items, p).Ok?
    ensures XibsTable(items, p).Ok? && BundleTree(items, p).Ok?
    ensures Do(items, rootNamespace, version, p).value
         == RcsContent(version, rootNamespace + ".Resources", ImagesTable(items, p).value, ColorsTable(items, p).value,
                       BundleTree(items, p).value, StoryboardsTable(items, p).value, XibsTable(items, p).value)
  {
  }

  /** The file opens with the banner and the namespace `<root>.Resources`, closes the namespace last, and its braces balance. */
  lemma DoShape(items: seq<ProjectItem>, rootNamespace: string, version: string, p: Platform)
    requires Do(items, rootNamespace, version, p).Ok?
    ensures var lines := Do(items, rootNamespace, version, p).value;
      && |lines| >= 3
      && lines[0] == Banner(version)
      && lines[2] == "namespace " + rootNamespace + ".Resources"
      && lines[|lines| - 1] == "}"
      && Braces(lines, '{') == Braces(lines, '}')
  {
    DoValue(items, rootNamespace, version, p);
    var images, colors, storyboards, xibs := ImagesTable(items, p).value, ColorsTable(items, p).value, StoryboardsTable(items, p).value, XibsTable(items, p).value;
    RcsContentBalanced(version, rootNamespace + ".Resources", images, colors, BundleTree(items, p).value, storyboards, xibs);
  }

  /** Every entry of the four tables is a constant line of the content, and every resource of the root bundle class one of its lines. */
  lemma ContentHasEntries(version: string, namespace: string, images: Table, colors: Table,
                          bundle: BundleDirectory, storyboards: Table, xibs: Table)
    ensures var lines := RcsContent(version, namespace, images, colors, bundle, storyboards, xibs);
      && (forall e :: e in images ==> ConstLine(e.0, e.1) in lines)
      && (forall e :: e in colors ==> ConstLine(e.0, e.1) in lines)
      && (forall e :: e in storyboards ==> ConstLine(e.0, e.1) in lines)
      && (forall e :: e in xibs ==> ConstLine(e.0, e.1) in lines)
      && (forall e :: e in bundle.resources ==> ResourceLine(8)(e.0, e.1) in lines)
      && Spaces(8) + "public static class " + ClassName(bundle.name) in lines
  {
    ClassHasEntries("Image", images);
    ClassHasEntries("Color", colors);
    ClassHasEntries("Storyboard", storyboards);
    ClassHasEntries("Xibs", xibs);
    var body := EntryLines(bundle.resources, ResourceLine(8));
    forall e | e in bundle.resources ensures ResourceLine(8)(e.0, e.1) in DirectoryLines(bundle, 8) {
      var k :| 0 <= k < |bundle.resources| && bundle.resources[k] == e;
      assert body[k] == ResourceLine(8)(e.0, e.1);
    }
    assert DirectoryLines(bundle, 8)[0] == Spaces(8) + "public static class " + ClassName(bundle.name);
  }

  lemma ClassHasEntries(name: string, consts: Table)
    ensures forall e :: e in consts ==> ConstLine(e.0, e.1) in ClassLines(name, consts)
  {
    var body := EntryLines(consts, ConstLine);
    forall e | e in consts ensures ConstLine(e.0, e.1) in ClassLines(name, consts) {
      var k :| 0 <= k < |consts| && consts[k] == e;
      assert body[k] == ConstLine(e.0, e.1);
    }
  }

  /** Every image set and color set of the project is a constant of the generated file. */
  lemma DoRendersAssets(items: seq<ProjectItem>, rootNamespace: string, version: string, p: Platform)
    requires Do(items, rootNamespace, version, p).Ok?
    ensures forall i, d :: 0 <= i < |items| && SetDirectory(items[i], ImageSetMarker, p) == [d]
              ==> ConstLine(Entry(d, StemOf(p)).0, Entry(d, StemOf(p)).1) in Do(items, rootNamespace, version, p).value
    ensures forall i, d :: 0 <= i < |items| && SetDirectory(items[i], ColorSetMarker, p) == [d]
              ==> ConstLine(Entry(d, StemOf(p)).0, Entry(d, StemOf(p)).1) in Do(items, rootNamespace, version, p).value
  {
    DoValue(items, rootNamespace, version, p);
    var images, colors, storyboards, xibs := ImagesTable(items, p).value, ColorsTable(items, p).value, StoryboardsTable(items, p).value, XibsTable(items, p).value;
    ContentHasEntries(version, rootNamespace + ".Resources", images, colors, BundleTree(items, p).value, storyboards, xibs);
    AssetTableContents(items, ImageSetMarker, AssetsError, p);
    AssetTableContents(items, ColorSetMarker, ColorsError, p);
  }

  /** Every storyboard and xib of the project is a constant of the generated file. */
  lemma DoRendersInterfaces(items: seq<ProjectItem>, rootNamespace: string, version: string, p: Platform)
    requires Do(items, rootNamespace, version, p).Ok?
    ensures forall i, n :: 0 <= i < |items| && InterfaceName(items[i], StoryboardExtension, p) == [n]
              ==> ConstLine(LegacyConstName(n), n) in Do(items, rootNamespace, version, p).value
    ensures forall i, n :: 0 <= i < |items| && InterfaceName(items[i], XibExtension, p) == [n]
              ==> ConstLine(LegacyConstName(n), n) in Do(items, rootNamespace, version, p).value
  {
    DoValue(items, rootNamespace, version, p);
    var images, colors, storyboards, xibs := ImagesTable(items, p).value, ColorsTable(items, p).value, StoryboardsTable(items, p).value, XibsTable(items, p).value;
    ContentHasEntries(version, rootNamespace + ".Resources", images, colors, BundleTree(items, p).value, storyboards, xibs);
    InterfaceTableContents(items, StoryboardExtension, StoryboardsError, p);
    InterfaceTableContents(items, XibExtension, XibsError, p);
  }

  /**
   * The bundle class is always declared as `Resources`, never renamed to
   * `Bundle`, and each of its resources is a verbatim constant of it.
   */
  lemma DoRendersBundle(items: seq<ProjectItem>, rootNamespace: string, version: string, p: Platform)
    requires Do(items, rootNamespace, version, p).Ok?
    ensures Spaces(8) + "public static class " + ResourcesDirectoryName in Do(items, rootNamespace, version, p).value
    ensures forall e :: e in BundleTree(items, p).value.resources ==> ResourceLine(8)(e.0, e.1) in Do(items, rootNamespace, version, p).value
  {
    DoValue(items, rootNamespace, version, p);
    var images, colors, storyboards, xibs := ImagesTable(items, p).value, ColorsTable(items, p).value, StoryboardsTable(items, p).value, XibsTable(items, p).value;
    var root := BundleTree(items, p).value;
    ContentHasEntries(version, rootNamespace + ".Resources", images, colors, root, storyboards, xibs);
    BundleTreeConverted(items, p);
    assert root.name == ResourcesDirectoryName;
    RootClassName();
  }

  /** The class of the root directory keeps its name. */
  lemma RootClassName()
    ensures ClassName(ResourcesDirectoryName) == ResourcesDirectoryName
  {
    assert ResourcesDirectoryName[1] == 'e' && RootBundleDirectoryName[1] == '.';
  }

  /** A name without `.`, as every name of a built tree is, is printed as it is. */
  lemma CleanNamePrinted(name: string)
    requires '.' !in name
    ensures ClassName(name) == name
  {
    assert RootBundleDirectoryName[1] == '.';
  }

  /* ---------------------------------------------------------------- */
  /* Braces.                                                           */

  /** A line holding only indentation and the brace `c`. */
  predicate BraceLine(l: string, c: char)
  {
    |l| >= 1 && l[|l| - 1] == c && forall j :: 0 <= j < |l| - 1 ==> l[j] == ' '
  }

  /** How many lines are brace lines of `c`. */
  function Braces(lines: seq<string>, c: char): nat
  {
    if lines == [] then 0 else (if BraceLine(lines[0], c) then 1 else 0) + Braces(lines[1..], c)
  }

  lemma {:induction false} BracesAppend(a: seq<string>, b: seq<string>, c: char)
    ensures Braces(a + b, c) == Braces(a, c) + Braces(b, c)
    decreases |a|
  {
    if a == [] {
      assert a + b == b;
    } else {
      assert (a + b)[1..] == a[1..] + b;
      BracesAppend(a[1..], b, c);
    }
  }

  /** A line with text after its indentation is no brace line. */
  lemma TextIsNoBrace(l: string, n: nat, c: char)
    requires n + 1 < |l| && l[n] != ' '
    ensures !BraceLine(l, c)
  {
  }

  lemma {:induction false} EntryLinesHaveNoBraces(t: Table, line: (string, string) -> string, c: char)
    requires forall i :: 0 <= i < |t| ==> !BraceLine(line(t[i].0, t[i].1), c)
    ensures Braces(EntryLines(t, line), c) == 0
    decreases |t|
  {
    if t != [] {
      assert EntryLines(t, line)[1..] == EntryLines(t[1..], line);
      assert forall i :: 1 <= i < |t| ==> t[1..][i - 1] == t[i];
      EntryLinesHaveNoBraces(t[1..], line, c);
    }
  }

  lemma ConstLinesHaveNoBraces(t: Table, c: char)
    ensures Braces(EntryLines(t, ConstLine), c) == 0
  {
    forall i | 0 <= i < |t| ensures !BraceLine(ConstLine(t[i].0, t[i].1), c) {
      TextIsNoBrace(ConstLine(t[i].0, t[i].1), 12, c);
    }
    EntryLinesHaveNoBraces(t, ConstLine, c);
  }

  lemma ResourceLinesHaveNoBraces(t: Table, spaces: nat, c: char)
    ensures Braces(EntryLines(t, ResourceLine(spaces)), c) == 0
  {
    forall i | 0 <= i < |t| ensures !BraceLine(ResourceLine(spaces)(t[i].0, t[i].1), c) {
      var l := ResourceLine(spaces)(t[i].0, t[i].1);
      assert l[spaces + 4] == 'p';
      TextIsNoBrace(l, spaces + 4, c);
    }
    EntryLinesHaveNoBraces(t, ResourceLine(spaces), c);
  }

  /** The number of classes a bundle directory renders: itself and everything below it. */
  function Classes(d: BundleDirectory): nat
    decreases d, 1
  {
    1 + ClassesOfAll(d.subdirectories)
  }

  function ClassesOfAll(ds: seq<BundleDirectory>): nat
    decreases ds, 0
  {
    if ds == [] then 0 else Classes(ds[0]) + ClassesOfAll(ds[1..])
  }

  /** Every class opens one brace and closes one, and nothing else is a brace line. */
  lemma {:induction false} DirectoryBalanced(d: BundleDirectory, spaces: nat)
    ensures Braces(DirectoryLines(d, spaces), '{') == Classes(d)
    ensures Braces(DirectoryLines(d, spaces), '}') == Classes(d)
    decreases d, 1
  {
    var head := ClassHeader(d.name, spaces);
    var body := EntryLines(d.resources, ResourceLine(spaces));
    var subs := AllDirectoryLines(d.subdirectories, spaces + 4);
    var close := [Spaces(spaces) + "}"];
    AllDirectoriesBalanced(d.subdirectories, spaces + 4);
    ResourceLinesHaveNoBraces(d.resources, spaces, '{');
    ResourceLinesHaveNoBraces(d.resources, spaces, '}');
    HeaderBraces(d.name, spaces);
    ClosingBraces(spaces);
    BracesAppend(head, body, '{');
    BracesAppend(head, body, '}');
    BracesAppend(head + body, subs, '{');
    BracesAppend(head + body, subs, '}');
    BracesAppend(head + body + subs, close, '{');
    BracesAppend(head + body + subs, close, '}');
  }

  lemma {:induction false} AllDirectoriesBalanced(ds: seq<BundleDirectory>, spaces: nat)
    ensures Braces(AllDirectoryLines(ds, spaces), '{') == ClassesOfAll(ds)
    ensures Braces(AllDirectoryLines(ds, spaces), '}') == ClassesOfAll(ds)
    decreases ds, 0
  {
    if ds != [] {
      DirectoryBalanced(ds[0], spaces);
      AllDirectoriesBalanced(ds[1..], spaces);
      BracesAppend(DirectoryLines(ds[0], spaces), AllDirectoryLines(ds[1..], spaces), '{');
      BracesAppend(DirectoryLines(ds[0], spaces), AllDirectoryLines(ds[1..], spaces), '}');
    }
  }

  lemma BracesOne(l: string, c: char)
    ensures Braces([l], c) == if BraceLine(l, c) then 1 else 0
  {
    assert [l][1..] == [];
  }

  /** A declaration line followed by an opening brace line at the same indentation. */
  lemma OpeningBraces(declaration: string, spaces: nat)
    requires spaces + 1 < |declaration| && declaration[spaces] != ' '
    ensures Braces([declaration, Spaces(spaces) + "{"], '{') == 1
    ensures Braces([declaration, Spaces(spaces) + "{"], '}') == 0
  {
    var open := Spaces(spaces) + "{";
    assert [declaration, open] == [declaration] + [open];
    TextIsNoBrace(declaration, spaces, '{');
    TextIsNoBrace(declaration, spaces, '}');
    BracesOne(declaration, '{');
    BracesOne(declaration, '}');
    BracesOne(open, '{');
    BracesOne(open, '}');
    BracesAppend([declaration], [open], '{');
    BracesAppend([declaration], [open], '}');
  }

  /** A class header: one opening brace line after the declaration. */
  lemma HeaderBraces(name: string, spaces: nat)
    ensures Braces(ClassHeader(name, spaces), '{') == 1
    ensures Braces(ClassHeader(name, spaces), '}') == 0
  {
    var h := ClassHeader(name, spaces);
    assert h[0][spaces] == 'p';
    OpeningBraces(h[0], spaces);
  }

  lemma ClosingBraces(spaces: nat)
    ensures Braces([Spaces(spaces) + "}"], '{') == 0
    ensures Braces([Spaces(spaces) + "}"], '}') == 1
  {
    BracesOne(Spaces(spaces) + "}", '{');
    BracesOne(Spaces(spaces) + "}", '}');
  }

  /** `AddClass` opens one brace and closes one. */
  lemma ClassBalanced(name: string, consts: Table)
    ensures Braces(ClassLines(name, consts), '{') == 1
    ensures Braces(ClassLines(name, consts), '}') == 1
  {
    var head := ["        public static class " + name, "        {"];
    var body := EntryLines(consts, ConstLine);
    var close := ["        }"];
    assert Spaces(8) == "        ";
    assert head[0][8] == 'p';
    OpeningBraces(head[0], 8);
    ClosingBraces(8);
    ConstLinesHaveNoBraces(consts, '{');
    ConstLinesHaveNoBraces(consts, '}');
    BracesAppend(head, body, '{');
    BracesAppend(head, body, '}');
    BracesAppend(head + body, close, '{');
    BracesAppend(head + body, close, '}');
  }

  lemma PairBraces(a: string, b: string, c: char)
    ensures Braces([a, b], c) == (if BraceLine(a, c) then 1 else 0) + (if BraceLine(b, c) then 1 else 0)
  {
    assert [a, b] == [a] + [b];
    BracesOne(a, c);
    BracesOne(b, c);
    BracesAppend([a], [b], c);
  }

  lemma PreambleBraces(version: string, namespace: string)
    ensures Braces(Preamble(version, namespace), '{') == 2
    ensures Braces(Preamble(version, namespace), '}') == 0
  {
    var pre := Preamble(version, namespace);
    var first := [pre[0], pre[1]];
    var second := [pre[2], pre[3]];
    var third := [pre[4], pre[5]];
    assert pre == first + second + third;
    assert pre[0][0] == '/' && pre[2][0] == 'n' && pre[4][4] == 'p';
    assert BraceLine(pre[5], '{') by {
      assert forall j :: 0 <= j < 4 ==> pre[5][j] == ' ';
    }
    assert BraceLine(pre[3], '{') && !BraceLine(pre[3], '}') && !BraceLine(pre[5], '}');
    forall c | c == '{' || c == '}'
      ensures Braces(pre, c) == Braces(first, c) + Braces(second, c) + Braces(third, c)
      ensures !BraceLine(pre[0], c) && !BraceLine(pre[1], c) && !BraceLine(pre[2], c) && !BraceLine(pre[4], c)
    {
      TextIsNoBrace(pre[0], 0, c);
      TextIsNoBrace(pre[2], 0, c);
      TextIsNoBrace(pre[4], 4, c);
      BracesAppend(first, second, c);
      BracesAppend(first + second, third, c);
    }
    PairBraces(pre[0], pre[1], '{');
    PairBraces(pre[2], pre[3], '{');
    PairBraces(pre[4], pre[5], '{');
    PairBraces(pre[0], pre[1], '}');
    PairBraces(pre[2], pre[3], '}');
    PairBraces(pre[4], pre[5], '}');
  }

  /**
   * The generated file is balanced: class `R`, its namespace, the four flat
   * classes and every bundle class each open one brace and close one.
   */
  lemma RcsContentBalanced(version: string, namespace: string, images: Table, colors: Table,
                           bundle: BundleDirectory, storyboards: Table, xibs: Table)
    ensures Braces(RcsContent(version, namespace, images, colors, bundle, storyboards, xibs), '{') == 6 + Classes(bundle)
    ensures Braces(RcsContent(version, namespace, images, colors, bundle, storyboards, xibs), '}') == 6 + Classes(bundle)
  {
    var a := Preamble(version, namespace);
    var b := ClassLines("Image", images);
    var c := ClassLines("Color", colors);
    var d := ClassLines("Storyboard", storyboards);
    var e := ClassLines("Xibs", xibs);
    var f := DirectoryLines(bundle, 8);
    var g := ["    }", "}"];
    PreambleBraces(version, namespace);
    ClassBalanced("Image", images);
    ClassBalanced("Color", colors);
    ClassBalanced("Storyboard", storyboards);
    ClassBalanced("Xibs", xibs);
    DirectoryBalanced(bundle, 8);
    assert BraceLine(g[0], '}') by {
      assert forall j :: 0 <= j < 4 ==> g[0][j] == ' ';
    }
    PairBraces(g[0], g[1], '{');
    PairBraces(g[0], g[1], '}');
    forall ch | ch == '{' || ch == '}'
      ensures Braces(a + b + c + d + e + f + g, ch) == Braces(a, ch) + Braces(b, ch) + Braces(c, ch) + Braces(d, ch) + Braces(e, ch) + Braces(f, ch) + Braces(g, ch)
    {
      BracesAppend(a, b, ch);
      BracesAppend(a + b, c, ch);
      BracesAppend(a + b + c, d, ch);
      BracesAppend(a + b + c + d, e, ch);
      BracesAppend(a + b + c + d + e, f, ch);
      BracesAppend(a + b + c + d + e + f, g, ch);
    }
  }

  /* ---------------------------------------------------------------- */
  /* Indentation.                                                      */

  lemma DeeperIsIndented(l: string, shallow: nat, deep: nat)
    requires shallow <= deep && StartsWith(l, Spaces(deep))
    ensures StartsWith(l, Spaces(shallow))
  {
    SpacesSplit(shallow, deep - shallow);
    assert l[..shallow] == l[..deep][..shallow];
  }

  /** Every line of a bundle class, nested classes included, starts with the class's indentation. */
  lemma {:induction false} DirectoryIndented(d: BundleDirectory, spaces: nat)
    ensures forall i :: 0 <= i < |DirectoryLines(d, spaces)| ==> StartsWith(DirectoryLines(d, spaces)[i], Spaces(spaces))
    decreases d, 1
  {
    var lines := DirectoryLines(d, spaces);
    var head := ClassHeader(d.name, spaces);
    var body := EntryLines(d.resources, ResourceLine(spaces));
    var subs := AllDirectoryLines(d.subdirectories, spaces + 4);
    AllDirectoriesIndented(d.subdirectories, spaces + 4);
    forall i | 0 <= i < |lines| ensures StartsWith(lines[i], Spaces(spaces)) {
      if i < 2 {
        assert lines[i] == head[i];
      } else if i < 2 + |body| {
        assert lines[i] == body[i - 2];
        DeeperIsIndented(body[i - 2], spaces, spaces + 4);
      } else if i < 2 + |body| + |subs| {
        assert lines[i] == subs[i - 2 - |body|];
        DeeperIsIndented(subs[i - 2 - |body|], spaces, spaces + 4);
      } else {
        assert lines[i] == Spaces(spaces) + "}";
      }
    }
  }

  lemma {:induction false} AllDirectoriesIndented(ds: seq<BundleDirectory>, spaces: nat)
    ensures forall i :: 0 <= i < |AllDirectoryLines(ds, spaces)| ==> StartsWith(AllDirectoryLines(ds, spaces)[i], Spaces(spaces))
    decreases ds, 0
  {
    if ds != [] {
      var first := DirectoryLines(ds[0], spaces);
      var rest := AllDirectoryLines(ds[1..], spaces);
      DirectoryIndented(ds[0], spaces);
      AllDirectoriesIndented(ds[1..], spaces);
      assert AllDirectoryLines(ds, spaces) == first + rest;
      forall i | 0 <= i < |first + rest| ensures StartsWith((first + rest)[i], Spaces(spaces)) {
        if i >= |first| {
          assert (first + rest)[i] == rest[i - |first|];
        }
      }
    }
  }
}
