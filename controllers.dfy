/**
 * `ControllersProcessor`: storyboards contribute `(storyboard identifier,
 * custom class, storyboard)` triples, C# files contribute the classes that
 * carry a `[Register("...")]` attribute, and the rendered `ViewController`
 * class pairs each triple with the C# class registered under its custom
 * class name.
 *
 * The storyboard's XML and the C# file's class declarations are the
 * already-loaded inputs of `Process`: reading and parsing the files is not
 * part of this model.
 */
module Controllers {
  import opened Failures
  import opened Strings
  import opened DotNetPath
  import opened Tables
  import opened ProjectItems
  import opened StoryboardXml
  import opened Sequences

  const InterfaceDefinitionItemType: string := "InterfaceDefinition"
  const CompileItemType: string := "Compile"
  const StoryboardFileExtension: string := ".storyboard"

  /** The element names taken for view controllers (`pageViewController` is listed twice). */
  const SupportedViewControllersTypes: seq<string> :=
    ["viewController", "tableViewController", "glkViewController", "avPlayerViewController",
     "pageViewController", "pageViewController", "splitViewController", "tabBarController",
     "collectionViewController"]

  const StoryboardIdentifierAttribute: string := "storyboardIdentifier"
  const CustomClassAttribute: string := "customClass"
  const RegisterAttributeName: string := "Register"

  /* ---------------------------------------------------------------- */
  /* Storyboards.                                                      */

  /**
   * Below `scenes`: the descendants of every `scene`, of those the `objects`
   * elements, and below each of those the elements of a listed type.
   */
  function ScanScenes(scenes: Element): (r: seq<Element>)
    ensures forall v :: v in r ==> v.name in SupportedViewControllersTypes
  {
    var scene := WhereNamed(Descendants(scenes), "scene");
    var objects := WhereNamed(DescendantsOfEach(scene), "objects");
    WhereNameIn(DescendantsOfEach(objects), SupportedViewControllersTypes)
  }

  /** `v` sits below an `objects` element that sits below a `scene` element under `scenes`. */
  ghost predicate InSceneObjects(scenes: Element, v: Element)
  {
    exists s, o :: s in Descendants(scenes) && s.name == "scene"
                   && o in Descendants(s) && o.name == "objects" && v in Descendants(o)
  }

  /** Whatever the scan finds is a listed element inside the objects of a scene. */
  lemma ScanScenesSound(scenes: Element, v: Element)
    requires v in ScanScenes(scenes)
    ensures v.name in SupportedViewControllersTypes && InSceneObjects(scenes, v)
  {
    var scene := WhereNamed(Descendants(scenes), "scene");
    var objects := WhereNamed(DescendantsOfEach(scene), "objects");
    DescendantsOfEachSound(objects, v);
    var i :| 0 <= i < |objects| && v in Descendants(objects[i]);
    var o := objects[i];
    DescendantsOfEachSound(scene, o);
    var k :| 0 <= k < |scene| && o in Descendants(scene[k]);
    var s := scene[k];
    assert s in Descendants(scenes) && s.name == "scene";
  }

  /** Every listed element inside the objects of a scene is found. */
  lemma ScanScenesComplete(scenes: Element, v: Element)
    requires v.name in SupportedViewControllersTypes && InSceneObjects(scenes, v)
    ensures v in ScanScenes(scenes)
  {
    var scene := WhereNamed(Descendants(scenes), "scene");
    var objects := WhereNamed(DescendantsOfEach(scene), "objects");
    var s, o :| s in Descendants(scenes) && s.name == "scene"
                && o in Descendants(s) && o.name == "objects" && v in Descendants(o);
    assert s in scene;
    var k :| 0 <= k < |scene| && scene[k] == s;
    DescendantsOfEachComplete(scene, k, o);
    assert o in objects;
    var i :| 0 <= i < |objects| && objects[i] == o;
    DescendantsOfEachComplete(objects, i, v);
  }

  /** Every element found lies under `scenes`. */
  lemma ScannedLieUnderScenes(scenes: Element, v: Element)
    requires v in ScanScenes(scenes)
    ensures v in Descendants(scenes)
  {
    ScanScenesSound(scenes, v);
    var s, o :| s in Descendants(scenes) && s.name == "scene"
                && o in Descendants(s) && o.name == "objects" && v in Descendants(o);
    DescendantsClosed(s, o, v);
    DescendantsClosed(scenes, s, v);
  }

  /**
   * The view-controller elements of a loaded storyboard: no `document`
   * element at all is `First`'s exception; a document without `scenes`
   * has none.
   */
  function ViewControllerElements(root: Element): (r: Result<seq<Element>>)
    ensures r.Fail? ==> r.error == NoDocumentElement
  {
    match FirstNamed(DocumentDescendants(root), "document")
    case None => Fail(NoDocumentElement)
    case Some(document) =>
      match FirstNamed(Descendants(document), "scenes")
      case None => Ok([])
      case Some(scenes) => Ok(ScanScenes(scenes))
  }

  /**
   * The scan fails exactly when no element is named `document`, and what it
   * finds are elements of a listed type under the first `document`.
   */
  lemma ViewControllerElementsMeaning(root: Element)
    ensures ViewControllerElements(root).Fail? <==> forall x :: x in DocumentDescendants(root) ==> x.name != "document"
    ensures ViewControllerElements(root).Ok? ==> forall v :: v in ViewControllerElements(root).value ==> v.name in SupportedViewControllersTypes
  {
  }

  datatype Binding = Binding(storyboardIdentifier: string, customClass: string, storyboard: string)

  /** The triple one element contributes, when it has both attributes. */
  function BindingOf(v: Element, storyboard: string): (r: seq<Binding>)
    ensures |r| <= 1
  {
    match Attribute(v, StoryboardIdentifierAttribute)
    case None => []
    case Some(identifier) =>
      match Attribute(v, CustomClassAttribute)
      case None => []
      case Some(customClass) => [Binding(identifier, customClass, storyboard)]
  }

  function Contribution(storyboard: string): Element -> seq<Binding>
  {
    (v: Element) => BindingOf(v, storyboard)
  }

  /**
   * The triples of a storyboard's view controllers, in document order;
   * an element lacking either attribute is skipped.
   */
  function Bindings(vcs: seq<Element>, storyboard: string): seq<Binding>
  {
    FlatMap(vcs, Contribution(storyboard))
  }

  /** An element contributes a triple exactly when it has both attributes, and the triple holds their values. */
  lemma BindingOfAttributes(v: Element, storyboard: string)
    ensures BindingOf(v, storyboard) != [] <==> Attribute(v, StoryboardIdentifierAttribute).Some? && Attribute(v, CustomClassAttribute).Some?
    ensures BindingOf(v, storyboard) != [] ==>
              BindingOf(v, storyboard)[0] == Binding(Attribute(v, StoryboardIdentifierAttribute).value, Attribute(v, CustomClassAttribute).value, storyboard)
  {
  }

  lemma BindingOfIs(v: Element, storyboard: string, identifier: Option<string>, customClass: Option<string>)
    requires identifier == Attribute(v, StoryboardIdentifierAttribute) && customClass == Attribute(v, CustomClassAttribute)
    ensures BindingOf(v, storyboard) == if identifier.Some? && customClass.Some? then [Binding(identifier.value, customClass.value, storyboard)] else []
  {
  }

  /** The file name's extension is exactly `.storyboard`. */
  predicate IsStoryboardFile(path: string, p: Platform)
  {
    GetExtension(GetFileName(path, p), p) == StoryboardFileExtension
  }

  /**
   * What a storyboard item does to the triples: a file whose extension is
   * not exactly `.storyboard` is declined; a storyboard without a `document`
   * element is `First`'s exception; otherwise the triples of its view
   * controllers are appended, named after the file without extension.
   */
  function InterfaceDefinitionOutcome(list: seq<Binding>, path: string, document: Element, p: Platform): (r: (Result<bool>, seq<Binding>))
    ensures !IsStoryboardFile(path, p) ==> r == (Ok(false), list)
    ensures r.0.Fail? ==> r == (Fail(NoDocumentElement), list)
    ensures r.0 == Ok(true) ==> ViewControllerElements(document).Ok?
                                && r.1 == list + Bindings(ViewControllerElements(document).value, StoryboardName(path, p))
  {
    if !IsStoryboardFile(path, p) then (Ok(false), list)
    else match ViewControllerElements(document)
      case Fail(e) => (Fail(e), list)
      case Ok(vcs) => (Ok(true), list + Bindings(vcs, StoryboardName(path, p)))
  }

  /** The `foreach` over the view controllers: skip an element lacking either attribute, append the rest. */
  method AppendBindings(acc: seq<Binding>, vcs: seq<Element>, storyboard: string) returns (list: seq<Binding>)
    ensures list == acc + Bindings(vcs, storyboard)
  {
    list := acc;
    var i := 0;
    while i < |vcs|
      invariant 0 <= i <= |vcs|
      invariant list == acc + Bindings(vcs[..i], storyboard)
    {
      var v := vcs[i];
      FlatMapStep(vcs, i, Contribution(storyboard));
      var identifier := Attribute(v, StoryboardIdentifierAttribute);
      var customClass := Attribute(v, CustomClassAttribute);
      BindingOfIs(v, storyboard, identifier, customClass);
      if identifier.Some? && customClass.Some? {
        list := list + [Binding(identifier.value, customClass.value, storyboard)];
      }
      i := i + 1;
    }
    assert vcs[..i] == vcs;
  }

  /** A triple is produced exactly when some element carries both of its attributes, and it names the storyboard. */
  lemma BindingsExactly(vcs: seq<Element>, storyboard: string, b: Binding)
    ensures b in Bindings(vcs, storyboard) <==> exists i :: 0 <= i < |vcs| && BindingOf(vcs[i], storyboard) == [b]
    ensures b in Bindings(vcs, storyboard) ==> b.storyboard == storyboard
  {
    var f := Contribution(storyboard);
    if b in Bindings(vcs, storyboard) {
      FlatMapSound(vcs, f, b);
      var i :| 0 <= i < |vcs| && b in f(vcs[i]);
      assert BindingOf(vcs[i], storyboard) == [b];
      BindingOfAttributes(vcs[i], storyboard);
    }
    if exists i :: 0 <= i < |vcs| && BindingOf(vcs[i], storyboard) == [b] {
      var i :| 0 <= i < |vcs| && BindingOf(vcs[i], storyboard) == [b];
      assert b in f(vcs[i]);
      FlatMapComplete(vcs, f, i, b);
    }
  }

  /** The storyboard name of an item: its file name without extension. */
  function StoryboardName(path: string, p: Platform): (r: string)
    ensures forall j :: 0 <= j < |r| ==> !IsBreak(r[j], p)
  {
    GetFileNameWithoutExtension(GetFileName(path, p), p)
  }

  /** Taking the file name first changes nothing: the storyboard name is that of the whole path. */
  lemma StoryboardNameOfPath(path: string, p: Platform)
    ensures StoryboardName(path, p) == GetFileNameWithoutExtension(path, p)
  {
    FileNameOfPlainName(GetFileName(path, p), p);
  }

  /* ---------------------------------------------------------------- */
  /* Registered C# classes.                                            */

  datatype AttributeSyntax = AttributeSyntax(name: string, arguments: Option<seq<string>>)

  /**
   * A class declaration as the scan sees it: its identifier, the name of the
   * namespace it sits directly in (none when its parent is anything else),
   * and its attributes, all attribute lists read one after another.
   */
  datatype ClassDeclaration = ClassDeclaration(identifier: string, namespaceName: Option<string>, attributes: seq<AttributeSyntax>)

  predicate HasRegisterAttribute(attributes: seq<AttributeSyntax>)
  {
    exists i :: 0 <= i < |attributes| && attributes[i].name == RegisterAttributeName
  }

  /** A class the scan keeps, with the name of its namespace. */
  datatype RegisteredClass = RegisteredClass(identifier: string, namespaceName: string, attributes: seq<AttributeSyntax>)

  /** The classes the scan keeps, in order: a `[Register]` attribute, directly inside a namespace. */
  function RegisteredClasses(cs: seq<ClassDeclaration>): (r: seq<RegisteredClass>)
    ensures |r| <= |cs|
    ensures forall k :: k in r ==> HasRegisterAttribute(k.attributes)
    ensures forall c :: c in cs && HasRegisterAttribute(c.attributes) && c.namespaceName.Some?
                        ==> RegisteredClass(c.identifier, c.namespaceName.value, c.attributes) in r
  {
    if cs == [] then []
    else
      var c := cs[0];
      var head := if HasRegisterAttribute(c.attributes) && c.namespaceName.Some?
                  then [RegisteredClass(c.identifier, c.namespaceName.value, c.attributes)] else [];
      head + RegisteredClasses(cs[1..])
  }

  /**
   * What `ArgumentList.Arguments.First()` gives for one attribute: its first
   * argument, or the exception of an attribute written without one.
   */
  function FirstArgument(a: AttributeSyntax): Result<string>
  {
    if a.arguments.Some? && a.arguments.value != [] then Ok(a.arguments.value[0]) else Fail(NoRegisterArgument)
  }

  /**
   * `GetRegisterAttributeValue`: the first argument of the first `Register`
   * attribute, as written; no such attribute is the source's own exception.
   */
  function RegisterArgument(attributes: seq<AttributeSyntax>): (r: Result<string>)
    ensures r == Fail(Raised("Can't retreive [Register] attribute value")) <==> !HasRegisterAttribute(attributes)
    ensures forall i :: 0 <= i < |attributes| && attributes[i].name == RegisterAttributeName
                        && (forall j :: 0 <= j < i ==> attributes[j].name != RegisterAttributeName)
                        ==> r == FirstArgument(attributes[i])
    ensures r.Ok? ==> exists i :: 0 <= i < |attributes| && attributes[i].name == RegisterAttributeName
                                  && attributes[i].arguments.Some? && attributes[i].arguments.value != []
                                  && r.value == attributes[i].arguments.value[0]
  {
    if attributes == [] then Fail(Raised("Can't retreive [Register] attribute value"))
    else if attributes[0].name == RegisterAttributeName then FirstArgument(attributes[0])
    else
      var r := RegisterArgument(attributes[1..]);
      assert forall i :: 1 <= i < |attributes| ==> attributes[i] == attributes[1..][i - 1];
      r
  }

  /** The registry entry of a class: the registered name without quotes, to the namespace-qualified class name. */
  function RegistryEntry(c: RegisteredClass): (r: Result<(string, string)>)
    ensures r.Ok? <==> RegisterArgument(c.attributes).Ok?
    ensures r.Fail? ==> r.error == RegisterArgument(c.attributes).error
    ensures r.Ok? ==> r.value.0 == Trim(RegisterArgument(c.attributes).value, '"')
    ensures r.Ok? ==> r.value.1 == c.namespaceName + "." + c.identifier
    ensures r.Ok? ==> r.value.0 == [] || (r.value.0[0] != '"' && r.value.0[|r.value.0| - 1] != '"')
    ensures HasRegisterAttribute(c.attributes) ==> r != Fail(Raised("Can't retreive [Register] attribute value"))
  {
    match RegisterArgument(c.attributes)
    case Fail(e) => Fail(e)
    case Ok(argument) => Ok((Trim(argument, '"'), c.namespaceName + "." + c.identifier))
  }

  /**
   * `[Register("Name")]` as the first `Register` attribute registers the
   * class under `Name`, the text between the quotes.
   */
  lemma RegisteredUnderQuotedName(c: RegisteredClass, i: int, name: string)
    requires 0 <= i < |c.attributes| && c.attributes[i].name == RegisterAttributeName
    requires forall j :: 0 <= j < i ==> c.attributes[j].name != RegisterAttributeName
    requires c.attributes[i].arguments.Some? && |c.attributes[i].arguments.value| > 0
    requires c.attributes[i].arguments.value[0] == "\"" + name + "\""
    requires name == [] || (name[0] != '"' && name[|name| - 1] != '"')
    ensures RegistryEntry(c) == Ok((name, c.namespaceName + "." + c.identifier))
  {
    var argument := c.attributes[i].arguments.value[0];
    assert RegisterArgument(c.attributes) == FirstArgument(c.attributes[i]) == Ok(argument);
    assert argument == ['"'] + name + ['"'];
    TrimQuotes(name, '"');
    assert Trim(argument, '"') == name;
  }

  /** A class registered without failure is found again under its registered name. */
  lemma RegisteredClassIsFound(t: Table, cs: seq<RegisteredClass>, i: int)
    requires UniqueKeys(t) && 0 <= i < |cs|
    requires AddEach(t, cs, RegistryEntry).0.Ok?
    ensures RegistryEntry(cs[i]).Ok?
    ensures Lookup(AddEach(t, cs, RegistryEntry).1, RegistryEntry(cs[i]).value.0) == Ok(cs[i].namespaceName + "." + cs[i].identifier)
  {
    AddEachEntryAt(t, cs, i, RegistryEntry);
    LookupEntry(AddEach(t, cs, RegistryEntry).1, |t| + i);
  }

  /* ---------------------------------------------------------------- */
  /* Rendering.                                                        */

  datatype MappedController = MappedController(storyboardIdentifier: string, viewControllerClass: string, storyboard: string)

  /**
   * Each triple with the C# class registered under its custom class name;
   * the first custom class with no registration is the indexer's exception.
   */
  function Resolve(bs: seq<Binding>, t: Table): (r: Result<seq<MappedController>>)
    ensures r.Ok? ==> |r.value| == |bs|
  {
    if bs == [] then Ok([])
    else
      var n := |bs| - 1;
      match Resolve(bs[..n], t)
      case Fail(e) => Fail(e)
      case Ok(prev) =>
        match Lookup(t, bs[n].customClass)
        case Fail(e) => Fail(e)
        case Ok(cls) => Ok(prev + [MappedController(bs[n].storyboardIdentifier, cls, bs[n].storyboard)])
  }

  /** Resolution succeeds exactly when every custom class is registered. */
  lemma {:induction false} ResolveSucceedsIff(bs: seq<Binding>, t: Table)
    ensures Resolve(bs, t).Ok? <==> forall i :: 0 <= i < |bs| ==> HasKey(t, bs[i].customClass)
  {
    if bs != [] {
      var n := |bs| - 1;
      ResolveSucceedsIff(bs[..n], t);
      assert forall i :: 0 <= i < n ==> bs[..n][i] == bs[i];
    }
  }

  /** One more triple: resolved after the ones before it. */
  lemma ResolveStep(bs: seq<Binding>, i: int, t: Table)
    requires 0 <= i < |bs|
    ensures Resolve(bs[..i + 1], t) == match Resolve(bs[..i], t)
                                       case Fail(e) => Fail(e)
                                       case Ok(prev) => match Lookup(t, bs[i].customClass)
                                         case Fail(e) => Fail(e)
                                         case Ok(cls) => Ok(prev + [MappedController(bs[i].storyboardIdentifier, cls, bs[i].storyboard)])
  {
    assert bs[..i + 1][..i] == bs[..i];
  }

  /** Each triple keeps its identifier and storyboard and gets the class registered under its custom class. */
  lemma {:induction false} ResolvePointwise(bs: seq<Binding>, t: Table)
    requires Resolve(bs, t).Ok?
    ensures forall i :: 0 <= i < |bs| ==>
              HasKey(t, bs[i].customClass)
              && Resolve(bs, t).value[i] == MappedController(bs[i].storyboardIdentifier, Lookup(t, bs[i].customClass).value, bs[i].storyboard)
  {
    ResolveSucceedsIff(bs, t);
    if bs != [] {
      var n := |bs| - 1;
      ResolvePointwise(bs[..n], t);
      forall i | 0 <= i < n
        ensures HasKey(t, bs[i].customClass) && Resolve(bs, t).value[i] == MappedController(bs[i].storyboardIdentifier, Lookup(t, bs[i].customClass).value, bs[i].storyboard)
      {
        assert bs[..n][i] == bs[i];
      }
    }
  }

  /** The error is about the first custom class that has no registration. */
  lemma {:induction false} ResolveReportsFirstMissing(bs: seq<Binding>, t: Table)
    requires Resolve(bs, t).Fail?
    ensures exists i :: 0 <= i < |bs| && Resolve(bs, t).error == KeyNotFound(bs[i].customClass)
                        && !HasKey(t, bs[i].customClass) && forall j :: 0 <= j < i ==> HasKey(t, bs[j].customClass)
  {
    var n := |bs| - 1;
    assert forall i :: 0 <= i < n ==> bs[..n][i] == bs[i];
    ResolveSucceedsIff(bs[..n], t);
    if Resolve(bs[..n], t).Fail? {
      ResolveReportsFirstMissing(bs[..n], t);
      var i :| 0 <= i < n && Resolve(bs[..n], t).error == KeyNotFound(bs[..n][i].customClass)
               && !HasKey(t, bs[..n][i].customClass) && forall j :: 0 <= j < i ==> HasKey(t, bs[..n][j].customClass);
    } else {
      assert forall j :: 0 <= j < n ==> HasKey(t, bs[..n][j].customClass);
    }
  }

  /** Resolving two runs of triples one after the other is resolving them together. */
  lemma {:induction false} ResolveAppend(a: seq<Binding>, b: seq<Binding>, t: Table)
    ensures Resolve(a + b, t) == (match Resolve(a, t)
                                  case Fail(e) => Fail(e)
                                  case Ok(x) => match Resolve(b, t)
                                    case Fail(e) => Fail(e)
                                    case Ok(y) => Ok(x + y))
    decreases |b|
  {
    if b == [] {
      assert a + b == a;
      if Resolve(a, t).Ok? {
        assert Resolve(a, t).value + [] == Resolve(a, t).value;
      }
    } else {
      var n := |b| - 1;
      assert (a + b)[..|a| + n] == a + b[..n];
      ResolveAppend(a, b[..n], t);
      assert (a + b)[|a| + n] == b[n];
      match Resolve(a, t)
      case Fail(e) =>
      case Ok(x) =>
        match Resolve(b[..n], t)
        case Fail(e) =>
        case Ok(y) =>
          var c := Lookup(t, b[n].customClass);
          if c.Ok? {
            var m := MappedController(b[n].storyboardIdentifier, c.value, b[n].storyboard);
            assert x + y + [m] == x + (y + [m]);
          }
    }
  }

  function ControllerLine(m: MappedController): string
  {
    "public static " + m.viewControllerClass + " " + m.storyboardIdentifier + "(Foundation.NSBundle bundle = null) "
      + "=> (" + m.viewControllerClass + ") UIKit.UIStoryboard.FromName(\"" + m.storyboard
      + "\", bundle).InstantiateViewController(\"" + m.storyboardIdentifier + "\");"
  }

  /** The `ViewController` class: one accessor per controller, in order. */
  function RenderViewControllers(ms: seq<MappedController>): seq<string>
  {
    ["public static class ViewController", "{"] + ControllerLines(ms) + ["}"]
  }

  function ControllerLines(ms: seq<MappedController>): seq<string>
  {
    if ms == [] then [] else ControllerLines(ms[..|ms| - 1]) + [ControllerLine(ms[|ms| - 1])]
  }

  /** Between the class line with its brace and the closing brace: one accessor per controller, in order. */
  lemma {:induction false} RenderViewControllersShape(ms: seq<MappedController>)
    ensures var r := RenderViewControllers(ms);
            |r| == |ms| + 3 && r[0] == "public static class ViewController" && r[1] == "{" && r[|r| - 1] == "}"
            && forall i :: 0 <= i < |ms| ==> r[i + 2] == ControllerLine(ms[i])
  {
    ControllerLinesShape(ms);
  }

  lemma {:induction false} ControllerLinesShape(ms: seq<MappedController>)
    ensures |ControllerLines(ms)| == |ms|
    ensures forall i :: 0 <= i < |ms| ==> ControllerLines(ms)[i] == ControllerLine(ms[i])
  {
    if ms != [] {
      var n := |ms| - 1;
      ControllerLinesShape(ms[..n]);
      var prev := ControllerLines(ms[..n]);
      assert ControllerLines(ms) == prev + [ControllerLine(ms[n])];
      forall i | 0 <= i < |ms| ensures ControllerLines(ms)[i] == ControllerLine(ms[i]) {
        if i < n {
          assert ms[..n][i] == ms[i];
        }
      }
    }
  }

  /** The processor's output for its triples and registry. */
  function ViewControllerSource(bs: seq<Binding>, t: Table): (r: Result<seq<string>>)
    ensures r.Ok? <==> forall i :: 0 <= i < |bs| ==> HasKey(t, bs[i].customClass)
    ensures r.Ok? ==> |r.value| == |bs| + 3
  {
    ResolveSucceedsIff(bs, t);
    match Resolve(bs, t)
    case Fail(e) => Fail(e)
    case Ok(ms) => RenderViewControllersShape(ms); Ok(RenderViewControllers(ms))
  }

  /* ---------------------------------------------------------------- */

  class ControllersProcessor {
    const platform: Platform
    var viewControllers: seq<Binding>
    var registry: Table

    ghost predicate Valid()
      reads this
    {
      UniqueKeys(registry)
    }

    constructor (p: Platform)
      ensures Valid() && platform == p && viewControllers == [] && registry == []
    {
      platform := p;
      viewControllers := [];
      registry := [];
    }

    /**
     * `Process`: a storyboard adds its triples, a C# file its registered
     * classes; every other item type is declined. `document` is the
     * storyboard's XML and `classes` the C# file's class declarations.
     */
    method Process(item: ProjectItem, document: Element, classes: seq<ClassDeclaration>) returns (r: Result<bool>)
      requires Valid()
      modifies this
      ensures Valid()
      ensures item.itemType != InterfaceDefinitionItemType && item.itemType != CompileItemType
              ==> r == Ok(false) && unchanged(this)
      ensures item.itemType == InterfaceDefinitionItemType ==> registry == old(registry)
      ensures item.itemType == InterfaceDefinitionItemType
              ==> (r, viewControllers) == InterfaceDefinitionOutcome(old(viewControllers), item.evaluatedInclude, document, platform)
      ensures item.itemType == CompileItemType ==> viewControllers == old(viewControllers)
      ensures item.itemType == CompileItemType ==> (r, registry) == AddEach(old(registry), RegisteredClasses(classes), RegistryEntry)
    {
      if item.itemType == InterfaceDefinitionItemType {
        r := ProcessInterfaceDefinition(item, document);
      } else if item.itemType == CompileItemType {
        r := ProcessCompile(classes);
      } else {
        r := Ok(false);
      }
    }

    /** `ProcessInterfaceDefinitionItemType`; see `InterfaceDefinitionOutcome`. */
    method ProcessInterfaceDefinition(item: ProjectItem, document: Element) returns (r: Result<bool>)
      requires Valid()
      modifies this
      ensures Valid() && registry == old(registry)
      ensures (r, viewControllers) == InterfaceDefinitionOutcome(old(viewControllers), item.evaluatedInclude, document, platform)
    {
      if !IsStoryboardFile(item.evaluatedInclude, platform) {
        return Ok(false);
      }
      var elements := ViewControllerElements(document);
      if elements.Fail? {
        return Fail(elements.error);
      }
      viewControllers := AppendBindings(viewControllers, elements.value, StoryboardName(item.evaluatedInclude, platform));
      return Ok(true);
    }

    /**
     * `ProcessCompileDefinitionItemType`: every registered class into the
     * registry, in order; the first failure ends the scan and keeps what
     * was added before it.
     */
    method ProcessCompile(classes: seq<ClassDeclaration>) returns (r: Result<bool>)
      requires Valid()
      modifies this
      ensures Valid() && viewControllers == old(viewControllers)
      ensures (r, registry) == AddEach(old(registry), RegisteredClasses(classes), RegistryEntry)
    {
      var cs := RegisteredClasses(classes);
      var i := 0;
      while i < |cs|
        invariant 0 <= i <= |cs|
        invariant viewControllers == old(viewControllers)
        invariant AddEach(old(registry), cs[..i], RegistryEntry) == (Ok(true), registry)
        invariant UniqueKeys(registry)
      {
        AddEachStep(old(registry), cs, i, RegistryEntry);
        var entry := RegistryEntry(cs[i]);
        if entry.Fail? {
          AddEachStopsAtFailure(old(registry), cs, i + 1, RegistryEntry);
          return Fail(entry.error);
        }
        var added := Add(registry, entry.value.0, entry.value.1);
        if added.Fail? {
          AddEachStopsAtFailure(old(registry), cs, i + 1, RegistryEntry);
          return Fail(added.error);
        }
        registry := added.value;
        i := i + 1;
      }
      assert cs[..i] == cs;
      return Ok(true);
    }

    /** `GenerateSourceCode`: the indexer looks each custom class up as its line is written. */
    method GenerateSourceCode() returns (r: Result<seq<string>>)
      requires Valid()
      ensures r == ViewControllerSource(viewControllers, registry)
    {
      r := ResolveAndRender(viewControllers, registry);
    }
  }

  /** The loop of `GenerateSourceCode`: resolve each triple in turn and emit its accessor. */
  method ResolveAndRender(bs: seq<Binding>, registry: Table) returns (r: Result<seq<string>>)
    ensures r == ViewControllerSource(bs, registry)
  {
    var lines := ["public static class ViewController", "{"];
    ghost var mapped: seq<MappedController> := [];
    var i := 0;
    while i < |bs|
      invariant 0 <= i <= |bs|
      invariant Resolve(bs[..i], registry) == Ok(mapped)
      invariant lines == ["public static class ViewController", "{"] + ControllerLines(mapped)
    {
      ResolveStep(bs, i, registry);
      var b := bs[i];
      var cls := Lookup(registry, b.customClass);
      if cls.Fail? {
        ResolveStopsAtFailure(bs, i + 1, registry);
        return Fail(cls.error);
      }
      var m := MappedController(b.storyboardIdentifier, cls.value, b.storyboard);
      ControllerLinesAppend(mapped, m);
      mapped := mapped + [m];
      lines := lines + [ControllerLine(m)];
      i := i + 1;
    }
    assert bs[..i] == bs;
    return Ok(lines + ["}"]);
  }

  lemma {:induction false} ControllerLinesAppend(ms: seq<MappedController>, m: MappedController)
    ensures ControllerLines(ms + [m]) == ControllerLines(ms) + [ControllerLine(m)]
  {
    assert (ms + [m])[..|ms|] == ms;
  }

  /** Once a prefix of the triples fails to resolve, so does the whole, with the same error. */
  lemma {:induction false} ResolveStopsAtFailure(bs: seq<Binding>, i: nat, t: Table)
    requires i <= |bs| && Resolve(bs[..i], t).Fail?
    ensures Resolve(bs, t) == Resolve(bs[..i], t)
  {
    assert bs == bs[..i] + bs[i..];
    ResolveAppend(bs[..i], bs[i..], t);
  }
}
