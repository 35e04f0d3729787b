/**
 * `ControllerGenerator`: the older way of producing the `ViewController`
 * class. It reads the storyboards named by the storyboards processor and the
 * C# documents of the project itself, builds the registry of `[Register]`ed
 * classes first, then looks each storyboard's view controllers up in it while
 * scanning, and renders one accessor per controller.
 *
 * Loading the files is left to the caller: a storyboard is its path with the
 * root element of its document, a C# document is the list of its class
 * declarations.
 */
module ControllerGenerator {
  import opened Failures
  import opened DotNetPath
  import opened Tables
  import opened Sequences
  import opened StoryboardXml
  import opened Controllers

  datatype Storyboard = Storyboard(path: string, root: Element)

  /** `Path.GetFileNameWithoutExtension` of the storyboard's path. */
  function NameOf(s: Storyboard, p: Platform): string
  {
    GetFileNameWithoutExtension(s.path, p)
  }

  /* ---------------------------------------------------------------- */
  /* The registry.                                                     */

  /** The registered classes of all documents, document after document. */
  function TouchClasses(documents: seq<seq<ClassDeclaration>>): seq<RegisteredClass>
  {
    FlatMap(documents, RegisteredClasses)
  }

  /**
   * `GetRegisteredTouchClasses`: every registered class into a fresh
   * dictionary; the first class without a usable `[Register]` argument or
   * with a name already taken is the exception that ends the generator.
   */
  function RegistryOf(documents: seq<seq<ClassDeclaration>>): (r: Result<Table>)
    ensures r.Ok? ==> UniqueKeys(r.value) && |r.value| == |TouchClasses(documents)|
  {
    var (added, t) := AddEach([], TouchClasses(documents), RegistryEntry);
    if added.Fail? then Fail(added.error) else Ok(t)
  }

  /** Document after document, the registry grows exactly as the controllers processor's does over one `Compile` item each. */
  lemma RegistryDocumentByDocument(documents: seq<seq<ClassDeclaration>>, d: int)
    requires 0 <= d < |documents|
    ensures var before := AddEach([], TouchClasses(documents[..d]), RegistryEntry);
            AddEach([], TouchClasses(documents[..d + 1]), RegistryEntry)
              == if before.0.Fail? then before else AddEach(before.1, RegisteredClasses(documents[d]), RegistryEntry)
  {
    FlatMapStep(documents, d, RegisteredClasses);
    AddEachAppend([], TouchClasses(documents[..d]), RegisteredClasses(documents[d]), RegistryEntry);
  }

  /** A class registered without failure is found under its registered name, qualified by its namespace. */
  lemma RegistryFindsEachClass(documents: seq<seq<ClassDeclaration>>, i: int)
    requires RegistryOf(documents).Ok? && 0 <= i < |TouchClasses(documents)|
    ensures var c := TouchClasses(documents)[i];
            RegistryEntry(c).Ok? && Lookup(RegistryOf(documents).value, RegistryEntry(c).value.0) == Ok(c.namespaceName + "." + c.identifier)
  {
    RegisteredClassIsFound([], TouchClasses(documents), i);
  }

  /** The nested `foreach` of `GetRegisteredTouchClasses`, over the documents and their registered classes. */
  method GetRegisteredTouchClasses(documents: seq<seq<ClassDeclaration>>) returns (r: Result<Table>)
    ensures r == RegistryOf(documents)
  {
    var registry: Table := [];
    var d := 0;
    while d < |documents|
      invariant 0 <= d <= |documents|
      invariant AddEach([], TouchClasses(documents[..d]), RegistryEntry) == (Ok(true), registry)
      invariant UniqueKeys(registry)
    {
      var classes := RegisteredClasses(documents[d]);
      assert TouchClasses(documents[..d]) + classes[..0] == TouchClasses(documents[..d]);
      var k := 0;
      while k < |classes|
        invariant 0 <= k <= |classes|
        invariant AddEach([], TouchClasses(documents[..d]) + classes[..k], RegistryEntry) == (Ok(true), registry)
        invariant UniqueKeys(registry)
      {
        AddEachNestedStep([], documents, RegisteredClasses, d, k, RegistryEntry);
        var added := AddEntry(registry, RegistryEntry(classes[k]));
        if added.0.Fail? {
          AddEachNestedStopsAtFailure([], documents, RegisteredClasses, d, k + 1, RegistryEntry);
          return Fail(added.0.error);
        }
        registry := added.1;
        k := k + 1;
      }
      AddEachNestedDone(documents, RegisteredClasses, d);
      d := d + 1;
    }
    assert documents[..d] == documents;
    return Ok(registry);
  }

  /* ---------------------------------------------------------------- */
  /* Mapping the storyboards.                                          */

  /** The triples of one storyboard, named after its file; no `document` element is `First`'s exception. */
  function StoryboardBindings(s: Storyboard, p: Platform): Result<seq<Binding>>
  {
    match ViewControllerElements(s.root)
    case Fail(e) => Fail(e)
    case Ok(vcs) => Ok(Bindings(vcs, NameOf(s, p)))
  }

  function BindingsOfStoryboard(p: Platform): Storyboard -> Result<seq<Binding>>
  {
    (s: Storyboard) => StoryboardBindings(s, p)
  }

  function Resolver(t: Table): seq<Binding> -> Result<seq<MappedController>>
  {
    (bs: seq<Binding>) => Resolve(bs, t)
  }

  /**
   * The controllers of one storyboard: its triples, each looked up as soon
   * as it is met, so that the first unregistered custom class fails it.
   */
  function MapStoryboard(s: Storyboard, t: Table, p: Platform): Result<seq<MappedController>>
  {
    Then(StoryboardBindings(s, p), Resolver(t))
  }

  function Mapper(t: Table, p: Platform): Storyboard -> Result<seq<MappedController>>
  {
    (s: Storyboard) => MapStoryboard(s, t, p)
  }

  /**
   * `GetMappedViewControllers`: storyboard after storyboard. A storyboard
   * without a `document` element and an unregistered custom class are the
   * exceptions, whichever comes first.
   */
  function MapStoryboards(ss: seq<Storyboard>, t: Table, p: Platform): Result<seq<MappedController>>
  {
    ConcatResults(ss, Mapper(t, p))
  }

  /** The triples the controllers processor collects from the same storyboards, or the first storyboard without a `document` element. */
  function AllBindings(ss: seq<Storyboard>, p: Platform): Result<seq<Binding>>
  {
    ConcatResults(ss, BindingsOfStoryboard(p))
  }

  /** For a `.storyboard` item, the processor appends exactly the triples the generator takes from that storyboard. */
  lemma ProcessorTakesSameBindings(list: seq<Binding>, s: Storyboard, p: Platform)
    requires IsStoryboardFile(s.path, p)
    ensures var outcome := InterfaceDefinitionOutcome(list, s.path, s.root, p);
            (StoryboardBindings(s, p).Ok? <==> outcome.0.Ok?)
            && (StoryboardBindings(s, p).Ok? ==> outcome.1 == list + StoryboardBindings(s, p).value)
  {
    StoryboardNameOfPath(s.path, p);
  }

  /**
   * Looking up while scanning gives what the processor gives by looking up
   * after scanning: whenever every storyboard has a `document` element, the
   * generator's controllers are the processor's triples resolved in the
   * registry; and the generator succeeds only when that is so.
   */
  lemma GeneratorAgreesWithProcessor(ss: seq<Storyboard>, t: Table, p: Platform)
    ensures AllBindings(ss, p).Ok? ==> MapStoryboards(ss, t, p) == Resolve(AllBindings(ss, p).value, t)
    ensures MapStoryboards(ss, t, p).Ok? ==> AllBindings(ss, p).Ok?
  {
    var g := Resolver(t);
    forall a, b ensures g(a + b) == AppendResults(g(a), g(b)) {
      ResolveAppend(a, b, t);
    }
    ConcatResultsThen(ss, BindingsOfStoryboard(p), g, Mapper(t, p));
  }

  /** One element more: its controller, if it has both attributes, is looked up after the ones before it. */
  lemma ResolveElementsStep(vcs: seq<Element>, j: int, storyboard: string, t: Table)
    requires 0 <= j < |vcs|
    ensures Resolve(Bindings(vcs[..j + 1], storyboard), t)
         == match Resolve(Bindings(vcs[..j], storyboard), t)
            case Fail(e) => Fail(e)
            case Ok(x) =>
              match Resolve(BindingOf(vcs[j], storyboard), t)
              case Fail(e) => Fail(e)
              case Ok(y) => Ok(x + y)
  {
    FlatMapStep(vcs, j, Contribution(storyboard));
    ResolveAppend(Bindings(vcs[..j], storyboard), BindingOf(vcs[j], storyboard), t);
  }

  /** Once an element's custom class is missing, the rest of the storyboard is never looked at. */
  lemma ResolveElementsStopsAtFailure(vcs: seq<Element>, j: int, storyboard: string, t: Table)
    requires 0 <= j <= |vcs| && Resolve(Bindings(vcs[..j], storyboard), t).Fail?
    ensures Resolve(Bindings(vcs, storyboard), t) == Resolve(Bindings(vcs[..j], storyboard), t)
  {
    FlatMapAppend(vcs, j, Contribution(storyboard));
    ResolveAppend(Bindings(vcs[..j], storyboard), FlatMap(vcs[j..], Contribution(storyboard)), t);
  }

  /** Resolving one triple is one lookup. */
  lemma ResolveOne(b: Binding, t: Table)
    ensures Resolve([b], t) == match Lookup(t, b.customClass)
                               case Fail(e) => Fail(e)
                               case Ok(cls) => Ok([MappedController(b.storyboardIdentifier, cls, b.storyboard)])
  {
    assert [b][..0] == [];
    var c := Lookup(t, b.customClass);
    if c.Ok? {
      var m := MappedController(b.storyboardIdentifier, c.value, b.storyboard);
      assert [] + [m] == [m];
    }
  }

  /** One element more, as the inner loop sees it: skipped, failed on its lookup, or appended. */
  lemma MapElementStep(vcs: seq<Element>, j: int, storyboard: string, t: Table, part: seq<MappedController>,
                       identifier: Option<string>, customClass: Option<string>)
    requires 0 <= j < |vcs| && Resolve(Bindings(vcs[..j], storyboard), t) == Ok(part)
    requires identifier == Attribute(vcs[j], StoryboardIdentifierAttribute) && customClass == Attribute(vcs[j], CustomClassAttribute)
    ensures !(identifier.Some? && customClass.Some?) ==> Resolve(Bindings(vcs[..j + 1], storyboard), t) == Ok(part)
    ensures identifier.Some? && customClass.Some? && Lookup(t, customClass.value).Fail? ==>
      Resolve(Bindings(vcs[..j + 1], storyboard), t) == Fail(Lookup(t, customClass.value).error)
    ensures identifier.Some? && customClass.Some? && Lookup(t, customClass.value).Ok? ==>
      Resolve(Bindings(vcs[..j + 1], storyboard), t)
        == Ok(part + [MappedController(identifier.value, Lookup(t, customClass.value).value, storyboard)])
  {
    ResolveElementsStep(vcs, j, storyboard, t);
    BindingOfIs(vcs[j], storyboard, identifier, customClass);
    if identifier.Some? && customClass.Some? {
      ResolveOne(Binding(identifier.value, customClass.value, storyboard), t);
    } else {
      assert part + [] == part;
    }
  }

  /** The controllers of one storyboard, appended to `acc`: the inner `foreach` of `GetMappedViewControllers`. */
  method MapElements(acc: seq<MappedController>, vcs: seq<Element>, storyboard: string, t: Table)
    returns (r: Result<seq<MappedController>>)
    ensures r == AppendResults(Ok(acc), Resolve(Bindings(vcs, storyboard), t))
  {
    var list := acc;
    ghost var part: seq<MappedController> := [];
    var j := 0;
    while j < |vcs|
      invariant 0 <= j <= |vcs|
      invariant Resolve(Bindings(vcs[..j], storyboard), t) == Ok(part)
      invariant list == acc + part
    {
      var v := vcs[j];
      var identifier := Attribute(v, StoryboardIdentifierAttribute);
      var customClass := Attribute(v, CustomClassAttribute);
      MapElementStep(vcs, j, storyboard, t, part, identifier, customClass);
      if identifier.Some? && customClass.Some? {
        var cls := Lookup(t, customClass.value);
        if cls.Fail? {
          ResolveElementsStopsAtFailure(vcs, j + 1, storyboard, t);
          return Fail(cls.error);
        }
        var m := MappedController(identifier.value, cls.value, storyboard);
        assert acc + (part + [m]) == list + [m];
        part := part + [m];
        list := list + [m];
      }
      j := j + 1;
    }
    assert vcs[..j] == vcs;
    return Ok(list);
  }

  lemma MapStoryboardIs(s: Storyboard, t: Table, p: Platform, elements: Result<seq<Element>>)
    requires elements == ViewControllerElements(s.root)
    ensures elements.Fail? ==> MapStoryboard(s, t, p) == Fail(elements.error)
    ensures elements.Ok? ==> MapStoryboard(s, t, p) == Resolve(Bindings(elements.value, NameOf(s, p)), t)
  {
  }

  /** One more storyboard: its missing `document` element ends the mapping, or its controllers are appended. */
  lemma MapStoryboardsStep(ss: seq<Storyboard>, k: int, t: Table, p: Platform, list: seq<MappedController>, elements: Result<seq<Element>>)
    requires 0 <= k < |ss| && MapStoryboards(ss[..k], t, p) == Ok(list)
    requires elements == ViewControllerElements(ss[k].root)
    ensures elements.Fail? ==> MapStoryboards(ss[..k + 1], t, p) == Fail(elements.error)
    ensures elements.Ok? ==>
      MapStoryboards(ss[..k + 1], t, p) == AppendResults(Ok(list), Resolve(Bindings(elements.value, NameOf(ss[k], p)), t))
  {
    ConcatResultsStep(ss, k, Mapper(t, p));
    MapStoryboardIs(ss[k], t, p, elements);
  }

  /** `GetMappedViewControllers`, storyboard after storyboard. */
  method GetMappedViewControllers(ss: seq<Storyboard>, t: Table, p: Platform) returns (r: Result<seq<MappedController>>)
    ensures r == MapStoryboards(ss, t, p)
  {
    var list: seq<MappedController> := [];
    var k := 0;
    while k < |ss|
      invariant 0 <= k <= |ss|
      invariant MapStoryboards(ss[..k], t, p) == Ok(list)
    {
      var elements := ViewControllerElements(ss[k].root);
      MapStoryboardsStep(ss, k, t, p, list, elements);
      var step: Result<seq<MappedController>>;
      if elements.Fail? {
        step := Fail(elements.error);
      } else {
        step := MapElements(list, elements.value, NameOf(ss[k], p), t);
      }
      if step.Fail? {
        ConcatResultsStopsAtFailure(ss, k + 1, Mapper(t, p));
        return step;
      }
      list := step.value;
      k := k + 1;
    }
    assert ss[..k] == ss;
    return Ok(list);
  }

  /* ---------------------------------------------------------------- */
  /* The generated class.                                              */

  /** What `GenerateSourceCode` produces: the registry first, then the mapping, then the class. */
  function GeneratedSource(ss: seq<Storyboard>, documents: seq<seq<ClassDeclaration>>, p: Platform): Result<seq<string>>
  {
    match RegistryOf(documents)
    case Fail(e) => Fail(e)
    case Ok(t) =>
      match MapStoryboards(ss, t, p)
      case Fail(e) => Fail(e)
      case Ok(ms) => Ok(RenderViewControllers(ms))
  }

  /**
   * When every storyboard has a `document` element, the generator produces
   * what the controllers processor produces from the same storyboards and
   * the same registry.
   */
  lemma GeneratedSourceIsProcessorSource(ss: seq<Storyboard>, documents: seq<seq<ClassDeclaration>>, p: Platform)
    requires RegistryOf(documents).Ok? && AllBindings(ss, p).Ok?
    ensures GeneratedSource(ss, documents, p) == ViewControllerSource(AllBindings(ss, p).value, RegistryOf(documents).value)
  {
    GeneratorAgreesWithProcessor(ss, RegistryOf(documents).value, p);
  }

  method GenerateSourceCode(ss: seq<Storyboard>, documents: seq<seq<ClassDeclaration>>, p: Platform) returns (r: Result<seq<string>>)
    ensures r == GeneratedSource(ss, documents, p)
  {
    var registry := GetRegisteredTouchClasses(documents);
    if registry.Fail? {
      return Fail(registry.error);
    }
    var mapped := GetMappedViewControllers(ss, registry.value, p);
    if mapped.Fail? {
      return Fail(mapped.error);
    }
    var lines := RenderMapped(mapped.value);
    return Ok(lines);
  }

  /** The `foreach` of `GenerateSourceCode`: the class line, one accessor per controller, the closing brace. */
  method RenderMapped(ms: seq<MappedController>) returns (lines: seq<string>)
    ensures lines == RenderViewControllers(ms)
  {
    lines := ["public static class ViewController", "{"];
    var i := 0;
    while i < |ms|
      invariant 0 <= i <= |ms|
      invariant lines == ["public static class ViewController", "{"] + ControllerLines(ms[..i])
    {
      assert ms[..i + 1] == ms[..i] + [ms[i]];
      ControllerLinesAppend(ms[..i], ms[i]);
      lines := lines + [ControllerLine(ms[i])];
      i := i + 1;
    }
    assert ms[..i] == ms;
    lines := lines + ["}"];
  }
}
