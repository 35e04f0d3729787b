/**
 * The part of LINQ to XML the storyboard scan relies on: elements with a
 * name, attributes in document order and child elements; `Descendants()` in
 * document order; `Where`, `First`/`FirstOrDefault` by name; and
 * `FirstOrDefault` over an element's attributes.
 */
module StoryboardXml {
  import opened Failures

  datatype Element = Element(name: string, attributes: seq<(string, string)>, children: seq<Element>)

  /** `XContainer.Descendants()`: every element strictly below `e`, in document order. */
  function Descendants(e: Element): (r: seq<Element>)
    ensures forall c :: c in e.children ==> c in r
    decreases e, 1
  {
    Subtrees(e.children)
  }

  /** Each element of `es` followed by its descendants, one after another. */
  function Subtrees(es: seq<Element>): (r: seq<Element>)
    ensures forall c :: c in es ==> c in r
    decreases es, 0
  {
    if es == [] then [] else [es[0]] + Descendants(es[0]) + Subtrees(es[1..])
  }

  /** `XDocument.Descendants()`: the root element first, then everything below it. */
  function DocumentDescendants(root: Element): (r: seq<Element>)
    ensures |r| >= 1 && r[0] == root
  {
    [root] + Descendants(root)
  }

  /** A descendant of a descendant is a descendant. */
  lemma {:induction false} DescendantsClosed(e: Element, c: Element, d: Element)
    requires c in Descendants(e) && d in Descendants(c)
    ensures d in Descendants(e)
    decreases e, 1
  {
    SubtreesClosed(e.children, c, d);
  }

  lemma {:induction false} SubtreesClosed(es: seq<Element>, c: Element, d: Element)
    requires c in Subtrees(es) && d in Descendants(c)
    ensures d in Subtrees(es)
    decreases es, 0
  {
    if es != [] {
      var head := [es[0]] + Descendants(es[0]);
      assert Subtrees(es) == head + Subtrees(es[1..]);
      if c == es[0] {
        assert d in head;
      } else if c in Descendants(es[0]) {
        DescendantsClosed(es[0], c, d);
        assert d in head;
      } else {
        assert c in Subtrees(es[1..]);
        SubtreesClosed(es[1..], c, d);
      }
    }
  }

  /** `Where(x => x.Name == n)`: the elements named `n`, order kept. */
  function WhereNamed(es: seq<Element>, n: string): (r: seq<Element>)
    ensures |r| <= |es|
    ensures forall x :: x in r <==> x in es && x.name == n
  {
    if es == [] then []
    else (if es[0].name == n then [es[0]] else []) + WhereNamed(es[1..], n)
  }

  /** `Where(x => names.Any(y => y == x.Name))`: the elements whose name is listed, order kept. */
  function WhereNameIn(es: seq<Element>, names: seq<string>): (r: seq<Element>)
    ensures |r| <= |es|
    ensures forall x :: x in r <==> x in es && x.name in names
  {
    if es == [] then []
    else (if es[0].name in names then [es[0]] else []) + WhereNameIn(es[1..], names)
  }

  /** `FirstOrDefault(x => x.Name == n)`: the earliest element named `n`, if any. */
  function FirstNamed(es: seq<Element>, n: string): (r: Option<Element>)
    ensures r.None? <==> forall x :: x in es ==> x.name != n
    ensures r.Some? ==> exists i :: 0 <= i < |es| && es[i] == r.value && r.value.name == n
                                    && forall j :: 0 <= j < i ==> es[j].name != n
  {
    if es == [] then None
    else if es[0].name == n then Some(es[0])
    else
      var r := FirstNamed(es[1..], n);
      if r.Some? then
        var i :| 0 <= i < |es[1..]| && es[1..][i] == r.value && r.value.name == n
                  && forall j :: 0 <= j < i ==> es[1..][j].name != n;
        assert es[i + 1] == r.value;
        r
      else r
  }

  /** `Extensions.Descendants` over a sequence: the descendants of each element, one after another. */
  function DescendantsOfEach(es: seq<Element>): seq<Element>
  {
    if es == [] then [] else Descendants(es[0]) + DescendantsOfEach(es[1..])
  }

  /** Each element's descendants are among them ... */
  lemma {:induction false} DescendantsOfEachComplete(es: seq<Element>, i: int, d: Element)
    requires 0 <= i < |es| && d in Descendants(es[i])
    ensures d in DescendantsOfEach(es)
  {
    if i > 0 {
      assert es[1..][i - 1] == es[i];
      DescendantsOfEachComplete(es[1..], i - 1, d);
    }
  }

  /** ... and nothing else is. */
  lemma {:induction false} DescendantsOfEachSound(es: seq<Element>, d: Element)
    requires d in DescendantsOfEach(es)
    ensures exists i :: 0 <= i < |es| && d in Descendants(es[i])
  {
    if d !in Descendants(es[0]) {
      DescendantsOfEachSound(es[1..], d);
      var k :| 0 <= k < |es[1..]| && d in Descendants(es[1..][k]);
      assert es[k + 1] == es[1..][k];
    }
  }

  /** `Attributes().FirstOrDefault(x => x.Name == n)`, as the attribute's value. */
  function Attribute(e: Element, n: string): (r: Option<string>)
    ensures r.None? <==> forall i :: 0 <= i < |e.attributes| ==> e.attributes[i].0 != n
    ensures r.Some? ==> (n, r.value) in e.attributes
  {
    AttributeIn(e.attributes, n)
  }

  function AttributeIn(attributes: seq<(string, string)>, n: string): (r: Option<string>)
    ensures r.None? <==> forall i :: 0 <= i < |attributes| ==> attributes[i].0 != n
    ensures r.Some? ==> (n, r.value) in attributes
  {
    if attributes == [] then None
    else if attributes[0].0 == n then Some(attributes[0].1)
    else
      var r := AttributeIn(attributes[1..], n);
      assert forall i :: 1 <= i < |attributes| ==> attributes[i] == attributes[1..][i - 1];
      r
  }
}
