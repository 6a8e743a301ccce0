/**
 * An already-parsed XML document, as `xml.etree.ElementTree` holds it: a tag,
 * attributes, the text before the first child, and the children in document
 * order.
 */
module Xml {
  import opened Wrappers

  datatype Element = Element(tag: string, attrs: map<string, string>, text: Option<string>, children: seq<Element>)

  /** `e.get(key)`. */
  function Get(e: Element, key: string): Option<string> {
    if key in e.attrs then Some(e.attrs[key]) else None
  }

  /** The text `findtext` yields for a matched element: `e.text or ""`. */
  function TextOf(e: Element): string {
    e.text.GetOr("")
  }

  /** `ET.Element(tag)`: no attributes, no text, no children. */
  function NewElement(tag: string): Element {
    Element(tag, map[], None, [])
  }

  /** `parent.append(child)`. */
  function AppendChild(parent: Element, child: Element): (r: Element)
    ensures r.tag == parent.tag && r.attrs == parent.attrs && r.text == parent.text
    ensures r.children == parent.children + [child]
  {
    parent.(children := parent.children + [child])
  }

  /** The elements of `es` whose tag is `tag`, in order (`e.findall(tag)` over `e.children`). */
  function Tagged(es: seq<Element>, tag: string): (r: seq<Element>)
    ensures forall x :: x in r <==> x in es && x.tag == tag
    ensures |r| <= |es|
  {
    if es == [] then []
    else (if es[0].tag == tag then [es[0]] else []) + Tagged(es[1..], tag)
  }

  /** `findall` keeps the children in document order, each as often as it occurs. */
  lemma {:induction false} TaggedAppend(es: seq<Element>, e: Element, tag: string)
    ensures Tagged(es + [e], tag) == Tagged(es, tag) + (if e.tag == tag then [e] else [])
    decreases |es|
  {
    if es != [] {
      assert (es + [e])[1..] == es[1..] + [e];
      TaggedAppend(es[1..], e, tag);
    }
  }

  /** `es[i]` is the first element of `es` with tag `tag`. */
  predicate FirstTaggedAt(es: seq<Element>, tag: string, i: int) {
    0 <= i < |es| && es[i].tag == tag && forall j | 0 <= j < i :: es[j].tag != tag
  }

  /** The head of `findall` is the first element with the tag. */
  lemma {:induction false} TaggedFirst(es: seq<Element>, tag: string)
    requires Tagged(es, tag) != []
    ensures exists i :: FirstTaggedAt(es, tag, i) && es[i] == Tagged(es, tag)[0]
    decreases |es|
  {
    if es[0].tag != tag {
      assert Tagged(es, tag) == Tagged(es[1..], tag);
      TaggedFirst(es[1..], tag);
      var i :| FirstTaggedAt(es[1..], tag, i) && es[1..][i] == Tagged(es[1..], tag)[0];
      assert FirstTaggedAt(es, tag, i + 1);
    } else {
      assert FirstTaggedAt(es, tag, 0);
    }
  }

  /** `e.find(tag)`: the first child with that tag, if any. */
  function FindChild(e: Element, tag: string): (r: Option<Element>)
    ensures r.Some? <==> exists c :: c in e.children && c.tag == tag
    ensures r.Some? ==> exists i :: FirstTaggedAt(e.children, tag, i) && e.children[i] == r.value
  {
    var cs := Tagged(e.children, tag);
    if cs == [] then None
    else
      assert cs[0] in cs;
      TaggedFirst(e.children, tag);
      Some(cs[0])
  }

  /**
   * The path step `/tag` applied to each of `es` in turn: the children of
   * `es[0]` with that tag, then those of `es[1]`, and so on.
   */
  function ChildStep(es: seq<Element>, tag: string): (r: seq<Element>)
    ensures forall x :: x in r ==> x.tag == tag
  {
    if es == [] then [] else Tagged(es[0].children, tag) + ChildStep(es[1..], tag)
  }

  /** `e` has tag `tag` and its `schema_id` attribute is `id` (`tag[@schema_id='id']`). */
  predicate HasSchemaId(e: Element, tag: string, id: string) {
    e.tag == tag && Get(e, "schema_id") == Some(id)
  }

  /** The elements of `es` that match `tag[@schema_id='id']`, in order. */
  function WithSchemaId(es: seq<Element>, tag: string, id: string): (r: seq<Element>)
    ensures forall x :: x in r <==> x in es && HasSchemaId(x, tag, id)
  {
    if es == [] then []
    else (if HasSchemaId(es[0], tag, id) then [es[0]] else []) + WithSchemaId(es[1..], tag, id)
  }

  /** `es[i]` is the first element of `es` that matches `tag[@schema_id='id']`. */
  predicate FirstMatchAt(es: seq<Element>, tag: string, id: string, i: int) {
    0 <= i < |es| && HasSchemaId(es[i], tag, id) && forall j | 0 <= j < i :: !HasSchemaId(es[j], tag, id)
  }

  /** The head of the matches is the first matching element. */
  lemma {:induction false} WithSchemaIdFirst(es: seq<Element>, tag: string, id: string)
    requires WithSchemaId(es, tag, id) != []
    ensures exists i :: FirstMatchAt(es, tag, id, i) && es[i] == WithSchemaId(es, tag, id)[0]
    decreases |es|
  {
    if !HasSchemaId(es[0], tag, id) {
      assert WithSchemaId(es, tag, id) == WithSchemaId(es[1..], tag, id);
      WithSchemaIdFirst(es[1..], tag, id);
      var i :| FirstMatchAt(es[1..], tag, id, i) && es[1..][i] == WithSchemaId(es[1..], tag, id)[0];
      assert FirstMatchAt(es, tag, id, i + 1);
    } else {
      assert FirstMatchAt(es, tag, id, 0);
    }
  }

  /** The path step `/tag` from `es` reaches exactly the children with that tag of elements of `es`. */
  lemma {:induction false} ChildStepMembers(x: Element, es: seq<Element>, tag: string)
    ensures x in ChildStep(es, tag) <==> exists p :: p in es && x in p.children && x.tag == tag
    decreases |es|
  {
    if es != [] {
      ChildStepMembers(x, es[1..], tag);
      if exists p :: p in es && x in p.children && x.tag == tag {
        var p :| p in es && x in p.children && x.tag == tag;
        if p != es[0] {
          assert p in es[1..];
        }
      }
      if x in ChildStep(es[1..], tag) {
        var p :| p in es[1..] && x in p.children && x.tag == tag;
        assert p in es;
      }
    }
  }

  /** Everything strictly below `e`, in document order (`e.iter()` without `e`). */
  function Descendants(e: Element): seq<Element> {
    DescendantsOf(e.children)
  }

  /** The elements of the forest `cs` and everything below them, in document order. */
  function DescendantsOf(cs: seq<Element>): seq<Element>
    decreases cs
  {
    if cs == [] then []
    else
      assert cs[0] in cs;
      [cs[0]] + DescendantsOf(cs[0].children) + DescendantsOf(cs[1..])
  }

  /** `x` lies strictly below `e`: a child of `e`, or below one. */
  ghost predicate Below(x: Element, e: Element)
    decreases e
  {
    exists c :: c in e.children && (x == c || Below(x, c))
  }

  /** The preorder walk visits exactly the elements below the root. */
  lemma DescendantsAreBelow(x: Element, e: Element)
    ensures x in Descendants(e) <==> Below(x, e)
  {
    DescendantsOfAreBelow(x, e.children);
  }

  lemma {:induction false} DescendantsOfAreBelow(x: Element, cs: seq<Element>)
    ensures x in DescendantsOf(cs) <==> exists c :: c in cs && (x == c || Below(x, c))
    decreases cs
  {
    if cs != [] {
      assert cs[0] in cs;
      DescendantsOfAreBelow(x, cs[0].children);
      DescendantsOfAreBelow(x, cs[1..]);
      var d := DescendantsOf(cs);
      assert d == [cs[0]] + DescendantsOf(cs[0].children) + DescendantsOf(cs[1..]);
      if x in d {
        if x == cs[0] {
        } else if x in DescendantsOf(cs[0].children) {
          assert Below(x, cs[0]);
        } else {
          var c :| c in cs[1..] && (x == c || Below(x, c));
          assert c in cs;
        }
      }
      if exists c :: c in cs && (x == c || Below(x, c)) {
        var c :| c in cs && (x == c || Below(x, c));
        if c == cs[0] {
          if x != c {
            assert x in DescendantsOf(cs[0].children);
          }
        } else {
          assert c in cs[1..];
        }
      }
    }
  }
}
