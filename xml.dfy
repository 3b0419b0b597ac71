/**
  The slice of the lxml element API the generator uses, over a plain value:
  an element has a tag, optional text and tail, an attribute map and its
  children in document order.  Only direct children are searched, as
  `find`, `findall`, `iterfind` and `iterchildren` do with a bare tag.
 */
module Xml {
  import opened Wrappers
  import opened Text

  datatype Element = Element(
    tag: string,
    text: Option<string>,
    tail: Option<string>,
    attrib: map<string, string>,
    children: seq<Element>)

  /** `x.find(tag)`: the first child with that tag. */
  function Find(x: Element, tag: string): (r: Option<Element>)
    ensures r.Some? ==> r.value in x.children && r.value.tag == tag
    ensures r.None? ==> forall c :: c in x.children ==> c.tag != tag
  {
    FindFrom(x.children, tag)
  }

  function FindFrom(cs: seq<Element>, tag: string): (r: Option<Element>)
    ensures r.Some? ==> r.value in cs && r.value.tag == tag
    ensures r.None? ==> forall c :: c in cs ==> c.tag != tag
  {
    if cs == [] then None
    else if cs[0].tag == tag then Some(cs[0])
    else FindFrom(cs[1..], tag)
  }

  /** `FindFrom` answers the first child with the tag: the one with no earlier child of that tag. */
  lemma {:induction false} FindFromIsFirst(cs: seq<Element>, tag: string, i: nat)
    requires i < |cs| && cs[i].tag == tag
    requires forall j :: 0 <= j < i ==> cs[j].tag != tag
    ensures FindFrom(cs, tag) == Some(cs[i])
  {
    if i > 0 {
      FindFromIsFirst(cs[1..], tag, i - 1);
    }
  }

  /** `x.findall(tag)` / `x.iterfind(tag)` / `x.iterchildren(tag)`: the children with that tag, in order. */
  function FindAll(x: Element, tag: string): (r: seq<Element>)
    ensures forall c :: c in r ==> c in x.children && c.tag == tag
  {
    FilterTag(x.children, tag)
  }

  function FilterTag(cs: seq<Element>, tag: string): (r: seq<Element>)
    ensures forall c :: c in r ==> c in cs && c.tag == tag
    ensures forall c :: c in cs && c.tag == tag ==> c in r
  {
    if cs == [] then []
    else (if cs[0].tag == tag then [cs[0]] else []) + FilterTag(cs[1..], tag)
  }

  /** `x.attrib.get(key, default)`. */
  function AttrOr(x: Element, key: string, default: string): string {
    if key in x.attrib then x.attrib[key] else default
  }

  /** `x.itertext()`: the element's text, then each child's texts followed by the child's tail. */
  function IterText(x: Element): seq<string>
    decreases x, |x.children| + 1
  {
    (match x.text case Some(t) => [t] case None => []) + IterTextFrom(x, 0)
  }

  function IterTextFrom(x: Element, i: nat): seq<string>
    requires i <= |x.children|
    decreases x, |x.children| - i
  {
    if i == |x.children| then []
    else
      var c := x.children[i];
      IterText(c) + (match c.tail case Some(t) => [t] case None => []) + IterTextFrom(x, i + 1)
  }

  function ConcatStripped(ts: seq<string>): string {
    if ts == [] then "" else Strip(ts[0]) + ConcatStripped(ts[1..])
  }

  /**
    The brief description of a declaration: every text piece stripped and
    glued together, then every line stripped and the lines joined by blanks.
    `None` when the element has no `<briefdescription>` child, in which case
    the Python object never gets a `brief` attribute.
   */
  function Brief(x: Element): (r: Option<string>)
    ensures r.Some? <==> exists c :: c in x.children && c.tag == "briefdescription"
  {
    match Find(x, "briefdescription")
    case None => None
    case Some(b) =>
      var glued := ConcatStripped(IterText(b));
      Some(Join(StripAll(SplitLines(glued)), " "))
  }

  function StripAll(ls: seq<string>): (r: seq<string>)
    ensures |r| == |ls|
    ensures forall i :: 0 <= i < |ls| ==> r[i] == Strip(ls[i])
  {
    seq(|ls|, i requires 0 <= i < |ls| => Strip(ls[i]))
  }
}
