/**
  Building a `Type` from its XML element (`Type.__init__`), `type_parse`
  and `Type.is_empty`.

  The parts are the translated text of the element, then for every child
  element a nested type followed by the translated tail text; empty text
  and falsy nested types are dropped.  The recognisers of `Idioms` then see
  the parts rendered and concatenated.
 */
module Types {
  import opened Wrappers
  import opened Text
  import opened Xml
  import opened TokenTranslator
  import opened Idioms
  import opened Decls

  /** The type `Type(None, ...)` builds: no parts, no override, no target. */
  const NoType := TypeExpr(None, [], "", None)

  /** `Type(xml, ...)` as a value. */
  function TypeOf(x: Option<Element>): TypeExpr {
    match x
    case None => NoType
    case Some(e) => TypeOfElement(e)
  }

  function TypeOfElement(e: Element): (t: TypeExpr)
    decreases e, |e.children| + 1
  {
    Assemble(e, Raw(e, |e.children|))
  }

  /** The type for `e` once its raw parts are known: the kept parts, and the override the recognisers find in their text. */
  function Assemble(e: Element, raw: seq<Part>): TypeExpr {
    var parts := Keep(raw);
    TypeExpr(Some(e), parts, Recognized(Concat(parts)), None)
  }

  /** The parts before filtering: the translated text, then the nested type and translated tail of each of the first `i` children. */
  function Raw(e: Element, i: nat): seq<Part>
    requires i <= |e.children|
    decreases e, i
  {
    if i == 0 then [Lit(SimpleParse(e.text))]
    else
      Raw(e, i - 1) + ChildParts(e.children[i - 1])
  }

  /** What one child element adds: its nested type, then its translated tail. */
  function ChildParts(c: Element): seq<Part>
    decreases c, |c.children| + 2
  {
    [Nested(TypeOfElement(c)), Lit(SimpleParse(c.tail))]
  }

  /** `[s for s in parts if s]`. */
  function Keep(ps: seq<Part>): (r: seq<Part>)
    ensures forall p :: p in r <==> p in ps && Kept(p)
    ensures |r| <= |ps|
  {
    if ps == [] then []
    else (if Kept(ps[0]) then [ps[0]] else []) + Keep(ps[1..])
  }

  predicate Kept(p: Part) {
    match p
    case Lit(s) => s != ""
    case Nested(u) => Truthy(u)
  }

  /** `"".join(str(p) for p in parts)`. */
  function Concat(ps: seq<Part>): string {
    RenderParts(TypeExpr(None, ps, "", None), 0)
  }

  /** `type_parse`: the rendering of the type built from `x`. */
  function TypeParse(x: Option<Element>): string {
    RenderType(TypeOf(x))
  }

  /** `Type.is_empty`: no element, or one without attributes, children or non-blank text. */
  predicate IsEmpty(x: Option<Element>) {
    match x
    case None => true
    case Some(e) =>
      e.attrib == map[] && e.children == [] && (e.text.None? || Strip(e.text.value) == "")
  }

  /**
    The loop of `Type.__init__`: the parts are collected child by child,
    filtered, and handed to the recognisers.
   */
  method BuildType(x: Option<Element>) returns (t: TypeExpr)
    ensures t == TypeOf(x)
  {
    if x.None? {
      return NoType;
    }
    t := BuildElement(x.value);
  }

  method BuildElement(e: Element) returns (t: TypeExpr)
    ensures t == TypeOfElement(e)
    decreases e, |e.children| + 1
  {
    var parts := [Lit(SimpleParse(e.text))];
    for i := 0 to |e.children|
      invariant parts == Raw(e, i)
    {
      var pair := BuildChild(e.children[i]);
      parts := parts + pair;
    }
    t := Assemble(e, parts);
  }

  /** One step of the loop: the nested type for child `c`, then its translated tail. */
  method BuildChild(c: Element) returns (pair: seq<Part>)
    ensures pair == ChildParts(c)
    decreases c, |c.children| + 2
  {
    var sub := BuildElement(c);
    pair := [Nested(sub), Lit(SimpleParse(c.tail))];
  }

  /** A missing element gives a falsy type that renders as `Any`. */
  lemma MissingElement()
    ensures !Truthy(TypeOf(None)) && RenderType(TypeOf(None)) == "Any"
    ensures TypeParse(None) == "Any"
  {
  }

  /** A built type keeps only parts that count, and nothing in it is bound yet. */
  lemma {:induction false} BuiltTypeWellFormed(e: Element)
    ensures WellFormed(TypeOfElement(e)) && Unbound(TypeOfElement(e))
    decreases e, |e.children| + 1
  {
    var t := TypeOfElement(e);
    var raw := Raw(e, |e.children|);
    RawWellFormed(e, |e.children|);
    forall i | 0 <= i < |t.parts|
      ensures PartKept(t, i) && PartUnbound(t, i)
    {
      assert t.parts[i] in Keep(raw);
      assert t.parts[i] in raw && Kept(t.parts[i]);
      assert NestedSound(raw);
    }
  }

  lemma {:induction false} RawWellFormed(e: Element, i: nat)
    requires i <= |e.children|
    ensures NestedSound(Raw(e, i))
    decreases e, i
  {
    if i > 0 {
      var c := e.children[i - 1];
      BuiltTypeWellFormed(c);
      RawWellFormed(e, i - 1);
      SoundPair(TypeOfElement(c), SimpleParse(c.tail));
      SoundAppend(Raw(e, i - 1), ChildParts(c));
    }
  }

  lemma SoundPair(t: TypeExpr, s: string)
    requires WellFormed(t) && Unbound(t)
    ensures NestedSound([Nested(t), Lit(s)])
  {
  }

  /** Every nested type among `ps` is well formed and unbound. */
  predicate NestedSound(ps: seq<Part>) {
    forall p :: p in ps && p.Nested? ==> WellFormed(p.sub) && Unbound(p.sub)
  }

  lemma SoundAppend(a: seq<Part>, b: seq<Part>)
    requires NestedSound(a) && NestedSound(b)
    ensures NestedSound(a + b)
  {
    forall p | p in a + b
      ensures p in a || p in b
    {
    }
  }

  /** `type_parse` never yields empty text. */
  lemma TypeParseNonEmpty(x: Option<Element>)
    ensures TypeParse(x) != ""
  {
    if x.Some? {
      BuiltTypeWellFormed(x.value);
      BuiltTypeRendersSomething(TypeOf(x));
    }
  }
}
