/**
  Building the declaration entities from their XML elements: the
  constructors of `Param`, `Template`, `Function`, `Variable`, `Enum` and
  `Class`, and the member dispatch of `Class.do_iter`.

  Every constructor ends with `check`, which may rename the entity or raise.
  A constructor also files its object under the element's `id` in the
  instances map; the object it files is the one it returns, and the class
  constructor still changes its members afterwards (renames and overload
  marks).  So each constructor here returns its value, the `id` of its
  element and the entries its parts filed, and the final entry for an
  object is made once that object is finished.
 */
module Construction {
  import opened Wrappers
  import opened Text
  import opened Xml
  import opened TokenTranslator
  import opened Decls
  import opened Types
  import opened Fixes
  import opened Grouping

  /** Why a declaration could not be built. */
  datatype Failure =
    /** `check` ran out of fixes; the entity as its last attempt left it. */
    | Rejected(last: Entity)
    /** A child, attribute or text the constructor needs is missing. */
    | Malformed(what: string)

  /** Entries of the instances map, in the order they are written. */
  type Log = seq<(string, Entity)>

  /** A finished declaration, the `id` of its element, and what its parts filed. */
  datatype Built<T> = Built(value: T, id: string, nested: Log)

  function IdOf(x: Element): string {
    AttrOr(x, "id", "")
  }

  /** The entries of one object with final state `e`: its own, when it has an id, then its parts'. */
  function Entries(id: string, e: Entity, nested: Log): (r: Log)
    ensures id != "" ==> r == [(id, e)] + nested
    ensures id == "" ==> r == nested
  {
    (if id != "" then [(id, e)] else []) + nested
  }

  /**
    `check` as the constructors call it: the name the entity ends with, or
    the failure it raises when no fix makes the stub parse.
   */
  /** The outcome of `check` on `e`: `Repair` with the parser's verdict and the entity's own fixes. */
  function Checked(e: Entity, valid: string -> bool): Outcome {
    Repair(e, Verdict(valid), ApplyFix, FixCount(e))
  }

  /** `check` accepts `e`, and the entity leaves it called `n`. */
  predicate Settled(e: Entity, valid: string -> bool, n: string) {
    Checked(e, valid).ok && n == NameOf(Checked(e, valid).entity)
  }

  method CheckOrRaise(e: Entity, valid: string -> bool) returns (r: Result<string, Failure>)
    ensures r.Ok? <==> Checked(e, valid).ok
    ensures r.Ok? ==> Settled(e, valid, r.value)
    ensures r.Ok? ==> Accepts(valid, WithName(e, r.value))
    ensures r.Ok? ==> exists k :: 0 <= k <= FixCount(e) && r.value == NameOf(Repaired(e, k))
    ensures r.Ok? && FixCount(e) == 0 ==> r.value == NameOf(e) && WithName(e, r.value) == e
    ensures r.Err? ==> r.error == Rejected(Repaired(e, FixCount(e))) && !Accepts(valid, r.error.last)
    ensures Undocumented(e) ==> r.Err?
  {
    var o := Check(e, Verdict(valid), ApplyFix, FixCount(e));
    NoBriefNeverAccepted(e, valid);
    assert o.entity == Repaired(e, o.attempt - 1);
    assert o.ok <==> Accepts(valid, o.entity);
    SameName(e);
    if o.ok {
      r := Ok(NameOf(o.entity));
    } else {
      r := Err(Rejected(o.entity));
    }
  }

  /** `check` on an entity without fixes (an enum or a class): it passes as it is, or it raises. */
  method CheckAsIs(e: Entity, valid: string -> bool) returns (r: Result<(), Failure>)
    requires FixCount(e) == 0
    ensures r.Ok? <==> Accepts(valid, e)
    ensures r.Err? ==> r.error == Rejected(e)
    ensures Undocumented(e) ==> r.Err?
  {
    var fixed := CheckOrRaise(e, valid);
    assert Repaired(e, 0) == e;
    if fixed.Err? {
      return Err(fixed.error);
    }
    r := Ok(());
  }

  /** `x.find(tag).text` where both must exist. */
  function ChildText(x: Element, tag: string): Result<string, Failure> {
    match Find(x, tag)
    case None => Err(Malformed(tag))
    case Some(c) => if c.text.Some? then Ok(c.text.value) else Err(Malformed(tag))
  }

  /** The name `Param.__init__` starts from: the `declname` text, or `_` without one. */
  function ParamName(x: Element): (r: Result<string, Failure>)
    ensures Find(x, "declname").None? ==> r == Ok("_")
    ensures r.Err? <==> Find(x, "declname").Some? && Find(x, "declname").value.text.None?
  {
    match Find(x, "declname")
    case None => Ok("_")
    case Some(d) => if d.text.Some? then Ok(d.text.value) else Err(Malformed("declname"))
  }

  /** The default `Param.__init__` stores: `print` for a callable, else the translated `defval`. */
  function DefaultOf(x: Element, typ: TypeExpr): (r: Option<string>)
    ensures r.Some? <==> Find(x, "defval").Some?
    ensures r.Some? && StartsWith(RenderType(typ), "Callable") ==> r.value == "print"
    ensures r.Some? && !StartsWith(RenderType(typ), "Callable") ==> '*' !in r.value && '&' !in r.value
  {
    match Find(x, "defval")
    case None => None
    case Some(d) => Some(if StartsWith(RenderType(typ), "Callable") then "print" else ParseDefault(d))
  }


  /**
    What `Param(xml)` leaves behind: a stub the parser accepts, the type and
    default of the element, and its name, or `_` + its name once `fix1` ran.
   */
  predicate ParamBuilt(x: Element, valid: string -> bool, p: Param) {
    && Accepts(valid, ParamE(p))
    && p.typ == TypeOf(Find(x, "type"))
    && p.default == DefaultOf(x, TypeOf(Find(x, "type")))
    && ParamName(x).Ok? && (p.name == ParamName(x).value || p.name == "_" + ParamName(x).value)
    && Settled(ParamE(p.(name := ParamName(x).value)), valid, p.name)
  }

  /** `Param(xml)`. */
  method ParamOf(x: Element, valid: string -> bool) returns (r: Result<Built<Param>, Failure>)
    ensures r.Ok? ==> ParamBuilt(x, valid, r.value.value)
    ensures r.Ok? ==> r.value.id == IdOf(x) && r.value.nested == []
    ensures ParamName(x).Err? ==> r.Err?
  {
    var name := ParamName(x);
    if name.Err? {
      return Err(name.error);
    }
    var typ := TypeOf(Find(x, "type"));
    var p := Param(name.value, typ, DefaultOf(x, typ));
    var fixed := CheckOrRaise(ParamE(p), valid);
    if fixed.Err? {
      return Err(fixed.error);
    }
    ghost var k :| 0 <= k <= FixCount(ParamE(p)) && fixed.value == NameOf(Repaired(ParamE(p), k));
    OneFixNames(ParamE(p), k);
    assert WithName(ParamE(p), fixed.value) == ParamE(p.(name := fixed.value));
    r := Ok(Built(p.(name := fixed.value), IdOf(x), []));
  }

  /**
    The name `Template.__init__` starts from: the `declname` text; without
    one, the word after `class` or `typename` in the text of the `type`
    child (or of the element), else that element's own text.
   */
  function TemplateName(x: Element): (r: Result<string, Failure>)
    ensures Find(x, "declname").Some? ==> (r.Ok? <==> Find(x, "declname").value.text.Some?)
    ensures Find(x, "declname").Some? && r.Ok? ==> r.value == Find(x, "declname").value.text.value
  {
    match Find(x, "declname")
    case Some(d) => if d.text.Some? then Ok(d.text.value) else Err(Malformed("declname"))
    case None =>
      var elem := match Find(x, "type") case Some(t) => t case None => x;
      var s := Strip(Join(IterText(elem), ""));
      var pre := BeforeFirst(s, ' ');
      if pre == "class" || pre == "typename" then Ok(AfterFirst(s, ' '))
      else if elem.text.Some? then Ok(elem.text.value)
      else Err(Malformed("type"))
  }

  /**
    What `Template(xml)` leaves behind: a stub the parser accepts, the
    stripped name or `_` + it, ignored (rendered as a comment) exactly when
    the name mentions `enable_if`.
   */
  predicate TemplateBuilt(x: Element, valid: string -> bool, tp: Template) {
    && Accepts(valid, TemplateE(tp))
    && TemplateName(x).Ok?
    && var n := Strip(TemplateName(x).value);
       (tp.name == n || tp.name == "_" + n) && (tp.ignore <==> Contains(n, "enable_if"))
       && Settled(TemplateE(tp.(name := n)), valid, tp.name)
  }

  /** `Template(xml)`. */
  method TemplateOf(x: Element, valid: string -> bool) returns (r: Result<Built<Template>, Failure>)
    ensures r.Ok? ==> TemplateBuilt(x, valid, r.value.value)
    ensures r.Ok? ==> r.value.id == IdOf(x) && r.value.nested == []
    ensures TemplateName(x).Err? ==> r.Err?
  {
    var raw := TemplateName(x);
    if raw.Err? {
      return Err(raw.error);
    }
    var name := Strip(raw.value);
    var tp := Template(name, Contains(name, "enable_if"));
    var fixed := CheckOrRaise(TemplateE(tp), valid);
    if fixed.Err? {
      return Err(fixed.error);
    }
    ghost var k :| 0 <= k <= FixCount(TemplateE(tp)) && fixed.value == NameOf(Repaired(TemplateE(tp), k));
    OneFixNames(TemplateE(tp), k);
    assert WithName(TemplateE(tp), fixed.value) == TemplateE(tp.(name := fixed.value));
    r := Ok(Built(tp.(name := fixed.value), IdOf(x), []));
  }

  /**
    What the first `|params|` parameters file: each under the `id` of its
    element, in order (a parameter without an `id` files nothing).
   */
  function ParamLog(ps: seq<Element>, params: seq<Param>): Log
    requires |params| <= |ps|
    decreases |params|
  {
    if params == [] then []
    else
      var n := |params| - 1;
      ParamLog(ps, params[..n]) + Entries(IdOf(ps[n]), ParamE(params[n]), [])
  }

  /** The params built so far: one per element of a prefix of `ps`. */
  predicate ParamsBuilt(ps: seq<Element>, valid: string -> bool, params: seq<Param>) {
    |params| <= |ps| && forall k :: 0 <= k < |params| ==> ParamBuilt(ps[k], valid, params[k])
  }

  /** The loop step: the next element's param extends the params built. */
  lemma ParamStep(ps: seq<Element>, valid: string -> bool, params: seq<Param>, p: Param)
    requires ParamsBuilt(ps, valid, params) && |params| < |ps| && ParamBuilt(ps[|params|], valid, p)
    ensures ParamsBuilt(ps, valid, params + [p])
  {
    forall k | 0 <= k < |params| + 1
      ensures ParamBuilt(ps[k], valid, (params + [p])[k])
    {
      if k < |params| {
        assert (params + [p])[k] == params[k];
      }
    }
  }

  /** The loop step: the next param files its entry after those before it. */
  lemma ParamLogStep(ps: seq<Element>, params: seq<Param>, p: Param)
    requires |params| < |ps|
    ensures ParamLog(ps, params + [p]) == ParamLog(ps, params) + Entries(IdOf(ps[|params|]), ParamE(p), [])
  {
    assert (params + [p])[..|params|] == params;
  }

  /** `[Param(p) for p in ps]`: built in order, the first failure stops the rest. */
  method ParamsOf(ps: seq<Element>, valid: string -> bool) returns (r: Result<(seq<Param>, Log), Failure>)
    ensures r.Ok? ==> |r.value.0| == |ps|
    ensures r.Ok? ==> forall k :: 0 <= k < |ps| ==> ParamBuilt(ps[k], valid, r.value.0[k])
    ensures r.Ok? ==> r.value.1 == ParamLog(ps, r.value.0)
    ensures (exists k :: 0 <= k < |ps| && ParamName(ps[k]).Err?) ==> r.Err?
  {
    var params: seq<Param> := [];
    var log: Log := [];
    for i := 0 to |ps|
      invariant |params| == i
      invariant ParamsBuilt(ps, valid, params)
      invariant log == ParamLog(ps, params)
    {
      var p := ParamOf(ps[i], valid);
      if p.Err? {
        return Err(p.error);
      }
      ParamStep(ps, valid, params, p.value.value);
      ParamLogStep(ps, params, p.value.value);
      params := params + [p.value.value];
      log := log + Entries(p.value.id, ParamE(p.value.value), p.value.nested);
    }
    r := Ok((params, log));
  }

  /** What the first `|templates|` template parameters file, as `ParamLog` for parameters. */
  function TemplateLog(ps: seq<Element>, templates: seq<Template>): Log
    requires |templates| <= |ps|
    decreases |templates|
  {
    if templates == [] then []
    else
      var n := |templates| - 1;
      TemplateLog(ps, templates[..n]) + Entries(IdOf(ps[n]), TemplateE(templates[n]), [])
  }

  /** The templates built so far: one per element of a prefix of `ps`. */
  predicate TemplatesBuilt(ps: seq<Element>, valid: string -> bool, templates: seq<Template>) {
    |templates| <= |ps| && forall k :: 0 <= k < |templates| ==> TemplateBuilt(ps[k], valid, templates[k])
  }

  /** The loop step: the next element's template extends the templates built. */
  lemma TemplateStep(ps: seq<Element>, valid: string -> bool, templates: seq<Template>, t: Template)
    requires TemplatesBuilt(ps, valid, templates) && |templates| < |ps| && TemplateBuilt(ps[|templates|], valid, t)
    ensures TemplatesBuilt(ps, valid, templates + [t])
  {
    forall k | 0 <= k < |templates| + 1
      ensures TemplateBuilt(ps[k], valid, (templates + [t])[k])
    {
      if k < |templates| {
        assert (templates + [t])[k] == templates[k];
      }
    }
  }

  /** The loop step: the next template files its entry after those before it. */
  lemma TemplateLogStep(ps: seq<Element>, templates: seq<Template>, t: Template)
    requires |templates| < |ps|
    ensures TemplateLog(ps, templates + [t]) == TemplateLog(ps, templates) + Entries(IdOf(ps[|templates|]), TemplateE(t), [])
  {
    assert (templates + [t])[..|templates|] == templates;
  }

  /** `[Template(t) for t in ps]`: built in order, the first failure stops the rest. */
  method TemplatesOf(ps: seq<Element>, valid: string -> bool) returns (r: Result<(seq<Template>, Log), Failure>)
    ensures r.Ok? ==> |r.value.0| == |ps|
    ensures r.Ok? ==> forall k :: 0 <= k < |ps| ==> TemplateBuilt(ps[k], valid, r.value.0[k])
    ensures r.Ok? ==> r.value.1 == TemplateLog(ps, r.value.0)
    ensures (exists k :: 0 <= k < |ps| && TemplateName(ps[k]).Err?) ==> r.Err?
  {
    var templates: seq<Template> := [];
    var log: Log := [];
    for i := 0 to |ps|
      invariant |templates| == i
      invariant TemplatesBuilt(ps, valid, templates)
      invariant log == TemplateLog(ps, templates)
    {
      var t := TemplateOf(ps[i], valid);
      if t.Err? {
        return Err(t.error);
      }
      TemplateStep(ps, valid, templates, t.value.value);
      TemplateLogStep(ps, templates, t.value.value);
      templates := templates + [t.value.value];
      log := log + Entries(t.value.id, TemplateE(t.value.value), t.value.nested);
    }
    r := Ok((templates, log));
  }

  /** The templates of the element's `templateparamlist`: one per `param`, in order; none without the list. */
  predicate TemplateListBuilt(x: Element, valid: string -> bool, ts: seq<Template>) {
    match Find(x, "templateparamlist")
    case None => ts == []
    case Some(tl) =>
      var ps := FindAll(tl, "param");
      |ts| == |ps| && forall k :: 0 <= k < |ps| ==> TemplateBuilt(ps[k], valid, ts[k])
  }

  /** What the templates of the element's `templateparamlist` file; nothing without the list. */
  function TemplateListLog(x: Element, ts: seq<Template>): Log {
    match Find(x, "templateparamlist")
    case None => []
    case Some(tl) => if |ts| <= |FindAll(tl, "param")| then TemplateLog(FindAll(tl, "param"), ts) else []
  }

  /** The templates of the element's `templateparamlist` child; none without one. */
  method TemplateListOf(x: Element, valid: string -> bool) returns (r: Result<(seq<Template>, Log), Failure>)
    ensures Find(x, "templateparamlist").None? ==> r == Ok(([], []))
    ensures r.Ok? ==> TemplateListBuilt(x, valid, r.value.0)
    ensures r.Ok? ==> r.value.1 == TemplateListLog(x, r.value.0)
  {
    match Find(x, "templateparamlist")
    case None =>
      r := Ok(([], []));
    case Some(tl) =>
      r := TemplatesOf(FindAll(tl, "param"), valid);
  }

  /**
    What `Function(xml)` leaves behind: the `name` text as `check` leaves
    it, the brief, the return type, one built parameter per `param` child
    and the templates of its `templateparamlist`, not yet overloaded.
   */
  predicate FunctionBuilt(x: Element, valid: string -> bool, f: Function) {
    && ChildText(x, "name").Ok?
    && !f.overloaded && f.brief == Brief(x) && f.returnt == TypeOf(Find(x, "type"))
    && |f.params| == |FindAll(x, "param")|
    && (forall k :: 0 <= k < |FindAll(x, "param")| ==> ParamBuilt(FindAll(x, "param")[k], valid, f.params[k]))
    && TemplateListBuilt(x, valid, f.templ)
    && Settled(FunctionE(f.(name := ChildText(x, "name").value)), valid, f.name)
  }

  /** What a function's parameters and templates file, parameters first. */
  function FunctionLog(x: Element, f: Function): Log {
    var ps := FindAll(x, "param");
    (if |f.params| <= |ps| then ParamLog(ps, f.params) else []) + TemplateListLog(x, f.templ)
  }

  /** `Function(xml)`: not yet overloaded, and only returned when its stub parses. */
  method FunctionOf(x: Element, valid: string -> bool) returns (r: Result<Built<Function>, Failure>)
    ensures r.Ok? ==> FunctionBuilt(x, valid, r.value.value)
    ensures r.Ok? ==> Accepts(valid, FunctionE(r.value.value))
    ensures r.Ok? ==> !r.value.value.overloaded && r.value.id == IdOf(x)
    ensures r.Ok? ==> r.value.nested == FunctionLog(x, r.value.value)
    ensures r.Ok? ==> r.value.value.brief == Brief(x) && r.value.value.returnt == TypeOf(Find(x, "type"))
    ensures r.Ok? ==> |r.value.value.params| == |FindAll(x, "param")|
    ensures r.Ok? ==> forall k :: 0 <= k < |FindAll(x, "param")| ==>
      ParamBuilt(FindAll(x, "param")[k], valid, r.value.value.params[k])
    ensures Find(x, "briefdescription").None? || ChildText(x, "name").Err? ==> r.Err?
  {
    var name := ChildText(x, "name");
    if name.Err? {
      return Err(name.error);
    }
    var returnt := TypeOf(Find(x, "type"));
    var params := ParamsOf(FindAll(x, "param"), valid);
    if params.Err? {
      return Err(params.error);
    }
    var templ := TemplateListOf(x, valid);
    if templ.Err? {
      return Err(templ.error);
    }
    var f := Function(name.value, Brief(x), returnt, params.value.0, templ.value.0, false);
    var fixed := CheckOrRaise(FunctionE(f), valid);
    if fixed.Err? {
      return Err(fixed.error);
    }
    assert f.(name := fixed.value).(name := name.value) == f;
    r := Ok(Built(f.(name := fixed.value), IdOf(x), params.value.1 + templ.value.1));
  }

  /** The variable `Variable.__init__` makes before its `check`. */
  function VariableDraft(x: Element, name: string): Variable {
    Variable(name, Brief(x), Typed(TypeOf(Find(x, "type"))), Literal("..."))
  }

  /** What `Variable(xml)` leaves behind: its draft, under the name `check` leaves it with. */
  predicate VariableBuilt(x: Element, valid: string -> bool, v: Variable) {
    && ChildText(x, "name").Ok?
    && var d := VariableDraft(x, ChildText(x, "name").value);
       v == d.(name := v.name) && Settled(VariableE(d), valid, v.name)
  }

  /** `Variable(xml)`: typed by its `type` child, with the placeholder value `...`. */
  method VariableOf(x: Element, valid: string -> bool) returns (r: Result<Built<Variable>, Failure>)
    ensures r.Ok? ==> VariableBuilt(x, valid, r.value.value)
    ensures r.Ok? ==> Accepts(valid, VariableE(r.value.value))
    ensures r.Ok? ==> r.value.id == IdOf(x) && r.value.nested == []
    ensures r.Ok? ==> r.value.value.typ == Typed(TypeOf(Find(x, "type"))) && r.value.value.value == Literal("...")
    ensures r.Ok? ==> r.value.value.brief == Brief(x)
    ensures Find(x, "briefdescription").None? || ChildText(x, "name").Err? ==> r.Err?
  {
    var name := ChildText(x, "name");
    if name.Err? {
      return Err(name.error);
    }
    var v := VariableDraft(x, name.value);
    var fixed := CheckOrRaise(VariableE(v), valid);
    if fixed.Err? {
      return Err(fixed.error);
    }
    r := Ok(Built(v.(name := fixed.value), IdOf(x), []));
  }

  /** An enum value: the variable its `enumvalue` element builds, with the value `enum.auto()`. */
  predicate EnumValueBuilt(ev: Element, valid: string -> bool, v: Variable) {
    v.value == Literal("enum.auto()") && VariableBuilt(ev, valid, v.(value := Literal("...")))
  }

  /** `v.value = "enum.auto()"`. */
  function AutoValue(v: Variable): Variable {
    v.(value := Literal("enum.auto()"))
  }

  /** What the first `|vs|` enum values file, as `ParamLog` for parameters. */
  function ValueLog(evs: seq<Element>, vs: seq<Variable>): Log
    requires |vs| <= |evs|
    decreases |vs|
  {
    if vs == [] then []
    else
      var n := |vs| - 1;
      ValueLog(evs, vs[..n]) + Entries(IdOf(evs[n]), VariableE(vs[n]), [])
  }

  /** The values built so far: one per `enumvalue` element of a prefix of `evs`. */
  predicate ValuesBuilt(evs: seq<Element>, valid: string -> bool, vs: seq<Variable>) {
    |vs| <= |evs| && forall k :: 0 <= k < |vs| ==> EnumValueBuilt(evs[k], valid, vs[k])
  }

  /** The loop step: the next element's value extends the values built. */
  lemma ValueStep(evs: seq<Element>, valid: string -> bool, vs: seq<Variable>, v: Variable)
    requires ValuesBuilt(evs, valid, vs) && |vs| < |evs|
    requires EnumValueBuilt(evs[|vs|], valid, v)
    ensures ValuesBuilt(evs, valid, vs + [v])
  {
    forall k | 0 <= k < |vs| + 1
      ensures EnumValueBuilt(evs[k], valid, (vs + [v])[k])
    {
      if k < |vs| {
        assert (vs + [v])[k] == vs[k];
      }
    }
  }

  /** One enum value: `Variable(ev)`, whose value then becomes `enum.auto()`. */
  method EnumValueOf(ev: Element, valid: string -> bool) returns (r: Result<Built<Variable>, Failure>)
    ensures r.Ok? ==> EnumValueBuilt(ev, valid, r.value.value)
    ensures r.Ok? ==> r.value.id == IdOf(ev) && r.value.nested == []
    ensures Find(ev, "briefdescription").None? ==> r.Err?
  {
    var v := VariableOf(ev, valid);
    if v.Err? {
      return Err(v.error);
    }
    assert AutoValue(v.value.value).(value := Literal("...")) == v.value.value;
    r := Ok(v.value.(value := AutoValue(v.value.value)));
  }

  /** The loop step: the next enum value files its entry after those before it. */
  lemma ValueLogStep(evs: seq<Element>, vs: seq<Variable>, v: Variable)
    requires |vs| < |evs|
    ensures ValueLog(evs, vs + [v]) == ValueLog(evs, vs) + Entries(IdOf(evs[|vs|]), VariableE(v), [])
  {
    assert (vs + [v])[..|vs|] == vs;
  }

  /**
    The loop of `Enum.__init__`: every `enumvalue` child is built as a
    variable, given the value `enum.auto()` and appended.
   */
  method EnumValuesOf(evs: seq<Element>, valid: string -> bool) returns (r: Result<(seq<Variable>, Log), Failure>)
    ensures r.Ok? ==> |r.value.0| == |evs|
    ensures r.Ok? ==> forall k :: 0 <= k < |evs| ==> EnumValueBuilt(evs[k], valid, r.value.0[k])
    ensures r.Ok? ==> forall k :: 0 <= k < |evs| ==> r.value.0[k].value == Literal("enum.auto()")
    ensures r.Ok? ==> r.value.1 == ValueLog(evs, r.value.0)
    ensures (exists k :: 0 <= k < |evs| && Find(evs[k], "briefdescription").None?) ==> r.Err?
  {
    var values: seq<Variable> := [];
    var log: Log := [];
    for i := 0 to |evs|
      invariant |values| == i
      invariant ValuesBuilt(evs, valid, values)
      invariant log == ValueLog(evs, values)
      invariant forall k :: 0 <= k < i ==> Find(evs[k], "briefdescription").Some?
    {
      var v := EnumValueOf(evs[i], valid);
      if v.Err? {
        return Err(v.error);
      }
      ValueStep(evs, valid, values, v.value.value);
      ValueLogStep(evs, values, v.value.value);
      values := values + [v.value.value];
      log := log + Entries(v.value.id, VariableE(v.value.value), v.value.nested);
    }
    assert ValuesBuilt(evs, valid, values) && |values| == |evs|;
    r := Ok((values, log));
  }

  /**
    What `Enum(xml)` leaves behind: the rendered `compoundname` as its
    qualified name, the stripped `name` text, the brief, `strong` from the
    attribute, and one value per `enumvalue` child, in order.
   */
  predicate EnumBuilt(x: Element, valid: string -> bool, e: Enum) {
    && e.qualname == TypeParse(Find(x, "compoundname"))
    && ChildText(x, "name").Ok? && e.name == Strip(ChildText(x, "name").value)
    && e.brief == Brief(x)
    && "strong" in x.attrib && (e.strong <==> x.attrib["strong"] == "yes")
    && |e.values| == |FilterTag(x.children, "enumvalue")|
    && (forall k :: 0 <= k < |e.values| ==> EnumValueBuilt(FilterTag(x.children, "enumvalue")[k], valid, e.values[k]))
    && Accepts(valid, EnumE(e))
  }

  /** What an enum's values file. */
  function EnumLog(x: Element, e: Enum): Log {
    var evs := FilterTag(x.children, "enumvalue");
    if |e.values| <= |evs| then ValueLog(evs, e.values) else []
  }

  /** `Enum(xml)`: its qualified name is the rendering of its `compoundname` child. */
  method EnumOf(x: Element, valid: string -> bool) returns (r: Result<Built<Enum>, Failure>)
    ensures r.Ok? ==> EnumBuilt(x, valid, r.value.value)
    ensures r.Ok? ==> Accepts(valid, EnumE(r.value.value))
    ensures r.Ok? ==> r.value.value.qualname == TypeParse(Find(x, "compoundname")) && r.value.id == IdOf(x)
    ensures r.Ok? ==> r.value.nested == EnumLog(x, r.value.value)
    ensures r.Ok? ==> "strong" in x.attrib && (r.value.value.strong <==> x.attrib["strong"] == "yes")
    ensures r.Ok? ==> ChildText(x, "name").Ok? && r.value.value.name == Strip(ChildText(x, "name").value)
    ensures r.Ok? ==> |r.value.value.values| == |FilterTag(x.children, "enumvalue")|
    ensures Find(x, "briefdescription").None? ==> r.Err?
  {
    var qualname := TypeParse(Find(x, "compoundname"));
    var name := ChildText(x, "name");
    if name.Err? {
      return Err(name.error);
    }
    if "strong" !in x.attrib {
      return Err(Malformed("strong"));
    }
    var strong := x.attrib["strong"] == "yes";
    var values := EnumValuesOf(FilterTag(x.children, "enumvalue"), valid);
    if values.Err? {
      return Err(values.error);
    }
    var e := Enum(qualname, Strip(name.value), Brief(x), strong, values.value.0);
    assert Find(x, "briefdescription").None? ==> Undocumented(EnumE(e));
    var fixed := CheckOrRaise(EnumE(e), valid);
    if fixed.Err? {
      return Err(fixed.error);
    }
    assert FixCount(EnumE(e)) == 0;
    r := Ok(Built(e, IdOf(x), values.value.1));
  }

  /** One member `do_iter` yields: the member, the `id` of its element, and what its parts filed. */
  datatype Item = Item(member: Member, id: string, nested: Log)

  /** What `do_iter` guarantees of each member it yields, before grouping. */
  predicate Yielded(m: Member) {
    match m
    case Header(s) => StartsWith(s, "# ")
    case Fun(f) => !f.overloaded
    case Sub(t) => t.xml.Some? && (t.xml.value.tag == "innerclass" || t.xml.value.tag == "innernamespace")
    case _ => true
  }

  /** The member kinds `do_iter` builds; any other kind yields nothing. */
  const BuiltKinds: set<string> := {"variable", "function", "typedef", "enum"}

  datatype MemberKind = VariableKind | FunctionKind | TypedefKind | EnumKind | OtherKind

  /** The `kind` attribute of a `memberdef`, as far as `do_iter` tells kinds apart. */
  function KindOf(kind: string): (r: MemberKind)
    ensures r.VariableKind? <==> kind == "variable"
    ensures r.FunctionKind? <==> kind == "function"
    ensures r.TypedefKind? <==> kind == "typedef"
    ensures r.EnumKind? <==> kind == "enum"
    ensures r.OtherKind? <==> kind !in BuiltKinds
  {
    if kind == "variable" then VariableKind
    else if kind == "function" then FunctionKind
    else if kind == "typedef" then TypedefKind
    else if kind == "enum" then EnumKind
    else OtherKind
  }

  /**
    What a `typedef` member leaves behind: the variable it builds, with its
    type moved into its value and `TypeAlias` as its type, and the
    templates of its `templateparamlist`.
   */
  predicate TypedefBuilt(m: Element, valid: string -> bool, v: Variable, ts: seq<Template>) {
    && v.typ == AliasTag && v.value == Aliased(TypeOf(Find(m, "type")))
    && VariableBuilt(m, valid, v.(typ := Typed(TypeOf(Find(m, "type"))), value := Literal("...")))
    && TemplateListBuilt(m, valid, ts)
  }

  /**
    A `typedef` member: built as a variable, whose value then becomes its
    type and whose type becomes `TypeAlias`; the templates of its
    `templateparamlist` join the class's.
   */
  method TypedefOf(m: Element, valid: string -> bool) returns (r: Result<(Item, seq<Template>), Failure>)
    ensures r.Ok? ==> r.value.0.member.Var? && TypedefBuilt(m, valid, r.value.0.member.v, r.value.1)
    ensures r.Ok? ==> r.value.0.member.Var? && r.value.0.member.v.typ.AliasTag?
    ensures r.Ok? ==> r.value.0.member.v.value == Aliased(TypeOf(Find(m, "type")))
    ensures r.Ok? ==> r.value.0.id == IdOf(m) && r.value.0.member.v.brief == Brief(m)
    ensures r.Ok? ==> r.value.0.nested == TemplateListLog(m, r.value.1)
    ensures Find(m, "briefdescription").None? ==> r.Err?
  {
    var v := VariableOf(m, valid);
    if v.Err? {
      return Err(v.error);
    }
    var alias := v.value.value.(typ := AliasTag, value := Aliased(v.value.value.typ.t));
    assert alias.(typ := Typed(TypeOf(Find(m, "type"))), value := Literal("...")) == v.value.value;
    var ts := TemplateListOf(m, valid);
    if ts.Err? {
      return Err(ts.error);
    }
    r := Ok((Item(Var(alias), v.value.id, v.value.nested + ts.value.1), ts.value.0));
  }

  /** One built member, of the element's `id`, and the templates it brings. */
  predicate OneItem(m: Element, o: (seq<Item>, seq<Template>)) {
    |o.0| == 1 && o.0[0].id == IdOf(m)
  }

  /**
    What a `memberdef` of the given kind yields: the variable, function,
    typedef or enum its element builds, or nothing for any other kind.
   */
  predicate MemberBuilt(m: Element, kind: string, valid: string -> bool, o: (seq<Item>, seq<Template>)) {
    match KindOf(kind)
    case VariableKind => VariableMember(m, valid, o)
    case FunctionKind => FunctionMember(m, valid, o)
    case TypedefKind => TypedefMember(m, valid, o)
    case EnumKind => EnumMember(m, valid, o)
    case OtherKind => o == ([], [])
  }

  /** A `variable` member: the variable, which files nothing of its own parts. */
  predicate VariableMember(m: Element, valid: string -> bool, o: (seq<Item>, seq<Template>)) {
    OneItem(m, o) && o.1 == [] && o.0[0].member.Var? && VariableBuilt(m, valid, o.0[0].member.v)
    && o.0[0].nested == []
  }

  /** A `function` member: the function, with what its parameters and templates file. */
  predicate FunctionMember(m: Element, valid: string -> bool, o: (seq<Item>, seq<Template>)) {
    OneItem(m, o) && o.1 == [] && o.0[0].member.Fun? && FunctionBuilt(m, valid, o.0[0].member.f)
    && o.0[0].nested == FunctionLog(m, o.0[0].member.f)
  }

  /** A `typedef` member: the alias, with the templates it brings and what they file. */
  predicate TypedefMember(m: Element, valid: string -> bool, o: (seq<Item>, seq<Template>)) {
    OneItem(m, o) && o.0[0].member.Var? && TypedefBuilt(m, valid, o.0[0].member.v, o.1)
    && o.0[0].nested == TemplateListLog(m, o.1)
  }

  /** An `enum` member: the enum, with what its values file. */
  predicate EnumMember(m: Element, valid: string -> bool, o: (seq<Item>, seq<Template>)) {
    OneItem(m, o) && o.1 == [] && o.0[0].member.En? && EnumBuilt(m, valid, o.0[0].member.e)
    && o.0[0].nested == EnumLog(m, o.0[0].member.e)
  }

  /** A lone built member is one `do_iter` may yield. */
  lemma SingleYield(item: Item)
    requires item.member.Var? || item.member.En? || (item.member.Fun? && !item.member.f.overloaded)
    ensures forall it :: it in [item] ==> Yielded(it.member)
  {
  }

  /** A `variable` member. */
  method VariableMemberOf(m: Element, valid: string -> bool) returns (r: Result<(seq<Item>, seq<Template>), Failure>)
    ensures r.Ok? ==> VariableMember(m, valid, r.value)
    ensures r.Ok? ==> |r.value.0| == 1 && (forall it :: it in r.value.0 ==> Yielded(it.member)) && r.value.1 == []
    ensures r.Ok? ==> r.value.0[0].member.Var? && r.value.0[0].member.v.typ.Typed?
  {
    var v := VariableOf(m, valid);
    if v.Err? {
      return Err(v.error);
    }
    var item := Item(Var(v.value.value), v.value.id, v.value.nested);
    SingleYield(item);
    r := Ok(([item], []));
  }

  /** A `function` member. */
  method FunctionMemberOf(m: Element, valid: string -> bool) returns (r: Result<(seq<Item>, seq<Template>), Failure>)
    ensures r.Ok? ==> FunctionMember(m, valid, r.value)
    ensures r.Ok? ==> |r.value.0| == 1 && (forall it :: it in r.value.0 ==> Yielded(it.member)) && r.value.1 == []
    ensures r.Ok? ==> r.value.0[0].member.Fun?
  {
    var f := FunctionOf(m, valid);
    if f.Err? {
      return Err(f.error);
    }
    var item := Item(Fun(f.value.value), f.value.id, f.value.nested);
    SingleYield(item);
    r := Ok(([item], []));
  }

  /** A `typedef` member, with the templates it brings. */
  method TypedefMemberOf(m: Element, valid: string -> bool) returns (r: Result<(seq<Item>, seq<Template>), Failure>)
    ensures r.Ok? ==> TypedefMember(m, valid, r.value)
    ensures r.Ok? ==> |r.value.0| == 1 && (forall it :: it in r.value.0 ==> Yielded(it.member))
    ensures r.Ok? ==> r.value.0[0].member.Var? && r.value.0[0].member.v.typ.AliasTag?
  {
    var t := TypedefOf(m, valid);
    if t.Err? {
      return Err(t.error);
    }
    SingleYield(t.value.0);
    r := Ok(([t.value.0], t.value.1));
  }

  /** An `enum` member. */
  method EnumMemberOf(m: Element, valid: string -> bool) returns (r: Result<(seq<Item>, seq<Template>), Failure>)
    ensures r.Ok? ==> EnumMember(m, valid, r.value)
    ensures r.Ok? ==> |r.value.0| == 1 && (forall it :: it in r.value.0 ==> Yielded(it.member)) && r.value.1 == []
    ensures r.Ok? ==> r.value.0[0].member.En?
  {
    var e := EnumOf(m, valid);
    if e.Err? {
      return Err(e.error);
    }
    var item := Item(En(e.value.value), e.value.id, e.value.nested);
    SingleYield(item);
    r := Ok(([item], []));
  }

  /**
    A `memberdef` of the given kind: a variable, a function, a typedef (a
    variable whose value becomes its type and whose type becomes
    `TypeAlias`, its templates joining the class's), an enum, or nothing.
   */
  method MemberDef(m: Element, kind: string, valid: string -> bool) returns (r: Result<(seq<Item>, seq<Template>), Failure>)
    ensures r.Ok? ==> MemberBuilt(m, kind, valid, r.value)
    ensures r.Ok? ==> forall it :: it in r.value.0 ==> Yielded(it.member)
    ensures r.Ok? ==> (|r.value.0| == 1 <==> kind in BuiltKinds) && |r.value.0| <= 1
    ensures kind !in BuiltKinds ==> r == Ok(([], []))
    ensures r.Ok? && kind == "variable" ==> r.value.0[0].member.Var? && r.value.0[0].member.v.typ.Typed?
    ensures r.Ok? && kind == "function" ==> r.value.0[0].member.Fun?
    ensures r.Ok? && kind == "enum" ==> r.value.0[0].member.En?
    ensures r.Ok? && kind == "typedef" ==> r.value.0[0].member.Var? && r.value.0[0].member.v.typ.AliasTag?
    ensures r.Ok? && kind != "typedef" ==> r.value.1 == []
  {
    match KindOf(kind)
    case VariableKind =>
      r := VariableMemberOf(m, valid);
    case FunctionKind =>
      r := FunctionMemberOf(m, valid);
    case TypedefKind =>
      r := TypedefMemberOf(m, valid);
    case EnumKind =>
      r := EnumMemberOf(m, valid);
    case OtherKind =>
      r := Ok(([], []));
  }

  /**
    What one child other than a `sectiondef` yields: a header line, the
    member a non-private `memberdef` builds, a nested type for an inner
    class or namespace, and nothing for any other tag.
   */
  predicate VisitBuilt(m: Element, valid: string -> bool, o: (seq<Item>, seq<Template>)) {
    if m.tag == "header" then
      m.text.Some? && o == ([Item(Header("# " + m.text.value), "", [])], [])
    else if m.tag == "memberdef" then
      "prot" in m.attrib
      && if m.attrib["prot"] == "private" then o == ([], [])
         else "kind" in m.attrib && MemberBuilt(m, m.attrib["kind"], valid, o)
    else if m.tag == "innerclass" || m.tag == "innernamespace" then
      o == ([Item(Sub(TypeOf(Some(m))), "", [])], [])
    else
      o == ([], [])
  }

  /** One child of the element `do_iter` walks, other than a `sectiondef`. */
  method Visit(m: Element, valid: string -> bool) returns (r: Result<(seq<Item>, seq<Template>), Failure>)
    ensures r.Ok? ==> VisitBuilt(m, valid, r.value)
    ensures r.Ok? ==> forall it :: it in r.value.0 ==> Yielded(it.member)
    ensures m.tag == "memberdef" && AttrOr(m, "prot", "") == "private" ==> r == Ok(([], []))
    ensures m.tag == "header" && m.text.Some? ==> r == Ok(([Item(Header("# " + m.text.value), "", [])], []))
    ensures m.tag == "innerclass" || m.tag == "innernamespace" ==> r == Ok(([Item(Sub(TypeOf(Some(m))), "", [])], []))
    ensures m.tag !in {"header", "memberdef", "innerclass", "innernamespace"} ==> r == Ok(([], []))
  {
    if m.tag == "header" {
      if m.text.None? {
        return Err(Malformed("header"));
      }
      r := Ok(([Item(Header("# " + m.text.value), "", [])], []));
    } else if m.tag == "memberdef" {
      if "prot" !in m.attrib {
        return Err(Malformed("prot"));
      }
      if m.attrib["prot"] == "private" {
        return Ok(([], []));
      }
      if "kind" !in m.attrib {
        return Err(Malformed("kind"));
      }
      r := MemberDef(m, m.attrib["kind"], valid);
    } else if m.tag == "innerclass" || m.tag == "innernamespace" {
      r := Ok(([Item(Sub(TypeOf(Some(m))), "", [])], []));
    } else {
      r := Ok(([], []));
    }
  }

  /** The members and templates of several children, in order. */
  function Joined(outs: seq<(seq<Item>, seq<Template>)>): (seq<Item>, seq<Template>) {
    if outs == [] then ([], [])
    else
      var front := Joined(outs[..|outs| - 1]);
      (front.0 + outs[|outs| - 1].0, front.1 + outs[|outs| - 1].1)
  }

  /** What one child of the walked element yields: a `sectiondef` is walked in place, any other child visited. */
  ghost predicate ChildBuilt(m: Element, valid: string -> bool, o: (seq<Item>, seq<Template>))
    decreases m, 1
  {
    if m.tag == "sectiondef" then DoIterBuilt(m, valid, o) else VisitBuilt(m, valid, o)
  }

  /**
    What `do_iter` yields for an element: what each child yields, joined in
    document order.
   */
  ghost predicate DoIterBuilt(root: Element, valid: string -> bool, o: (seq<Item>, seq<Template>))
    decreases root, 0
  {
    exists outs: seq<(seq<Item>, seq<Template>)> {:trigger Joined(outs)} ::
      |outs| == |root.children|
      && (forall i :: 0 <= i < |outs| ==> ChildBuilt(root.children[i], valid, outs[i]))
      && o == Joined(outs)
  }

  /**
    `Class.do_iter`: a `sectiondef` child is walked in place, every other
    child is visited; the members come out in document order, with the
    templates the typedefs brought.
   */
  method DoIter(root: Element, valid: string -> bool) returns (r: Result<(seq<Item>, seq<Template>), Failure>)
    ensures r.Ok? ==> DoIterBuilt(root, valid, r.value)
    ensures r.Ok? ==> forall it :: it in r.value.0 ==> Yielded(it.member)
    decreases root
  {
    var items: seq<Item> := [];
    var templates: seq<Template> := [];
    ghost var outs: seq<(seq<Item>, seq<Template>)> := [];
    for i := 0 to |root.children|
      invariant |outs| == i
      invariant forall j :: 0 <= j < i ==> ChildBuilt(root.children[j], valid, outs[j])
      invariant (items, templates) == Joined(outs)
      invariant forall it :: it in items ==> Yielded(it.member)
    {
      var m := root.children[i];
      var here;
      if m.tag == "sectiondef" {
        here := DoIter(m, valid);
      } else {
        here := Visit(m, valid);
      }
      if here.Err? {
        return Err(here.error);
      }
      assert ChildBuilt(m, valid, here.value);
      items := items + here.value.0;
      templates := templates + here.value.1;
      assert (outs + [here.value])[..i] == outs;
      outs := outs + [here.value];
    }
    assert |outs| == |root.children| && (items, templates) == Joined(outs);
    r := Ok((items, templates));
  }

  function Members(items: seq<Item>): (r: seq<Member>)
    ensures |r| == |items|
    ensures forall k :: 0 <= k < |items| ==> r[k] == items[k].member
  {
    seq(|items|, k requires 0 <= k < |items| => items[k].member)
  }

  /** The entity a named member stands for, once the class has finished it. */
  function MemberEntity(m: Member): Option<Entity> {
    match m
    case Var(v) => Some(VariableE(v))
    case Fun(f) => Some(FunctionE(f))
    case En(e) => Some(EnumE(e))
    case _ => None
  }

  /** The entries of the yielded members, each with its final state `ms[k]`. */
  function ItemEntries(items: seq<Item>, ms: seq<Member>): Log
    requires |items| == |ms|
  {
    if items == [] then [] else OwnEntries(items[0], ms[0]) + ItemEntries(items[1..], ms[1..])
  }

  /** The entries of one yielded member in its final state `m`: its own, if it is an entity, then its parts'. */
  function OwnEntries(item: Item, m: Member): (r: Log)
    ensures forall e :: e in item.nested ==> e in r
    ensures item.id != "" && MemberEntity(m).Some? ==> (item.id, MemberEntity(m).value) in r
  {
    match MemberEntity(m)
    case Some(e) => Entries(item.id, e, item.nested)
    case None => item.nested
  }

  /**
    Every yielded member with an `id` files its final state under it, and
    everything its parts filed is filed with it.
   */
  lemma {:induction false} ItemEntriesFile(items: seq<Item>, ms: seq<Member>, k: nat)
    requires |items| == |ms| && k < |items|
    ensures forall e :: e in items[k].nested ==> e in ItemEntries(items, ms)
    ensures items[k].id != "" && MemberEntity(ms[k]).Some? ==> (items[k].id, MemberEntity(ms[k]).value) in ItemEntries(items, ms)
    decreases k
  {
    if k > 0 {
      ItemEntriesFile(items[1..], ms[1..], k - 1);
      assert items[1..][k - 1] == items[k] && ms[1..][k - 1] == ms[k];
    }
  }

  /** `[Type(t) for t in ...]`. */
  function BasesOf(bs: seq<Element>): (r: seq<TypeExpr>)
    ensures |r| == |bs|
    ensures forall k :: 0 <= k < |bs| ==> r[k] == TypeOf(Some(bs[k]))
  {
    seq(|bs|, k requires 0 <= k < |bs| => TypeOf(Some(bs[k])))
  }

  /**
    `Class.templates`: the generic templates, then those the typedefs
    brought, then every function member's, each added as to a set.
   */
  function ClassTemplates(generic: seq<Template>, typedefs: seq<Template>, ms: seq<Member>): (r: seq<Template>)
    ensures SetLike(r)
    ensures forall t :: t in generic || t in typedefs || t in FunctionTemplates(ms) ==> Holds(r, t)
    ensures forall u :: u in r ==> u in generic || u in typedefs || u in FunctionTemplates(ms)
  {
    TemplateSetsJoin(generic, typedefs, FunctionTemplates(ms));
    AddTemplates(AddTemplates(AddTemplates([], generic), typedefs), FunctionTemplates(ms))
  }

  /** Three `set.update`s from the empty set: a set holding exactly the three lists' templates. */
  lemma TemplateSetsJoin(a: seq<Template>, b: seq<Template>, c: seq<Template>)
    ensures var r := AddTemplates(AddTemplates(AddTemplates([], a), b), c);
      && SetLike(r)
      && (forall t :: t in a || t in b || t in c ==> Holds(r, t))
      && (forall u :: u in r ==> u in a || u in b || u in c)
  {
    var ra := AddTemplates([], a);
    var rb := AddTemplates(ra, b);
    var r := AddTemplates(rb, c);
    AddTemplatesSetLike([], a);
    AddTemplatesSetLike(ra, b);
    AddTemplatesSetLike(rb, c);
    AddTemplatesHolds([], a);
    AddTemplatesHolds(ra, b);
    AddTemplatesHolds(rb, c);
    forall t | t in a || t in b
      ensures Holds(r, t)
    {
      if t in a {
        HoldsGrows(ra, b, t);
      }
      HoldsGrows(rb, c, t);
    }
    AddTemplatesFrom([], a);
    AddTemplatesFrom(ra, b);
    AddTemplatesFrom(rb, c);
  }

  /**
    The members part of `Class.__init__`: the members `do_iter` yields, in
    order, then renamed and marked by the two grouping loops; the templates
    start from the generic ones, take those of the typedefs and then those
    of every function member.
   */
  method ClassMembers(x: Element, name: string, generic: seq<Template>, valid: string -> bool)
    returns (r: Result<(seq<Item>, seq<Template>, seq<Member>, seq<Template>), Failure>)
    ensures r.Ok? ==> DoIterBuilt(x, valid, (r.value.0, r.value.1))
    ensures r.Ok? ==> r.value.2 == Grouped(Members(r.value.0), name)
    ensures r.Ok? ==> r.value.3 == ClassTemplates(generic, r.value.1, Members(r.value.0))
    ensures r.Ok? ==> |r.value.2| == |r.value.0|
    ensures r.Ok? ==> MembersGrouped(r.value.2, name)
    ensures r.Ok? ==> SetLike(r.value.3)
    ensures r.Ok? ==> forall t :: t in generic ==> Holds(r.value.3, t)
  {
    var iterated := DoIter(x, valid);
    if iterated.Err? {
      return Err(iterated.error);
    }
    var yielded := Members(iterated.value.0);
    var held := AddTemplates(AddTemplates([], generic), iterated.value.1);
    AddTemplatesSetLike([], generic);
    AddTemplatesHolds([], generic);
    AddTemplatesSetLike(AddTemplates([], generic), iterated.value.1);
    var members, templates := GroupMembers(yielded, name, held);
    AddTemplatesSetLike(held, FunctionTemplates(yielded));
    forall t | t in generic
      ensures Holds(templates, t)
    {
      HoldsGrows(AddTemplates([], generic), iterated.value.1, t);
      HoldsGrows(held, FunctionTemplates(yielded), t);
    }
    forall m | m in yielded
      ensures Yielded(m)
    {
      var k :| 0 <= k < |yielded| && yielded[k] == m;
      assert iterated.value.0[k] in iterated.value.0;
    }
    GroupedClass(yielded, name);
    r := Ok((iterated.value.0, iterated.value.1, members, templates));
  }

  /**
    The qualified name of a class, cut before any generic arguments, and
    its name, the last dotted part of that.
   */
  function ClassNames(compound: string): (r: (string, string))
    ensures r.0 == BeforeFirst(compound, '[') && '[' !in r.0
    ensures '.' !in r.1
  {
    var qualname := BeforeFirst(compound, '[');
    (qualname, AfterLast(qualname, '.'))
  }

  /** The short name of a class is the tail of its qualified name. */
  lemma ClassNameIsTail(compound: string)
    ensures EndsWith(ClassNames(compound).0, ClassNames(compound).1)
  {
    AfterLastIsSuffix(BeforeFirst(compound, '['), '.');
  }

  /**
    The properties of a class that `Class.__init__` establishes before its
    `check`: its members are what `do_iter` yields, grouped, and its
    templates the generic ones, the typedefs' and the functions'.
   */
  ghost predicate ClassShape(x: Element, valid: string -> bool, c: Class) {
    && TemplateListBuilt(x, valid, c.generic)
    && (exists out {:trigger DoIterBuilt(x, valid, out)} :: DoIterBuilt(x, valid, out)
          && c.members == Grouped(Members(out.0), c.name)
          && c.templates == ClassTemplates(c.generic, out.1, Members(out.0)))
    && "kind" in x.attrib && c.kind == x.attrib["kind"]
    && (c.qualname, c.name) == ClassNames(TypeParse(Find(x, "compoundname")))
    && c.brief == Brief(x)
    && c.bases == BasesOf(FindAll(x, "basecompoundref"))
    && SetLike(c.templates)
    && (forall t :: t in c.generic ==> Holds(c.templates, t))
    && MembersGrouped(c.members, c.name)
  }

  /**
    A built class with what it files: the class has the shape `ClassShape`
    states, the `id` of its element, and its nested entries are those of
    its generic templates followed by those of each member `do_iter`
    yielded, in order, each with its state after grouping.
   */
  ghost predicate ClassBuilt(x: Element, valid: string -> bool, b: Built<Class>) {
    && ClassShape(x, valid, b.value)
    && b.id == IdOf(x)
    && (exists out {:trigger DoIterBuilt(x, valid, out)} :: DoIterBuilt(x, valid, out)
          && b.value.members == Grouped(Members(out.0), b.value.name)
          && b.nested == TemplateListLog(x, b.value.generic) + ItemEntries(out.0, b.value.members))
  }

  /**
    `Class(xml)` up to its `check`: named after the last dotted part of its
    qualified name, with the members and templates `ClassMembers` collects.
   */
  method ClassDraft(x: Element, valid: string -> bool) returns (r: Result<Built<Class>, Failure>)
    ensures r.Ok? ==> ClassShape(x, valid, r.value.value) && r.value.id == IdOf(x)
    ensures r.Ok? ==> ClassBuilt(x, valid, r.value)
  {
    var (qualname, name) := ClassNames(TypeParse(Find(x, "compoundname")));
    var bases := BasesOf(FindAll(x, "basecompoundref"));
    if "kind" !in x.attrib {
      return Err(Malformed("kind"));
    }
    var kind := x.attrib["kind"];
    var generic := TemplateListOf(x, valid);
    if generic.Err? {
      return Err(generic.error);
    }
    var body := ClassMembers(x, name, generic.value.0, valid);
    if body.Err? {
      return Err(body.error);
    }
    var (items, typedefs, members, templates) := body.value;
    var c := Class(qualname, name, Brief(x), bases, kind, templates, generic.value.0, members);
    assert DoIterBuilt(x, valid, (items, typedefs));
    r := Ok(Built(c, IdOf(x), generic.value.1 + ItemEntries(items, members)));
  }

  /** The `check` at the end of `Class.__init__`: the built class is returned as it is, or the check raises. */
  method CheckClass(b: Built<Class>, valid: string -> bool) returns (r: Result<Built<Class>, Failure>)
    ensures r.Ok? <==> Accepts(valid, ClassE(b.value))
    ensures r.Ok? ==> r.value == b
    ensures b.value.brief.None? ==> r.Err?
  {
    var checked := CheckAsIs(ClassE(b.value), valid);
    if checked.Err? {
      return Err(checked.error);
    }
    r := Ok(b);
  }

  /** `Class(xml)`: the class `ClassDraft` builds, once its stub parses. */
  method ClassOf(x: Element, valid: string -> bool) returns (r: Result<Built<Class>, Failure>)
    ensures r.Ok? ==> Accepts(valid, ClassE(r.value.value))
    ensures r.Ok? ==> ClassShape(x, valid, r.value.value) && r.value.id == IdOf(x)
    ensures r.Ok? ==> ClassBuilt(x, valid, r.value)
    ensures Find(x, "briefdescription").None? ==> r.Err?
  {
    r := ClassDraft(x, valid);
    if r.Ok? {
      r := CheckClass(r.value, valid);
    }
  }

  /**
    Members after grouping: no function is still called like the class,
    unless the class is itself called `__init__`, and a function is
    overloaded exactly when another member carries its name.
   */
  predicate MembersGrouped(ms: seq<Member>, cn: string) {
    forall k :: 0 <= k < |ms| && ms[k].Fun? ==>
      (ms[k].f.name != cn || cn == "__init__")
      && (ms[k].f.overloaded <==> exists j :: 0 <= j < |ms| && j != k && MemberName(ms[j]) == MemberName(ms[k]))
  }

  /** Grouping freshly yielded members gives members grouped as `MembersGrouped` says. */
  lemma GroupedClass(ms: seq<Member>, cn: string)
    requires forall m :: m in ms ==> Yielded(m)
    ensures MembersGrouped(Grouped(ms, cn), cn)
  {
    var g := Grouped(ms, cn);
    var rs := RenamedAll(ms, cn);
    forall k | 0 <= k < |ms| && g[k].Fun?
      ensures g[k].f.name != cn || cn == "__init__"
      ensures g[k].f.overloaded <==> exists j :: 0 <= j < |ms| && j != k && MemberName(g[j]) == MemberName(g[k])
    {
      assert ms[k] in ms;
      assert ms[k].Fun?;
      assert SharesName(rs, k) <==> exists j :: 0 <= j < |ms| && j != k && MemberName(g[j]) == MemberName(g[k]);
    }
  }

  /*
    The relations above leave nothing open: what an element builds is
    determined by the element and the parser.  So `ClassShape` fixes every
    field of a class, its members and templates included.
   */

  lemma ParamBuiltUnique(x: Element, valid: string -> bool, p1: Param, p2: Param)
    requires ParamBuilt(x, valid, p1) && ParamBuilt(x, valid, p2)
    ensures p1 == p2
  {
    var n := ParamName(x).value;
    assert p1.(name := n) == p2.(name := n);
  }

  lemma TemplateBuiltUnique(x: Element, valid: string -> bool, t1: Template, t2: Template)
    requires TemplateBuilt(x, valid, t1) && TemplateBuilt(x, valid, t2)
    ensures t1 == t2
  {
    var n := Strip(TemplateName(x).value);
    assert t1.(name := n) == t2.(name := n);
  }

  lemma TemplateListBuiltUnique(x: Element, valid: string -> bool, ts1: seq<Template>, ts2: seq<Template>)
    requires TemplateListBuilt(x, valid, ts1) && TemplateListBuilt(x, valid, ts2)
    ensures ts1 == ts2
  {
    match Find(x, "templateparamlist")
    case None =>
    case Some(tl) =>
      var ps := FindAll(tl, "param");
      forall k | 0 <= k < |ps|
        ensures ts1[k] == ts2[k]
      {
        TemplateBuiltUnique(ps[k], valid, ts1[k], ts2[k]);
      }
  }

  lemma VariableBuiltUnique(x: Element, valid: string -> bool, v1: Variable, v2: Variable)
    requires VariableBuilt(x, valid, v1) && VariableBuilt(x, valid, v2)
    ensures v1 == v2
  {
  }

  lemma FunctionBuiltUnique(x: Element, valid: string -> bool, f1: Function, f2: Function)
    requires FunctionBuilt(x, valid, f1) && FunctionBuilt(x, valid, f2)
    ensures f1 == f2
  {
    var ps := FindAll(x, "param");
    forall k | 0 <= k < |ps|
      ensures f1.params[k] == f2.params[k]
    {
      ParamBuiltUnique(ps[k], valid, f1.params[k], f2.params[k]);
    }
    assert f1.params == f2.params;
    TemplateListBuiltUnique(x, valid, f1.templ, f2.templ);
    var n := ChildText(x, "name").value;
    assert f1.(name := n) == f2.(name := n);
  }

  lemma EnumBuiltUnique(x: Element, valid: string -> bool, e1: Enum, e2: Enum)
    requires EnumBuilt(x, valid, e1) && EnumBuilt(x, valid, e2)
    ensures e1 == e2
  {
    var evs := FilterTag(x.children, "enumvalue");
    forall k | 0 <= k < |evs|
      ensures e1.values[k] == e2.values[k]
    {
      var v1, v2 := e1.values[k], e2.values[k];
      VariableBuiltUnique(evs[k], valid, v1.(value := Literal("...")), v2.(value := Literal("...")));
      assert v1 == v1.(value := Literal("...")).(value := Literal("enum.auto()"));
      assert v2 == v2.(value := Literal("...")).(value := Literal("enum.auto()"));
    }
    assert e1.values == e2.values;
  }

  lemma TypedefBuiltUnique(m: Element, valid: string -> bool, v1: Variable, ts1: seq<Template>, v2: Variable, ts2: seq<Template>)
    requires TypedefBuilt(m, valid, v1, ts1) && TypedefBuilt(m, valid, v2, ts2)
    ensures v1 == v2 && ts1 == ts2
  {
    var t := Typed(TypeOf(Find(m, "type")));
    VariableBuiltUnique(m, valid, v1.(typ := t, value := Literal("...")), v2.(typ := t, value := Literal("...")));
    TemplateListBuiltUnique(m, valid, ts1, ts2);
    assert v1 == v1.(typ := t, value := Literal("...")).(typ := AliasTag, value := Aliased(TypeOf(Find(m, "type"))));
    assert v2 == v2.(typ := t, value := Literal("...")).(typ := AliasTag, value := Aliased(TypeOf(Find(m, "type"))));
  }

  lemma VariableMemberUnique(m: Element, valid: string -> bool, o1: (seq<Item>, seq<Template>), o2: (seq<Item>, seq<Template>))
    requires VariableMember(m, valid, o1) && VariableMember(m, valid, o2)
    ensures o1 == o2
  {
    VariableBuiltUnique(m, valid, o1.0[0].member.v, o2.0[0].member.v);
    assert o1.0 == [o1.0[0]] && o2.0 == [o2.0[0]];
  }

  lemma FunctionMemberUnique(m: Element, valid: string -> bool, o1: (seq<Item>, seq<Template>), o2: (seq<Item>, seq<Template>))
    requires FunctionMember(m, valid, o1) && FunctionMember(m, valid, o2)
    ensures o1 == o2
  {
    FunctionBuiltUnique(m, valid, o1.0[0].member.f, o2.0[0].member.f);
    assert o1.0 == [o1.0[0]] && o2.0 == [o2.0[0]];
  }

  lemma TypedefMemberUnique(m: Element, valid: string -> bool, o1: (seq<Item>, seq<Template>), o2: (seq<Item>, seq<Template>))
    requires TypedefMember(m, valid, o1) && TypedefMember(m, valid, o2)
    ensures o1 == o2
  {
    TypedefBuiltUnique(m, valid, o1.0[0].member.v, o1.1, o2.0[0].member.v, o2.1);
    assert o1.0 == [o1.0[0]] && o2.0 == [o2.0[0]];
  }

  lemma EnumMemberUnique(m: Element, valid: string -> bool, o1: (seq<Item>, seq<Template>), o2: (seq<Item>, seq<Template>))
    requires EnumMember(m, valid, o1) && EnumMember(m, valid, o2)
    ensures o1 == o2
  {
    EnumBuiltUnique(m, valid, o1.0[0].member.e, o2.0[0].member.e);
    assert o1.0 == [o1.0[0]] && o2.0 == [o2.0[0]];
  }

  /** What a `memberdef` yields is determined by its element and kind, the entries its parts file included. */
  lemma MemberBuiltUnique(m: Element, kind: string, valid: string -> bool, o1: (seq<Item>, seq<Template>), o2: (seq<Item>, seq<Template>))
    requires MemberBuilt(m, kind, valid, o1) && MemberBuilt(m, kind, valid, o2)
    ensures o1 == o2
  {
    match KindOf(kind)
    case VariableKind => VariableMemberUnique(m, valid, o1, o2);
    case FunctionKind => FunctionMemberUnique(m, valid, o1, o2);
    case TypedefKind => TypedefMemberUnique(m, valid, o1, o2);
    case EnumKind => EnumMemberUnique(m, valid, o1, o2);
    case OtherKind =>
  }

  lemma VisitBuiltUnique(m: Element, valid: string -> bool, o1: (seq<Item>, seq<Template>), o2: (seq<Item>, seq<Template>))
    requires VisitBuilt(m, valid, o1) && VisitBuilt(m, valid, o2)
    ensures o1 == o2
  {
    if m.tag == "memberdef" && m.attrib["prot"] != "private" {
      MemberBuiltUnique(m, m.attrib["kind"], valid, o1, o2);
    }
  }

  /** What `do_iter` yields is determined by the element: its members and its templates. */
  lemma {:induction false} DoIterBuiltUnique(root: Element, valid: string -> bool, o1: (seq<Item>, seq<Template>), o2: (seq<Item>, seq<Template>))
    requires DoIterBuilt(root, valid, o1) && DoIterBuilt(root, valid, o2)
    ensures o1 == o2
    decreases root
  {
    var outs1 :| |outs1| == |root.children|
      && (forall i :: 0 <= i < |outs1| ==> ChildBuilt(root.children[i], valid, outs1[i]))
      && o1 == Joined(outs1);
    var outs2 :| |outs2| == |root.children|
      && (forall i :: 0 <= i < |outs2| ==> ChildBuilt(root.children[i], valid, outs2[i]))
      && o2 == Joined(outs2);
    forall i | 0 <= i < |outs1|
      ensures outs1[i] == outs2[i]
    {
      var c := root.children[i];
      if c.tag == "sectiondef" {
        DoIterBuiltUnique(c, valid, outs1[i], outs2[i]);
      } else {
        VisitBuiltUnique(c, valid, outs1[i], outs2[i]);
      }
    }
    assert outs1 == outs2;
  }

  /** The class `Class(xml)` builds is determined by its element: no member or template is left open. */
  lemma ClassShapeUnique(x: Element, valid: string -> bool, c1: Class, c2: Class)
    requires ClassShape(x, valid, c1) && ClassShape(x, valid, c2)
    ensures c1 == c2
  {
    var out1 :| DoIterBuilt(x, valid, out1)
      && c1.members == Grouped(Members(out1.0), c1.name)
      && c1.templates == ClassTemplates(c1.generic, out1.1, Members(out1.0));
    var out2 :| DoIterBuilt(x, valid, out2)
      && c2.members == Grouped(Members(out2.0), c2.name)
      && c2.templates == ClassTemplates(c2.generic, out2.1, Members(out2.0));
    DoIterBuiltUnique(x, valid, out1, out2);
    TemplateListBuiltUnique(x, valid, c1.generic, c2.generic);
  }

  /** A class's element determines the class and every entry it files. */
  lemma ClassBuiltUnique(x: Element, valid: string -> bool, b1: Built<Class>, b2: Built<Class>)
    requires ClassBuilt(x, valid, b1) && ClassBuilt(x, valid, b2)
    ensures b1 == b2
  {
    ClassShapeUnique(x, valid, b1.value, b2.value);
    var out1 :| DoIterBuilt(x, valid, out1)
      && b1.value.members == Grouped(Members(out1.0), b1.value.name)
      && b1.nested == TemplateListLog(x, b1.value.generic) + ItemEntries(out1.0, b1.value.members);
    var out2 :| DoIterBuilt(x, valid, out2)
      && b2.value.members == Grouped(Members(out2.0), b2.value.name)
      && b2.nested == TemplateListLog(x, b2.value.generic) + ItemEntries(out2.0, b2.value.members);
    DoIterBuiltUnique(x, valid, out1, out2);
  }
}
