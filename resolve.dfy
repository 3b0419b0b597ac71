/**
  Resolution: binding every `Type` to the entity it names, and filing
  functions, variables, enums and classes under their qualified names.

  `Type.resolve` does nothing for an empty type.  Otherwise it resolves its
  nested parts, takes its target from the instances map by the element's
  `refid`, and only when that is absent looks up the qualified name of its
  first part in the namespace map.  A nested type has no name and no
  container, so that qualified name is always `???`; a text part has none.
  The resolve methods of the declarations resolve their types and then file
  themselves in the namespace map, a class after all its members.

  Here both maps are parameters and the namespace map is threaded through
  as a value; `Context.Registry` holds them as fields.
 */
module Resolution {
  import opened Wrappers
  import opened Xml
  import opened Decls
  import opened Types

  type Instances = map<string, Entity>
  type Names = map<string, Entity>

  /** What `qualname` answers for a nested type: it has no name and its container was cleared. */
  const TypeQualname := "???"

  /** `getattr(part, "qualname", None)` for a part of a type. */
  function PartQualname(p: Part): (r: Option<string>)
    ensures r.Some? <==> p.Nested?
  {
    if p.Nested? then Some(TypeQualname) else None
  }

  /** The `refid` attribute of the element a type was built from, or `""`. */
  function RefId(t: TypeExpr): string {
    if t.xml.Some? then AttrOr(t.xml.value, "refid", "") else ""
  }

  /** The target `Type.resolve` binds: by `refid` first, then by the first part's qualified name. */
  function Target(t: TypeExpr, inst: Instances, names: Names): Option<Entity> {
    var refid := RefId(t);
    if refid in inst then Some(inst[refid])
    else if t.parts != [] && PartQualname(t.parts[0]).Some? && PartQualname(t.parts[0]).value in names then
      Some(names[PartQualname(t.parts[0]).value])
    else None
  }

  /** `Type.resolve` as a value: the type with its parts resolved and its target bound. */
  function ResolvedType(t: TypeExpr, inst: Instances, names: Names): (r: TypeExpr)
    ensures r.xml == t.xml && r.override == t.override && |r.parts| == |t.parts|
    ensures IsEmpty(t.xml) ==> r == t
    decreases t, 2
  {
    if IsEmpty(t.xml) then t
    else TypeExpr(t.xml, ResolvedParts(t, inst, names), t.override, Target(t, inst, names))
  }

  /**
    The target a non-empty type is bound to: the instance its `refid` names
    when there is one; otherwise the namespace entry of `???` when its first
    part is nested; otherwise none.  A type with an override renders as before.
   */
  lemma ResolvedTarget(t: TypeExpr, inst: Instances, names: Names)
    ensures var r := ResolvedType(t, inst, names);
      && (!IsEmpty(t.xml) && RefId(t) in inst ==> r.target == Some(inst[RefId(t)]))
      && (!IsEmpty(t.xml) && RefId(t) !in inst && r.target.Some? ==>
            t.parts != [] && t.parts[0].Nested? && TypeQualname in names && r.target == Some(names[TypeQualname]))
      && (!IsEmpty(t.xml) && r.target.None? ==>
            RefId(t) !in inst && (t.parts == [] || t.parts[0].Lit? || TypeQualname !in names))
      && (t.override != "" ==> RenderType(r) == RenderType(t))
  {
  }

  /** The parts of `t`, each nested type resolved and each text kept. */
  function ResolvedParts(t: TypeExpr, inst: Instances, names: Names): (r: seq<Part>)
    ensures |r| == |t.parts|
    ensures forall k :: 0 <= k < |r| && t.parts[k].Lit? ==> r[k] == t.parts[k]
    ensures forall k :: 0 <= k < |r| && t.parts[k].Nested? ==>
      r[k] == Nested(ResolvedType(t.parts[k].sub, inst, names))
    decreases t, 1
  {
    seq(|t.parts|, k requires 0 <= k < |t.parts| => ResolvedPart(t, k, inst, names))
  }

  /** `p.resolve()` for part `k` of `t`, when the part has one. */
  function ResolvedPart(t: TypeExpr, k: nat, inst: Instances, names: Names): Part
    requires k < |t.parts|
    decreases t, 0
  {
    match t.parts[k]
    case Lit(s) => Lit(s)
    case Nested(u) => Nested(ResolvedType(u, inst, names))
  }

  /** Resolving a resolved type again, with the same maps, changes nothing. */
  lemma {:induction false} ResolveIdempotent(t: TypeExpr, inst: Instances, names: Names)
    ensures ResolvedType(ResolvedType(t, inst, names), inst, names) == ResolvedType(t, inst, names)
    decreases t
  {
    var r := ResolvedType(t, inst, names);
    if !IsEmpty(t.xml) {
      var rr := ResolvedType(r, inst, names);
      forall k | 0 <= k < |t.parts| && t.parts[k].Nested?
        ensures rr.parts[k] == r.parts[k]
      {
        ResolveIdempotent(t.parts[k].sub, inst, names);
      }
      assert rr.parts == r.parts;
      assert RefId(r) == RefId(t);
    }
  }

  /**
    `Type.is_resolvable`: after resolving, the type has a target, or its
    first part is a nested type that is itself resolvable.
   */
  predicate Resolvable(t: TypeExpr, inst: Instances, names: Names)
    decreases t
  {
    ResolvedType(t, inst, names).target.Some?
    || (t.parts != [] && t.parts[0].Nested? && Resolvable(t.parts[0].sub, inst, names))
  }

  /** `is_resolvable` resolves first; asking it of an already resolved type gives the same answer. */
  lemma {:induction false} ResolvableAfterResolve(t: TypeExpr, inst: Instances, names: Names)
    ensures Resolvable(ResolvedType(t, inst, names), inst, names) <==> Resolvable(t, inst, names)
    decreases t
  {
    var r := ResolvedType(t, inst, names);
    ResolveIdempotent(t, inst, names);
    if t.parts != [] && t.parts[0].Nested? && !IsEmpty(t.xml) {
      ResolvableAfterResolve(t.parts[0].sub, inst, names);
    }
  }

  /** `Param.resolve`: only the parameter's type is resolved. */
  function ResolvedParam(p: Param, inst: Instances, names: Names): (r: Param)
    ensures r.name == p.name && r.default == p.default
    ensures r.typ.xml == p.typ.xml && r.typ.override == p.typ.override
  {
    p.(typ := ResolvedType(p.typ, inst, names))
  }

  function ResolvedParams(ps: seq<Param>, inst: Instances, names: Names): (r: seq<Param>)
    ensures |r| == |ps|
    ensures forall k :: 0 <= k < |ps| ==> r[k] == ResolvedParam(ps[k], inst, names)
  {
    if ps == [] then [] else [ResolvedParam(ps[0], inst, names)] + ResolvedParams(ps[1..], inst, names)
  }

  /** `Function.resolve` before the function files itself: its return type and parameters resolved. */
  function ResolvedFunction(f: Function, inst: Instances, names: Names): (r: Function)
    ensures r.name == f.name && r.brief == f.brief && r.templ == f.templ && r.overloaded == f.overloaded
    ensures |r.params| == |f.params|
    ensures forall k :: 0 <= k < |f.params| ==> r.params[k].name == f.params[k].name
  {
    f.(returnt := ResolvedType(f.returnt, inst, names), params := ResolvedParams(f.params, inst, names))
  }

  /** `Variable.resolve` before the variable files itself; a typedef's `"TypeAlias"` has nothing to resolve. */
  function ResolvedVariable(v: Variable, inst: Instances, names: Names): (r: Variable)
    ensures r.name == v.name && r.brief == v.brief && r.value == v.value
    ensures v.typ.AliasTag? ==> r == v
  {
    match v.typ
    case Typed(u) => v.(typ := Typed(ResolvedType(u, inst, names)))
    case AliasTag => v
  }

  /** The key a member is filed under in the namespace map, if it is filed at all. */
  function MemberKey(m: Member): (r: Option<string>)
    ensures r.Some? <==> MemberName(m).Some?
  {
    match m
    case Var(v) => Some(Qualname(VariableE(v)))
    case Fun(f) => Some(Qualname(FunctionE(f)))
    case En(e) => Some(e.qualname)
    case _ => None
  }

  /** `m.resolve()` for one member of a class, with the namespace map it leaves behind. */
  function ResolveMember(m: Member, inst: Instances, names: Names): (r: (Member, Names))
    ensures MemberName(r.0) == MemberName(m) && MemberKey(r.0) == MemberKey(m)
    ensures MemberKey(m).Some? ==> r.1 == names[MemberKey(m).value := EntityOf(r.0)]
    ensures MemberKey(m).None? ==> r.1 == names
  {
    match m
    case Header(_) => (m, names)
    case Var(v) =>
      var v' := ResolvedVariable(v, inst, names);
      (Var(v'), names[Qualname(VariableE(v')) := VariableE(v')])
    case Fun(f) =>
      var f' := ResolvedFunction(f, inst, names);
      (Fun(f'), names[Qualname(FunctionE(f')) := FunctionE(f')])
    case En(e) => (m, names[e.qualname := EnumE(e)])
    case Sub(t) => (Sub(ResolvedType(t, inst, names)), names)
  }

  /** The entity a filed member stands for. */
  function EntityOf(m: Member): Entity
    requires MemberKey(m).Some?
  {
    match m
    case Var(v) => VariableE(v)
    case Fun(f) => FunctionE(f)
    case En(e) => EnumE(e)
  }

  /** Some member of `ms` is filed under `n`. */
  predicate KeyedIn(ms: seq<Member>, n: string) {
    exists k :: 0 <= k < |ms| && MemberKey(ms[k]) == Some(n)
  }

  /**
    The members of a class resolved one after the other, each seeing the
    namespace map the earlier ones left.  Every filed member's key ends up
    in the map, and no other key is added or changed.
   */
  function ResolvedMembers(ms: seq<Member>, inst: Instances, names: Names): (r: (seq<Member>, Names))
    ensures |r.0| == |ms|
    decreases |ms|
  {
    if ms == [] then ([], names)
    else
      var first := ResolveMember(ms[0], inst, names);
      var rest := ResolvedMembers(ms[1..], inst, first.1);
      ([first.0] + rest.0, rest.1)
  }

  /**
    What the loop over the members does to the namespace map: every filed
    member's key ends up in it, no other key is added or changed, and each
    member keeps its name.
   */
  lemma {:induction false} ResolvedMembersFile(ms: seq<Member>, inst: Instances, names: Names)
    ensures var r := ResolvedMembers(ms, inst, names);
      && (forall k :: 0 <= k < |ms| ==> MemberName(r.0[k]) == MemberName(ms[k]))
      && (forall k :: 0 <= k < |ms| && MemberKey(ms[k]).Some? ==> MemberKey(ms[k]).value in r.1)
      && (forall n :: n in names ==> n in r.1)
      && (forall n :: n in names && !KeyedIn(ms, n) ==> r.1[n] == names[n])
      && (forall n :: n in r.1 ==> n in names || KeyedIn(ms, n))
    decreases |ms|
  {
    if ms != [] {
      var first := ResolveMember(ms[0], inst, names);
      ResolvedMembersFile(ms[1..], inst, first.1);
      assert forall n :: KeyedIn(ms[1..], n) ==> KeyedIn(ms, n) by {
        forall n | KeyedIn(ms[1..], n) ensures KeyedIn(ms, n) {
          var k :| 0 <= k < |ms[1..]| && MemberKey(ms[1..][k]) == Some(n);
          assert MemberKey(ms[k + 1]) == Some(n);
        }
      }
      assert MemberKey(ms[0]).Some? ==> KeyedIn(ms, MemberKey(ms[0]).value);
      assert forall k :: 1 <= k < |ms| ==> ms[k] == ms[1..][k - 1];
    }
  }

  /**
    `Class.resolve`: the bases are resolved, then the members in order, and
    last the class files itself under its qualified name.
   */
  function ResolvedClass(c: Class, inst: Instances, names: Names): (r: (Class, Names))
    ensures r.0.qualname == c.qualname && r.0.name == c.name && r.0.kind == c.kind && r.0.brief == c.brief
    ensures r.0.templates == c.templates && r.0.generic == c.generic
    ensures |r.0.bases| == |c.bases| && |r.0.members| == |c.members|
    ensures c.qualname in r.1 && r.1[c.qualname] == ClassE(r.0)
    ensures forall n :: n in names ==> n in r.1
    ensures forall n :: n in r.1 ==> n in names || n == c.qualname || KeyedIn(c.members, n)
  {
    var bases := seq(|c.bases|, k requires 0 <= k < |c.bases| => ResolvedType(c.bases[k], inst, names));
    var members := ResolvedMembers(c.members, inst, names);
    ResolvedMembersFile(c.members, inst, names);
    var c' := c.(bases := bases, members := members.0);
    (c', members.1[c.qualname := ClassE(c')])
  }

  /** After `Class.resolve`, every filed member's key, and the class's own name, are in the namespace map. */
  lemma {:induction false} ClassFilesEverything(c: Class, inst: Instances, names: Names, k: nat)
    requires k < |c.members| && MemberKey(c.members[k]).Some?
    ensures MemberKey(c.members[k]).value in ResolvedClass(c, inst, names).1
    ensures MemberKey(ResolvedClass(c, inst, names).0.members[k]) == MemberKey(c.members[k])
  {
    var members := ResolvedMembers(c.members, inst, names);
    ResolvedMembersFile(c.members, inst, names);
    assert MemberKey(c.members[k]).value in members.1;
    ResolvedMembersKeepKeys(c.members, inst, names, k);
  }

  /** Resolving a member keeps the key it is filed under. */
  lemma {:induction false} ResolvedMembersKeepKeys(ms: seq<Member>, inst: Instances, names: Names, k: nat)
    requires k < |ms|
    ensures MemberKey(ResolvedMembers(ms, inst, names).0[k]) == MemberKey(ms[k])
    decreases |ms|
  {
    var first := ResolveMember(ms[0], inst, names);
    if k > 0 {
      ResolvedMembersKeepKeys(ms[1..], inst, first.1, k - 1);
    }
  }
}
