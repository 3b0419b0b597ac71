/**
  The two registries of `ParsedElement` and the methods that write them.

  `INSTANCES` maps the `id` of an element to the object built from it and is
  written by the constructors; `NAMESPACE` maps a qualified name to an
  object and is written by the `resolve` methods.  `Registry` holds both as
  fields.  Its `resolve` methods are proved against the functions of
  `Resolution`: each returns the resolved value and leaves the maps as
  those functions say.
 */
module Context {
  import opened Wrappers
  import opened Xml
  import opened Decls
  import opened Types
  import opened Fixes
  import opened Resolution
  import opened Construction

  /** The instances map after the entries of `log` are written in order. */
  function Filed(m: Instances, log: Log): Instances
    decreases |log|
  {
    if log == [] then m
    else Filed(m, log[..|log| - 1])[log[|log| - 1].0 := log[|log| - 1].1]
  }

  /** `id` is written by some entry of `log`. */
  predicate Writes(log: Log, id: string) {
    exists k :: 0 <= k < |log| && log[k].0 == id
  }

  /** After the log is written, an id is mapped to the object of the last entry that wrote it. */
  lemma {:induction false} LastEntryWins(m: Instances, log: Log, k: nat)
    requires k < |log|
    requires forall j :: k < j < |log| ==> log[j].0 != log[k].0
    ensures log[k].0 in Filed(m, log) && Filed(m, log)[log[k].0] == log[k].1
    decreases |log|
  {
    if k < |log| - 1 {
      var front := log[..|log| - 1];
      assert forall j :: k < j < |front| ==> front[j] == log[j];
      LastEntryWins(m, front, k);
    }
  }

  /** Writing a log adds exactly the ids it writes, and leaves every other entry as it was. */
  lemma {:induction false} FiledKeys(m: Instances, log: Log, id: string)
    ensures id in Filed(m, log) <==> id in m || Writes(log, id)
    ensures !Writes(log, id) && id in m ==> Filed(m, log)[id] == m[id]
    decreases |log|
  {
    if log != [] {
      var front := log[..|log| - 1];
      FiledKeys(m, front, id);
      if Writes(front, id) {
        var k :| 0 <= k < |front| && front[k].0 == id;
        assert log[k].0 == id;
      }
      if Writes(log, id) && log[|log| - 1].0 != id {
        var k :| 0 <= k < |log| && log[k].0 == id;
        assert front[k].0 == id;
      }
    }
  }

  class Registry {
    /** `ParsedElement.INSTANCES`. */
    var instances: Instances
    /** `ParsedElement.NAMESPACE`. */
    var names: Names

    /** Both registries start empty. */
    constructor ()
      ensures instances == map[] && names == map[]
    {
      instances := map[];
      names := map[];
    }

    /** The constructors' `INSTANCES[id] = self`, for every entry of `log`, in order. */
    method Register(log: Log)
      modifies this
      ensures instances == Filed(old(instances), log) && names == old(names)
    {
      for i := 0 to |log|
        invariant instances == Filed(old(instances), log[..i]) && names == old(names)
      {
        assert log[..i + 1][..i] == log[..i];
        instances := instances[log[i].0 := log[i].1];
      }
      assert log[..|log|] == log;
    }

    /**
      `Type.resolve`: nothing for an empty type; otherwise the nested parts
      are resolved one after the other, then the target is looked up by
      `refid`, and by the first part's qualified name only when that fails.
     */
    method ResolveType(t: TypeExpr) returns (r: TypeExpr)
      ensures r == ResolvedType(t, instances, names)
      decreases t
    {
      if IsEmpty(t.xml) {
        return t;
      }
      var parts: seq<Part> := [];
      for i := 0 to |t.parts|
        invariant |parts| == i
        invariant forall k :: 0 <= k < i ==> parts[k] == ResolvedPart(t, k, instances, names)
      {
        match t.parts[i]
        case Lit(s) =>
          parts := parts + [Lit(s)];
        case Nested(u) =>
          assert u < t;
          var u' := ResolveType(u);
          parts := parts + [Nested(u')];
      }
      var target: Option<Entity> := None;
      var refid := AttrOr(t.xml.value, "refid", "");
      if refid in instances {
        target := Some(instances[refid]);
      }
      if target.None? && parts != [] {
        var qn := PartQualname(parts[0]);
        if qn.Some? && qn.value in names {
          target := Some(names[qn.value]);
        }
      }
      r := TypeExpr(t.xml, parts, t.override, target);
    }

    /**
      `Type.is_resolvable`: the type resolved, and whether it, or failing
      that its first part, has a target.  The first part was already resolved
      by then; resolving it again changes nothing (`ResolvableAfterResolve`).
     */
    method IsResolvable(t: TypeExpr) returns (r: TypeExpr, b: bool)
      ensures r == ResolvedType(t, instances, names)
      ensures b <==> Resolvable(t, instances, names)
      decreases t
    {
      r := ResolveType(t);
      if r.target.Some? {
        return r, true;
      }
      if t.parts == [] {
        return r, false;
      }
      match t.parts[0]
      case Lit(_) =>
        b := false;
      case Nested(u) =>
        assert u < t;
        ResolvableAfterResolve(u, instances, names);
        var _, inner := IsResolvable(u);
        b := inner;
    }

    /** `Param.resolve`. */
    method ResolveParam(p: Param) returns (r: Param)
      ensures r == ResolvedParam(p, instances, names)
    {
      var typ := ResolveType(p.typ);
      r := p.(typ := typ);
    }

    /** `Function.resolve`: the return type, then each parameter, then the function files itself. */
    method ResolveFunction(f: Function) returns (r: Function)
      modifies this
      ensures r == ResolvedFunction(f, old(instances), old(names))
      ensures instances == old(instances) && names == old(names)[Qualname(FunctionE(r)) := FunctionE(r)]
    {
      var returnt := ResolveType(f.returnt);
      var params: seq<Param> := [];
      for i := 0 to |f.params|
        invariant instances == old(instances) && names == old(names)
        invariant |params| == i
        invariant forall k :: 0 <= k < i ==> params[k] == ResolvedParam(f.params[k], instances, names)
      {
        var p := ResolveParam(f.params[i]);
        params := params + [p];
      }
      r := f.(returnt := returnt, params := params);
      names := names[Qualname(FunctionE(r)) := FunctionE(r)];
    }

    /** `Variable.resolve`: a `Type` is resolved, the typedef marker is not; then the variable files itself. */
    method ResolveVariable(v: Variable) returns (r: Variable)
      modifies this
      ensures r == ResolvedVariable(v, old(instances), old(names))
      ensures instances == old(instances) && names == old(names)[Qualname(VariableE(r)) := VariableE(r)]
    {
      r := v;
      if v.typ.Typed? {
        var t := ResolveType(v.typ.t);
        r := v.(typ := Typed(t));
      }
      names := names[Qualname(VariableE(r)) := VariableE(r)];
    }

    /** `Enum.resolve`: the enum files itself under its stored qualified name. */
    method ResolveEnum(e: Enum)
      modifies this
      ensures instances == old(instances) && names == old(names)[e.qualname := EnumE(e)]
    {
      names := names[e.qualname := EnumE(e)];
    }

    /** `m.resolve()` for a member that has one; a header line has none. */
    method ResolveMember(m: Member) returns (r: Member)
      modifies this
      ensures (r, names) == Resolution.ResolveMember(m, old(instances), old(names))
      ensures instances == old(instances)
    {
      match m
      case Header(_) =>
        r := m;
      case Var(v) =>
        var v' := ResolveVariable(v);
        r := Var(v');
      case Fun(f) =>
        var f' := ResolveFunction(f);
        r := Fun(f');
      case En(e) =>
        ResolveEnum(e);
        r := m;
      case Sub(t) =>
        var t' := ResolveType(t);
        r := Sub(t');
    }

    /** The loop over `self.members` in `Class.resolve`: each member that has a `resolve` is resolved, in order. */
    method ResolveMembers(ms: seq<Member>) returns (rs: seq<Member>)
      modifies this
      ensures (rs, names) == ResolvedMembers(ms, old(instances), old(names))
      ensures instances == old(instances)
    {
      rs := [];
      assert ms[0..] == ms;
      assert rs + ResolvedMembers(ms, instances, names).0 == ResolvedMembers(ms, instances, names).0;
      for i := 0 to |ms|
        invariant instances == old(instances)
        invariant ResolvedMembers(ms, instances, old(names)) ==
          (rs + ResolvedMembers(ms[i..], instances, names).0, ResolvedMembers(ms[i..], instances, names).1)
      {
        ghost var before := names;
        var m := ResolveMember(ms[i]);
        ghost var rest := ResolvedMembers(ms[i + 1..], instances, names);
        assert ms[i..][1..] == ms[i + 1..];
        assert ResolvedMembers(ms[i..], instances, before) == ([m] + rest.0, rest.1);
        assert rs + ([m] + rest.0) == (rs + [m]) + rest.0;
        rs := rs + [m];
      }
      assert rs + ResolvedMembers(ms[|ms|..], instances, names).0 == rs;
    }

    /** The loop over `self.bases` in `Class.resolve`; the registries are not changed. */
    method ResolveBases(bs: seq<TypeExpr>) returns (rs: seq<TypeExpr>)
      ensures |rs| == |bs|
      ensures forall k :: 0 <= k < |bs| ==> rs[k] == ResolvedType(bs[k], instances, names)
    {
      rs := [];
      for i := 0 to |bs|
        invariant |rs| == i
        invariant forall k :: 0 <= k < i ==> rs[k] == ResolvedType(bs[k], instances, names)
      {
        var b := ResolveType(bs[i]);
        rs := rs + [b];
      }
    }

    /** `Class.resolve`: the bases, then the members in order, then the class files itself. */
    method ResolveClass(c: Class) returns (r: Class)
      modifies this
      ensures (r, names) == ResolvedClass(c, old(instances), old(names))
      ensures instances == old(instances)
    {
      var bases := ResolveBases(c.bases);
      assert bases == ResolvedClass(c, old(instances), old(names)).0.bases;
      var members := ResolveMembers(c.members);
      r := c.(bases := bases, members := members);
      names := names[c.qualname := ClassE(r)];
    }

    /**
      `Class(compounddef)`: the class is built and checked, and it and
      every part that has an `id` are filed in the instances map.
     */
    method LoadClass(x: Element, valid: string -> bool) returns (r: Result<Built<Class>, Failure>)
      modifies this
      ensures r.Ok? ==> Accepts(valid, ClassE(r.value.value)) && ClassShape(x, valid, r.value.value)
      ensures r.Ok? ==> ClassBuilt(x, valid, r.value)
      ensures r.Ok? ==> r.value.id == IdOf(x) && names == old(names)
      ensures r.Ok? ==> instances == Filed(old(instances), Entries(r.value.id, ClassE(r.value.value), r.value.nested))
      ensures Find(x, "briefdescription").None? ==> r.Err?
    {
      r := ClassOf(x, valid);
      if r.Ok? {
        Register(Entries(r.value.id, ClassE(r.value.value), r.value.nested));
      }
    }
  }
}
