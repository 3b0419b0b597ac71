/**
  The grouping step of `Class.__init__`.

  A first pass over the members collects the template parameters of every
  function into the class's template set, renames a function called like
  the class to `__init__`, and files each named member under its name.  A
  second pass marks every member of a name filed more than once as
  overloaded.  Only functions render the mark.

  The template set of the program is a Python set of `Template` objects,
  which compare and hash by their rendering; here it is a sequence in
  insertion order in which no two entries render alike.
 */
module Grouping {
  import opened Wrappers
  import opened Decls

  /** What the first pass does to the name of one member. */
  function Renamed(m: Member, cn: string): (r: Member)
    ensures m.Fun? <==> r.Fun?
    ensures m.Fun? ==> r.f == m.f.(name := r.f.name)
    ensures m.Fun? ==> (r.f.name == "__init__" <==> m.f.name == cn || m.f.name == "__init__")
    ensures !m.Fun? ==> r == m
  {
    if m.Fun? && m.f.name == cn then Fun(m.f.(name := "__init__")) else m
  }

  function RenamedAll(ms: seq<Member>, cn: string): (r: seq<Member>)
    ensures |r| == |ms|
    ensures forall k :: 0 <= k < |ms| ==> r[k] == Renamed(ms[k], cn)
  {
    seq(|ms|, k requires 0 <= k < |ms| => Renamed(ms[k], cn))
  }

  /** The positions of the members filed under `n`, in order: `namespace[n]`. */
  function IndicesNamed(rs: seq<Member>, n: string): seq<nat>
    decreases |rs|
  {
    if rs == [] then []
    else IndicesNamed(rs[..|rs| - 1], n) + (if MemberName(rs[|rs| - 1]) == Some(n) then [|rs| - 1] else [])
  }

  /** `namespace[n]` holds exactly the positions of the members named `n`, in increasing order. */
  lemma {:induction false} IndicesNamedSpec(rs: seq<Member>, n: string)
    ensures forall k :: k in IndicesNamed(rs, n) <==> 0 <= k < |rs| && MemberName(rs[k]) == Some(n)
    ensures forall a, b :: 0 <= a < b < |IndicesNamed(rs, n)| ==> IndicesNamed(rs, n)[a] < IndicesNamed(rs, n)[b]
    decreases |rs|
  {
    if rs != [] {
      var init := rs[..|rs| - 1];
      IndicesNamedSpec(init, n);
      var prev := IndicesNamed(init, n);
      assert forall k :: 0 <= k < |init| ==> init[k] == rs[k];
      assert forall a :: 0 <= a < |prev| ==> prev[a] in prev;
    }
  }

  /** Some other member carries the same name as member `k`. */
  predicate SharesName(rs: seq<Member>, k: nat)
    requires k < |rs|
  {
    MemberName(rs[k]).Some? && exists j :: 0 <= j < |rs| && j != k && MemberName(rs[j]) == MemberName(rs[k])
  }

  /** `member.overloaded = True`; only a function shows it. */
  function Marked(m: Member): (r: Member)
    ensures m.Fun? ==> r == Fun(m.f.(overloaded := true))
    ensures !m.Fun? ==> r == m
  {
    if m.Fun? then Fun(m.f.(overloaded := true)) else m
  }

  /** A member as the second pass leaves it: marked when its name was filed more than once. */
  function GroupedAt(rs: seq<Member>, k: nat): Member
    requires k < |rs|
  {
    match MemberName(rs[k])
    case Some(n) => if |IndicesNamed(rs, n)| > 1 then Marked(rs[k]) else rs[k]
    case None => rs[k]
  }

  /**
    The members after both passes.  A function called like the class is
    now `__init__`, a function is overloaded exactly when it was already or
    another member shares its final name, and nothing else changes.
   */
  function Grouped(ms: seq<Member>, cn: string): (r: seq<Member>)
    ensures |r| == |ms|
    ensures forall k :: 0 <= k < |ms| ==> MemberName(r[k]) == MemberName(Renamed(ms[k], cn))
    ensures forall k :: 0 <= k < |ms| && !ms[k].Fun? ==> r[k] == ms[k]
    ensures forall k :: 0 <= k < |ms| && ms[k].Fun? ==>
      r[k].Fun? && r[k].f == ms[k].f.(name := r[k].f.name, overloaded := r[k].f.overloaded)
    ensures forall k :: 0 <= k < |ms| && ms[k].Fun? ==>
      r[k].f.name == (if ms[k].f.name == cn then "__init__" else ms[k].f.name)
    ensures forall k :: 0 <= k < |ms| && ms[k].Fun? ==>
      (r[k].f.overloaded <==> ms[k].f.overloaded || SharesName(RenamedAll(ms, cn), k))
  {
    var rs := RenamedAll(ms, cn);
    forall k | 0 <= k < |ms| && ms[k].Fun?
      ensures |IndicesNamed(rs, rs[k].f.name)| > 1 <==> SharesName(rs, k)
    {
      ManyIffShared(rs, k);
    }
    seq(|ms|, k requires 0 <= k < |ms| => GroupedAt(rs, k))
  }

  /** A name is filed more than once exactly when some other member carries it. */
  lemma ManyIffShared(rs: seq<Member>, k: nat)
    requires k < |rs| && MemberName(rs[k]).Some?
    ensures |IndicesNamed(rs, MemberName(rs[k]).value)| > 1 <==> SharesName(rs, k)
  {
    var n := MemberName(rs[k]).value;
    var idx := IndicesNamed(rs, n);
    IndicesNamedSpec(rs, n);
    assert k in idx;
    if |idx| > 1 {
      var j := if idx[0] != k then idx[0] else idx[1];
      assert idx[0] < idx[1];
      assert j in idx && j != k;
    }
    if SharesName(rs, k) {
      var j :| 0 <= j < |rs| && j != k && MemberName(rs[j]) == Some(n);
      assert j in idx;
      var a :| 0 <= a < |idx| && idx[a] == j;
      var b :| 0 <= b < |idx| && idx[b] == k;
      assert a != b;
    }
  }

  /** A function whose final name no other member carries keeps its flag; the constructor leaves it `False`. */
  lemma {:induction false} UniqueFunctionNotOverloaded(ms: seq<Member>, cn: string, k: nat)
    requires k < |ms| && ms[k].Fun? && !ms[k].f.overloaded
    requires forall j :: 0 <= j < |ms| && j != k ==> MemberName(Renamed(ms[j], cn)) != MemberName(Renamed(ms[k], cn))
    ensures !Grouped(ms, cn)[k].f.overloaded
  {
    var rs := RenamedAll(ms, cn);
    assert !SharesName(rs, k);
  }

  /** Two members that end up with the same name are both overloaded when they are functions. */
  lemma {:induction false} SharedNameOverloaded(ms: seq<Member>, cn: string, j: nat, k: nat)
    requires j < |ms| && k < |ms| && j != k && ms[k].Fun?
    requires MemberName(Renamed(ms[j], cn)) == MemberName(Renamed(ms[k], cn))
    ensures Grouped(ms, cn)[k].f.overloaded
  {
    var rs := RenamedAll(ms, cn);
    assert rs[j] == Renamed(ms[j], cn) && rs[k] == Renamed(ms[k], cn);
    assert SharesName(rs, k);
  }

  /** The template parameters of the functions among `ms`, in member order. */
  function FunctionTemplates(ms: seq<Member>): seq<Template>
    decreases |ms|
  {
    if ms == [] then []
    else FunctionTemplates(ms[..|ms| - 1]) + (if ms[|ms| - 1].Fun? then ms[|ms| - 1].f.templ else [])
  }

  /** Every collected template comes from some function among the members. */
  lemma {:induction false} FunctionTemplatesFrom(ms: seq<Member>)
    ensures forall t :: t in FunctionTemplates(ms) ==> exists k :: 0 <= k < |ms| && ms[k].Fun? && t in ms[k].f.templ
    decreases |ms|
  {
    if ms != [] {
      var init := ms[..|ms| - 1];
      FunctionTemplatesFrom(init);
      assert forall k :: 0 <= k < |init| ==> init[k] == ms[k];
    }
  }

  /** Some entry of `acc` renders like `t`, so the set already holds `t`. */
  predicate Holds(acc: seq<Template>, t: Template) {
    exists u :: u in acc && RenderTemplate(u) == RenderTemplate(t)
  }

  /** No two entries render alike. */
  predicate SetLike(acc: seq<Template>) {
    forall a, b :: 0 <= a < b < |acc| ==> RenderTemplate(acc[a]) != RenderTemplate(acc[b])
  }

  /** A template the accumulator holds stays held after an update. */
  lemma HoldsGrows(acc: seq<Template>, ts: seq<Template>, t: Template)
    ensures Holds(acc, t) ==> Holds(AddTemplates(acc, ts), t)
  {
    if Holds(acc, t) {
      var u :| u in acc && RenderTemplate(u) == RenderTemplate(t);
      AddTemplatesKeeps(acc, ts);
      assert u in AddTemplates(acc, ts);
    }
  }

  /** `templates.update(ts)`: each template not yet held is appended. */
  function AddTemplates(acc: seq<Template>, ts: seq<Template>): seq<Template>
    decreases |ts|
  {
    if ts == [] then acc
    else AddTemplates(if Holds(acc, ts[0]) then acc else acc + [ts[0]], ts[1..])
  }

  /** `set.update` never drops what the set already held. */
  lemma {:induction false} AddTemplatesKeeps(acc: seq<Template>, ts: seq<Template>)
    ensures forall u :: u in acc ==> u in AddTemplates(acc, ts)
    decreases |ts|
  {
    if ts != [] {
      var next := if Holds(acc, ts[0]) then acc else acc + [ts[0]];
      AddTemplatesKeeps(next, ts[1..]);
      assert forall u :: u in acc ==> u in next;
    }
  }

  /** `set.update` adds nothing but the new templates. */
  lemma {:induction false} AddTemplatesFrom(acc: seq<Template>, ts: seq<Template>)
    ensures forall u :: u in AddTemplates(acc, ts) ==> u in acc || u in ts
    decreases |ts|
  {
    if ts != [] {
      var next := if Holds(acc, ts[0]) then acc else acc + [ts[0]];
      AddTemplatesFrom(next, ts[1..]);
      assert forall u :: u in next ==> u in acc || u == ts[0];
      assert forall u :: u in ts[1..] ==> u in ts;
    }
  }

  /** After `set.update`, the set holds every new template. */
  lemma {:induction false} AddTemplatesHolds(acc: seq<Template>, ts: seq<Template>)
    ensures forall t :: t in ts ==> Holds(AddTemplates(acc, ts), t)
    decreases |ts|
  {
    if ts != [] {
      var next := if Holds(acc, ts[0]) then acc else acc + [ts[0]];
      var r := AddTemplates(next, ts[1..]);
      AddTemplatesHolds(next, ts[1..]);
      var u :| u in next && RenderTemplate(u) == RenderTemplate(ts[0]);
      AddTemplatesKeeps(next, ts[1..]);
      assert u in r;
      assert forall t :: t in ts ==> t == ts[0] || t in ts[1..];
    }
  }

  /** `set.update` keeps the entries pairwise distinct. */
  lemma {:induction false} AddTemplatesSetLike(acc: seq<Template>, ts: seq<Template>)
    requires SetLike(acc)
    ensures SetLike(AddTemplates(acc, ts))
    decreases |ts|
  {
    if ts != [] {
      if !Holds(acc, ts[0]) {
        var next := acc + [ts[0]];
        forall a, b | 0 <= a < b < |next|
          ensures RenderTemplate(next[a]) != RenderTemplate(next[b])
        {
          if b == |acc| {
            assert next[a] in acc;
          }
        }
      }
      AddTemplatesSetLike(if Holds(acc, ts[0]) then acc else acc + [ts[0]], ts[1..]);
    }
  }

  /** Adding two batches one after the other is adding them together. */
  lemma {:induction false} AddTemplatesAppend(acc: seq<Template>, a: seq<Template>, b: seq<Template>)
    ensures AddTemplates(acc, a + b) == AddTemplates(AddTemplates(acc, a), b)
    decreases |a|
  {
    if a != [] {
      var next := if Holds(acc, a[0]) then acc else acc + [a[0]];
      assert (a + b)[0] == a[0] && (a + b)[1..] == a[1..] + b;
      AddTemplatesAppend(next, a[1..], b);
    } else {
      assert a + b == b;
    }
  }

  /**
    Both passes of `Class.__init__` over the members, with the template set
    `templates` collected so far: the renames and the function templates in
    the first pass, the overload marks in the second.
   */
  method GroupMembers(ms: seq<Member>, cn: string, templates: seq<Template>) returns (r: seq<Member>, ts: seq<Template>)
    ensures r == Grouped(ms, cn)
    ensures ts == AddTemplates(templates, FunctionTemplates(ms))
  {
    var rs, groups;
    rs, groups, ts := FileMembers(ms, cn, templates);
    r := MarkShared(rs, groups);
    GroupedIs(ms, cn, r);
  }

  /** The first pass: templates collected, constructors renamed, and `namespace[name]` filled with positions. */
  method FileMembers(ms: seq<Member>, cn: string, templates: seq<Template>)
    returns (rs: seq<Member>, groups: map<string, seq<nat>>, ts: seq<Template>)
    ensures rs == RenamedAll(ms, cn)
    ensures Filed(groups, rs)
    ensures ts == AddTemplates(templates, FunctionTemplates(ms))
  {
    rs, groups, ts := [], map[], templates;
    assert ms[..0] == [];
    for i := 0 to |ms|
      invariant rs == RenamedAll(ms, cn)[..i]
      invariant Filed(groups, rs)
      invariant ts == AddTemplates(templates, FunctionTemplates(ms[..i]))
    {
      var m := ms[i];
      ghost var before := ts;
      if m.Fun? {
        ts := AddTemplates(ts, m.f.templ);
        if m.f.name == cn {
          m := Fun(m.f.(name := "__init__"));
        }
      }
      TemplatesStep(templates, ms, i, before, ts);
      RenamingStep(ms, cn, i, rs, m);
      ghost var old_groups := groups;
      groups := File(groups, m, i);
      FilingStep(rs, m, old_groups, groups);
      rs := rs + [m];
    }
    assert ms[..|ms|] == ms;
  }

  /** `groups` holds, for every name, the positions of the members filed under it, and no other name. */
  ghost predicate Filed(groups: map<string, seq<nat>>, rs: seq<Member>) {
    (forall n :: n in groups ==> groups[n] == IndicesNamed(rs, n)) &&
    (forall n :: n !in groups ==> IndicesNamed(rs, n) == [])
  }

  /** `namespace[member.name].append(member)`, with the member at position `i`; a member without a name is not filed. */
  function File(groups: map<string, seq<nat>>, m: Member, i: nat): (r: map<string, seq<nat>>)
    ensures MemberName(m).None? ==> r == groups
    ensures MemberName(m).Some? ==> r.Keys == groups.Keys + {MemberName(m).value}
  {
    match MemberName(m)
    case None => groups
    case Some(n) => groups[n := (if n in groups then groups[n] else []) + [i]]
  }

  /** The member kept at step `i` is the `i`-th renamed member. */
  lemma RenamingStep(ms: seq<Member>, cn: string, i: nat, rs: seq<Member>, m: Member)
    requires i < |ms|
    requires rs == RenamedAll(ms, cn)[..i]
    requires m == Renamed(ms[i], cn)
    ensures rs + [m] == RenamedAll(ms, cn)[..i + 1]
  {
  }

  /** Filing one more member keeps `groups` equal to the positions of each name. */
  lemma FilingStep(rs: seq<Member>, m: Member, before: map<string, seq<nat>>, after: map<string, seq<nat>>)
    requires Filed(before, rs)
    requires after == File(before, m, |rs|)
    ensures Filed(after, rs + [m])
  {
    forall n | n in after
      ensures after[n] == IndicesNamed(rs + [m], n)
    {
      IndicesNamedSnoc(rs, m, n);
      if MemberName(m) != Some(n) {
        assert n in before && after[n] == before[n];
      }
    }
    forall n | n !in after
      ensures IndicesNamed(rs + [m], n) == []
    {
      IndicesNamedSnoc(rs, m, n);
      assert n !in before && MemberName(m) != Some(n);
    }
  }

  lemma TemplatesStep(templates: seq<Template>, ms: seq<Member>, i: nat, before: seq<Template>, after: seq<Template>)
    requires i < |ms|
    requires before == AddTemplates(templates, FunctionTemplates(ms[..i]))
    requires after == if ms[i].Fun? then AddTemplates(before, ms[i].f.templ) else before
    ensures after == AddTemplates(templates, FunctionTemplates(ms[..i + 1]))
  {
    FunctionTemplatesSnoc(ms, i);
    if ms[i].Fun? {
      AddTemplatesAppend(templates, FunctionTemplates(ms[..i]), ms[i].f.templ);
    } else {
      assert FunctionTemplates(ms[..i + 1]) == FunctionTemplates(ms[..i]);
    }
  }

  lemma GroupedIs(ms: seq<Member>, cn: string, r: seq<Member>)
    requires |r| == |ms|
    requires forall k :: 0 <= k < |ms| ==> r[k] == GroupedAt(RenamedAll(ms, cn), k)
    ensures r == Grouped(ms, cn)
  {
  }

  lemma FunctionTemplatesSnoc(ms: seq<Member>, i: nat)
    requires i < |ms|
    ensures FunctionTemplates(ms[..i + 1]) == FunctionTemplates(ms[..i]) + (if ms[i].Fun? then ms[i].f.templ else [])
  {
    assert ms[..i + 1][..i] == ms[..i];
  }

  lemma IndicesNamedSnoc(rs: seq<Member>, m: Member, n: string)
    ensures IndicesNamed(rs + [m], n) == IndicesNamed(rs, n) + (if MemberName(m) == Some(n) then [|rs|] else [])
  {
    assert (rs + [m])[..|rs|] == rs;
  }

  /** The second pass: every member filed under a name with more than one entry is marked. */
  method MarkShared(rs: seq<Member>, groups: map<string, seq<nat>>) returns (r: seq<Member>)
    requires Filed(groups, rs)
    ensures |r| == |rs|
    ensures forall k :: 0 <= k < |rs| ==> r[k] == GroupedAt(rs, k)
  {
    r := rs;
    var pending := groups.Keys;
    while pending != {}
      invariant pending <= groups.Keys
      invariant |r| == |rs|
      invariant forall k :: 0 <= k < |rs| ==> r[k] == Partial(rs, pending, k)
      decreases |pending|
    {
      var n :| n in pending;
      var idx := groups[n];
      IndicesNamedSpec(rs, n);
      if |idx| > 1 {
        r := MarkGroup(r, rs, n, idx);
      }
      pending := pending - {n};
    }
    forall k | 0 <= k < |rs| && MemberName(rs[k]).Some?
      ensures MemberName(rs[k]).value in groups
    {
      IndicesNamedSpec(rs, MemberName(rs[k]).value);
    }
  }

  /** `for member in members: member.overloaded = True` for the members named `n`, at positions `idx`. */
  method MarkGroup(r0: seq<Member>, rs: seq<Member>, n: string, idx: seq<nat>) returns (r: seq<Member>)
    requires |r0| == |rs|
    requires forall k :: k in idx <==> 0 <= k < |rs| && MemberName(rs[k]) == Some(n)
    ensures |r| == |rs|
    ensures forall k :: 0 <= k < |rs| && MemberName(rs[k]) != Some(n) ==> r[k] == r0[k]
    ensures forall k :: 0 <= k < |rs| && MemberName(rs[k]) == Some(n) ==> r[k] == Marked(rs[k])
  {
    r := r0;
    for j := 0 to |idx|
      invariant |r| == |rs|
      invariant forall k :: 0 <= k < |rs| && MemberName(rs[k]) != Some(n) ==> r[k] == r0[k]
      invariant forall k :: 0 <= k < |rs| && k in idx[..j] ==> r[k] == Marked(rs[k])
    {
      var k := idx[j];
      assert k in idx;
      r := r[k := Marked(rs[k])];
    }
    assert idx[..|idx|] == idx;
  }

  /** Member `k` after the second pass has handled every name outside `pending`. */
  function Partial(rs: seq<Member>, pending: set<string>, k: nat): Member
    requires k < |rs|
  {
    match MemberName(rs[k])
    case Some(n) => if n !in pending && |IndicesNamed(rs, n)| > 1 then Marked(rs[k]) else rs[k]
    case None => rs[k]
  }
}
