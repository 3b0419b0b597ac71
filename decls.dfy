/**
  The declaration entities of the stub generator and their stub text.

  Every entity is a value here.  A `Type` is a sequence of parts (literal
  text or a nested type), an override set by the idiom recognisers and an
  optional resolved target.  The other entities carry the fields their
  `__str__` reads.  A missing `<briefdescription>` leaves the Python object
  without a `brief` attribute, so its `__str__` raises; the renderings return
  `None` for that case.
 */
module Decls {
  import opened Wrappers
  import opened Text
  import opened Xml

  datatype Part = Lit(text: string) | Nested(sub: TypeExpr)

  /** A `Type`: the element it was built from, its parts, its override and its resolved target. */
  datatype TypeExpr = TypeExpr(xml: Option<Element>, parts: seq<Part>, override: string, target: Option<Entity>)

  datatype Param = Param(name: string, typ: TypeExpr, default: Option<string>)

  datatype Template = Template(name: string, ignore: bool)

  datatype Function = Function(
    name: string,
    brief: Option<string>,
    returnt: TypeExpr,
    params: seq<Param>,
    templ: seq<Template>,
    overloaded: bool)

  /** A variable's `type`: a `Type`, or the string `"TypeAlias"` a typedef puts there. */
  datatype VarType = Typed(t: TypeExpr) | AliasTag

  /** A variable's `value`: a literal text (`...`, `enum.auto()`), or the aliased `Type` of a typedef. */
  datatype VarValue = Literal(text: string) | Aliased(t: TypeExpr)

  datatype Variable = Variable(name: string, brief: Option<string>, typ: VarType, value: VarValue)

  datatype Enum = Enum(qualname: string, name: string, brief: Option<string>, strong: bool, values: seq<Variable>)

  /** What `Class.do_iter` yields: a section header line, a declaration, or a nested type. */
  datatype Member = Header(text: string) | Var(v: Variable) | Fun(f: Function) | En(e: Enum) | Sub(t: TypeExpr)

  datatype Class = Class(
    qualname: string,
    name: string,
    brief: Option<string>,
    bases: seq<TypeExpr>,
    kind: string,
    templates: seq<Template>,
    generic: seq<Template>,
    members: seq<Member>)

  /** Everything that can be registered by id or by qualified name. */
  datatype Entity =
    | ParamE(p: Param)
    | TemplateE(tp: Template)
    | FunctionE(f: Function)
    | VariableE(v: Variable)
    | EnumE(en: Enum)
    | ClassE(c: Class)

  /** `name or "???"`: what `qualname` falls back to, since the container is always cleared. */
  function NameOr(name: string): (r: string)
    ensures r != ""
    ensures name != "" ==> r == name
  {
    if name == "" then "???" else name
  }

  /**
    `ParsedElement.qualname`.  Only enums and classes store one; every other
    entity answers with its own name, because its container has been reset.
   */
  function Qualname(e: Entity): (r: string)
    ensures !e.EnumE? && !e.ClassE? ==> r != ""
  {
    match e
    case ParamE(p) => NameOr(p.name)
    case TemplateE(tp) => NameOr(tp.name)
    case FunctionE(f) => NameOr(f.name)
    case VariableE(v) => NameOr(v.name)
    case EnumE(en) => en.qualname
    case ClassE(c) => c.qualname
  }

  /** `Type.__bool__`. */
  predicate Truthy(t: TypeExpr) {
    t.parts != [] || t.override != "" || t.target.Some?
  }

  /** `Type.__str__`: the override, else the target's qualified name, else the parts, else `Any`. */
  function RenderType(t: TypeExpr): (r: string)
    ensures !Truthy(t) ==> r == "Any"
    ensures t.override != "" ==> r == t.override
    decreases t, |t.parts| + 1
  {
    if t.override != "" then t.override
    else if t.target.Some? then Qualname(t.target.value)
    else if t.parts != [] then RenderParts(t, 0)
    else "Any"
  }

  /** The parts of `t` from index `i` on, rendered and concatenated. */
  function RenderParts(t: TypeExpr, i: nat): string
    requires i <= |t.parts|
    decreases t, |t.parts| - i
  {
    if i == |t.parts| then ""
    else
      (match t.parts[i]
       case Lit(s) => s
       case Nested(u) => RenderType(u)) + RenderParts(t, i + 1)
  }

  /** A well-formed type keeps only non-empty text and truthy nested types, as the filter in `Type.__init__` does. */
  predicate WellFormed(t: TypeExpr)
    decreases t, 1
  {
    forall i :: 0 <= i < |t.parts| ==> PartKept(t, i)
  }

  predicate PartKept(t: TypeExpr, i: nat)
    requires i < |t.parts|
    decreases t, 0
  {
    match t.parts[i]
    case Lit(s) => s != ""
    case Nested(u) => Truthy(u) && WellFormed(u)
  }

  /** `Param.__str__`. */
  function RenderParam(p: Param): (r: string)
    ensures StartsWith(r, p.name)
  {
    var typed := if Truthy(p.typ) then [":", RenderType(p.typ)] else [];
    var defaulted := if p.default.Some? && p.default.value != "" then ["=", p.default.value] else [];
    Join([p.name] + typed + defaulted, " ")
  }

  function RenderParams(ps: seq<Param>): (r: seq<string>)
    ensures |r| == |ps|
    ensures forall i :: 0 <= i < |ps| ==> r[i] == RenderParam(ps[i])
  {
    if ps == [] then [] else [RenderParam(ps[0])] + RenderParams(ps[1..])
  }

  /** `Template.__str__`. */
  function RenderTemplate(tp: Template): string {
    if tp.ignore then "# " + tp.name else tp.name + " = TypeVar('" + tp.name + "')"
  }

  function RenderTemplates(ts: seq<Template>): (r: seq<string>)
    ensures |r| == |ts|
    ensures forall k :: 0 <= k < |ts| ==> r[k] == RenderTemplate(ts[k])
  {
    if ts == [] then [] else [RenderTemplate(ts[0])] + RenderTemplates(ts[1..])
  }

  function Docstring(brief: string): string {
    "\"\"\"" + brief + "\"\"\""
  }

  /** The `def` line of `Function.__str__`. */
  function Signature(f: Function): (r: string)
    ensures StartsWith(r, "def " + f.name + "(self")
    ensures EndsWith(r, ") -> " + (if Truthy(f.returnt) then RenderType(f.returnt) else "None") + ":")
  {
    "def " + f.name + "(" + Join(["self"] + RenderParams(f.params), ", ") + ") -> "
      + (if Truthy(f.returnt) then RenderType(f.returnt) else "None") + ":"
  }

  /** `Function.__str__`; `None` when the function has no brief description. */
  function RenderFunction(f: Function): (r: Option<string>)
    ensures r.None? <==> f.brief.None?
  {
    match f.brief
    case None => None
    case Some(b) =>
      Some(Join((if f.overloaded then ["@overload"] else [])
                + [Signature(f)]
                + (if b != "" then ["\t" + Docstring(b)] else [])
                + ["\t..."], "\n"))
  }

  predicate VarTypeTruthy(t: VarType) {
    match t
    case Typed(u) => Truthy(u)
    case AliasTag => true
  }

  function RenderVarType(t: VarType): string {
    match t
    case Typed(u) => RenderType(u)
    case AliasTag => "TypeAlias"
  }

  function RenderValue(v: VarValue): string {
    match v
    case Literal(s) => s
    case Aliased(u) => RenderType(u)
  }

  /** `Variable.__str__`; `None` when the variable has no brief description. */
  function RenderVariable(v: Variable): (r: Option<string>)
    ensures r.None? <==> v.brief.None?
  {
    match v.brief
    case None => None
    case Some(b) =>
      var decl :=
        if VarTypeTruthy(v.typ) then v.name + " : " + RenderVarType(v.typ) + " = " + RenderValue(v.value)
        else v.name + " = " + RenderValue(v.value);
      Some(Join((if b != "" then ["#: " + b] else []) + [decl], "\n"))
  }

  /** The members of an enum rendered and indented by one tab; `None` when one of them cannot be rendered. */
  function RenderValues(vs: seq<Variable>): (r: Option<seq<string>>)
    ensures r.Some? <==> forall k :: 0 <= k < |vs| ==> vs[k].brief.Some?
    ensures r.Some? ==> |r.value| == |vs|
    ensures r.Some? ==> forall k :: 0 <= k < |vs| ==> r.value[k] == Indent(RenderVariable(vs[k]).value, "\t")
  {
    if vs == [] then Some([])
    else
      match (RenderVariable(vs[0]), RenderValues(vs[1..]))
      case (Some(x), Some(xs)) => Some([Indent(x, "\t")] + xs)
      case _ => None
  }

  /** The `class` line of `Enum.__str__`: an `enum.Enum` when strong, else an `enum.IntEnum`. */
  function EnumHeader(e: Enum): (r: string)
    ensures StartsWith(r, "class " + e.name + "(enum.")
    ensures e.strong ==> EndsWith(r, ".Enum):")
    ensures !e.strong ==> EndsWith(r, ".IntEnum):")
  {
    "class " + e.name + (if e.strong then "(enum.Enum):" else "(enum.IntEnum):")
  }

  /** `Enum.__str__`. */
  function RenderEnum(e: Enum): (r: Option<string>)
    ensures r.Some? <==> e.brief.Some? && forall k :: 0 <= k < |e.values| ==> e.values[k].brief.Some?
  {
    match (e.brief, RenderValues(e.values))
    case (Some(b), Some(vs)) =>
      Some(Join([EnumHeader(e)]
                + (if b != "" then ["\t" + Docstring(b)] else [])
                + vs
                + (if e.values == [] then ["\t..."] else []), "\n\n"))
    case _ => None
  }

  /** `str(member)` for what `do_iter` yields. */
  function RenderMember(m: Member): (r: Option<string>)
    ensures m.Header? || m.Sub? ==> r.Some?
    ensures m.Var? ==> (r.None? <==> m.v.brief.None?)
    ensures m.Fun? ==> (r.None? <==> m.f.brief.None?)
    ensures m.En? ==> (r.Some? <==> m.e.brief.Some? && forall k :: 0 <= k < |m.e.values| ==> m.e.values[k].brief.Some?)
  {
    match m
    case Header(s) => Some(s)
    case Var(v) => RenderVariable(v)
    case Fun(f) => RenderFunction(f)
    case En(e) => RenderEnum(e)
    case Sub(t) => Some(RenderType(t))
  }

  /** The name a member is filed under in the class namespace; headers and nested types have none. */
  function MemberName(m: Member): (r: Option<string>)
    ensures r.Some? <==> m.Var? || m.Fun? || m.En?
  {
    match m
    case Var(v) => Some(v.name)
    case Fun(f) => Some(f.name)
    case En(e) => Some(e.name)
    case _ => None
  }

  /** The keys of `Class.namespace`: member names, each once, in order of first appearance. */
  function NamespaceKeys(ms: seq<Member>): (r: seq<string>)
    ensures forall i, j :: 0 <= i < j < |r| ==> r[i] != r[j]
    ensures forall n :: n in r <==> exists k :: 0 <= k < |ms| && MemberName(ms[k]) == Some(n)
  {
    KeysFrom(ms, [])
  }

  function KeysFrom(ms: seq<Member>, acc: seq<string>): (r: seq<string>)
    requires forall i, j :: 0 <= i < j < |acc| ==> acc[i] != acc[j]
    ensures forall i, j :: 0 <= i < j < |r| ==> r[i] != r[j]
    ensures forall n :: n in r <==> n in acc || exists k :: 0 <= k < |ms| && MemberName(ms[k]) == Some(n)
    decreases |ms|
  {
    if ms == [] then acc
    else
      var acc' := match MemberName(ms[0])
                  case Some(n) => if n in acc then acc else acc + [n]
                  case None => acc;
      var r := KeysFrom(ms[1..], acc');
      assert forall n :: (exists k :: 0 <= k < |ms| && MemberName(ms[k]) == Some(n)) <==>
        (MemberName(ms[0]) == Some(n) || exists k :: 0 <= k < |ms[1..]| && MemberName(ms[1..][k]) == Some(n)) by {
        forall n | exists k :: 0 <= k < |ms| && MemberName(ms[k]) == Some(n)
          ensures MemberName(ms[0]) == Some(n) || exists k :: 0 <= k < |ms[1..]| && MemberName(ms[1..][k]) == Some(n)
        {
          var k :| 0 <= k < |ms| && MemberName(ms[k]) == Some(n);
          if k > 0 { assert MemberName(ms[1..][k - 1]) == Some(n); }
        }
      }
      r
  }

  /** `Class.subtypes`: the nested types among the members, in order. */
  function Subtypes(ms: seq<Member>): (r: seq<TypeExpr>)
    ensures forall t :: t in r <==> Sub(t) in ms
  {
    if ms == [] then []
    else (if ms[0].Sub? then [ms[0].t] else []) + Subtypes(ms[1..])
  }

  /** `"%r" % names`: the list display of the names. */
  function ReprList(names: seq<string>): (r: string)
    ensures names == [] ==> r == "[]"
    ensures |names| == 1 ==> r == "[" + Repr(names[0]) + "]"
  {
    "[" + Join(Quote(names), ", ") + "]"
  }

  /** `repr` of every name, in order. */
  function Quote(names: seq<string>): (r: seq<string>)
    ensures |r| == |names|
    ensures forall k :: 0 <= k < |names| ==> r[k] == Repr(names[k])
  {
    if names == [] then [] else [Repr(names[0])] + Quote(names[1..])
  }

  /** The quote `repr` chooses: `"` when the text holds `'` but no `"`, else `'`. */
  function ReprQuote(s: string): char {
    if '\'' in s && '"' !in s then '"' else '\''
  }

  /** The lower-case hex digit `repr` writes for `n`. */
  function HexDigit(n: nat): char
    requires n < 16
  {
    if n < 10 then ('0' as int + n) as char else ('a' as int + n - 10) as char
  }

  /** The value of a hex digit, as the `\x` escape of a string literal reads it. */
  function HexValue(d: char): (r: Option<nat>)
    ensures r.Some? ==> r.value < 16
  {
    if '0' <= d <= '9' then Some(d as int - '0' as int)
    else if 'a' <= d <= 'f' then Some(d as int - 'a' as int + 10)
    else if 'A' <= d <= 'F' then Some(d as int - 'A' as int + 10)
    else None
  }

  /**
    One character as `repr` writes it between quote characters `q`: the
    backslash and `q` escaped, tab, newline and carriage return by name,
    the other ASCII control characters as `\xhh`.
   */
  function Escape(c: char, q: char): string {
    if c == '\\' then "\\\\"
    else if c == q then ['\\', q]
    else if c == '\t' then "\\t"
    else if c == '\n' then "\\n"
    else if c == '\r' then "\\r"
    else if c < ' ' || c == '\U{7F}' then "\\x" + [HexDigit(c as int / 16), HexDigit(c as int % 16)]
    else [c]
  }

  function Escaped(s: string, q: char): string {
    if s == [] then "" else Escape(s[0], q) + Escaped(s[1..], q)
  }

  function Prepend(c: char, o: Option<string>): Option<string> {
    match o
    case None => None
    case Some(t) => Some([c] + t)
  }

  /**
    The text the body of a string literal quoted by `q` stands for, as
    Python reads the escapes `repr` writes: `\\`, `\` + `q`, `\t`, `\n`,
    `\r` and `\xhh`. `None` when a bare `q` would end the literal there,
    or when an escape is cut short or is not one of these.
   */
  function Unescaped(t: string, q: char): Option<string>
    decreases |t|
  {
    if t == [] then Some("")
    else if t[0] == q then None
    else if t[0] != '\\' then Prepend(t[0], Unescaped(t[1..], q))
    else if |t| < 2 then None
    else if t[1] == '\\' || t[1] == q then Prepend(t[1], Unescaped(t[2..], q))
    else if t[1] == 't' then Prepend('\t', Unescaped(t[2..], q))
    else if t[1] == 'n' then Prepend('\n', Unescaped(t[2..], q))
    else if t[1] == 'r' then Prepend('\r', Unescaped(t[2..], q))
    else if t[1] == 'x' && |t| >= 4 && HexValue(t[2]).Some? && HexValue(t[3]).Some? then
      Prepend((HexValue(t[2]).value * 16 + HexValue(t[3]).value) as char, Unescaped(t[4..], q))
    else None
  }

  /** One escaped character reads back as itself, and the reading goes on after it. */
  lemma EscapeReadsBack(c: char, q: char, rest: string)
    requires q == '\'' || q == '"'
    ensures Unescaped(Escape(c, q) + rest, q) == Prepend(c, Unescaped(rest, q))
  {
    var t := Escape(c, q) + rest;
    if c == '\\' || c == q || c == '\t' || c == '\n' || c == '\r' {
      assert t[2..] == rest;
    } else if c < ' ' || c == '\U{7F}' {
      var hi, lo := c as int / 16, c as int % 16;
      assert HexValue(HexDigit(hi)) == Some(hi);
      assert HexValue(HexDigit(lo)) == Some(lo);
      assert t[..4] == ['\\', 'x', HexDigit(hi), HexDigit(lo)] && t[4..] == rest;
    } else {
      assert t[0] == c && t[1..] == rest;
    }
  }

  /**
    Reading the escaped text back gives the text: no quote character in it
    ends the literal early, and no character is lost or changed.
   */
  lemma {:induction false} EscapedReadsBack(s: string, q: char)
    requires q == '\'' || q == '"'
    ensures Unescaped(Escaped(s, q), q) == Some(s)
  {
    if s != [] {
      EscapedReadsBack(s[1..], q);
      EscapeReadsBack(s[0], q, Escaped(s[1..], q));
      assert [s[0]] + s[1..] == s;
    }
  }

  /** Python's `repr` of a string: the escaped text between the chosen quotes. */
  function Repr(s: string): (r: string)
    ensures |r| >= 2 && r[0] == ReprQuote(s) && r[|r| - 1] == ReprQuote(s)
  {
    [ReprQuote(s)] + Escaped(s, ReprQuote(s)) + [ReprQuote(s)]
  }

  /** What `Repr` writes between its quotes reads back, under those quotes, as the text. */
  lemma ReprReadsBack(s: string)
    ensures Unescaped(Repr(s)[1..|Repr(s)| - 1], Repr(s)[0]) == Some(s)
  {
    var q := ReprQuote(s);
    assert Repr(s)[1..|Repr(s)| - 1] == Escaped(s, q);
    EscapedReadsBack(s, q);
  }

  /** A text with no quote, backslash or control character is escaped as itself. */
  lemma {:induction false} EscapedPlain(s: string, q: char)
    requires forall k :: 0 <= k < |s| ==> s[k] != '\\' && s[k] != q && ' ' <= s[k] && s[k] != '\U{7F}'
    ensures Escaped(s, q) == s
  {
    if s != [] {
      EscapedPlain(s[1..], q);
    }
  }

  /** An identifier-like name is written between single quotes, unchanged. */
  lemma ReprPlain(s: string)
    requires forall k :: 0 <= k < |s| ==> s[k] != '\\' && s[k] != '\'' && ' ' <= s[k] && s[k] != '\U{7F}'
    ensures Repr(s) == "'" + s + "'"
  {
    assert '\'' !in s by {
      forall k | 0 <= k < |s| ensures s[k] != '\'' { }
    }
    EscapedPlain(s, '\'');
  }

  /** No character of the text ends the quoted display early: every quote character inside is escaped. */
  lemma {:induction false} EscapedQuotes(s: string, q: char, i: nat)
    requires q == '\'' || q == '"'
    requires i < |Escaped(s, q)| && Escaped(s, q)[i] == q
    ensures i > 0 && Escaped(s, q)[i - 1] == '\\'
  {
    assert s != [];
    var e := Escape(s[0], q);
    if i < |e| {
      assert Escaped(s, q)[i] == e[i];
    } else {
      assert Escaped(s, q)[i] == Escaped(s[1..], q)[i - |e|];
      EscapedQuotes(s[1..], q, i - |e|);
      assert Escaped(s, q)[i - 1] == Escaped(s[1..], q)[i - |e| - 1] by {
        if i - |e| - 1 < 0 {
          assert false;
        }
      }
    }
  }

  /** The nested types `Class.__str__` imports: the truthy ones, in order. */
  function Truthies(subs: seq<TypeExpr>): (r: seq<TypeExpr>)
    ensures |r| <= |subs|
    ensures forall t :: t in r <==> t in subs && Truthy(t)
  {
    if subs == [] then []
    else (if Truthy(subs[0]) then [subs[0]] else []) + Truthies(subs[1..])
  }

  /** The name a nested type is imported by: its rendering cut before `[`. */
  function ImportName(t: TypeExpr): string {
    BeforeFirst(RenderType(t), '[')
  }

  /** The `from ... import *` lines and the `__all__` names the nested types contribute. */
  function Imports(subs: seq<TypeExpr>, qualname: string): (r: (seq<string>, seq<string>))
    ensures |r.0| == |r.1| == |Truthies(subs)|
  {
    if subs == [] then ([], [])
    else
      var rest := Imports(subs[1..], qualname);
      if !Truthy(subs[0]) then rest
      else
        var stn := ImportName(subs[0]);
        (["from " + stn + " import *"] + rest.0, [RemovePrefix(stn, qualname + ".")] + rest.1)
  }

  /**
    One import line and one `__all__` name per truthy nested type, in order:
    `from <name> import *`, and the name without the class's own qualified
    name in front.
   */
  lemma {:induction false} ImportsOfTruthies(subs: seq<TypeExpr>, qualname: string, k: nat)
    requires k < |Truthies(subs)|
    ensures Imports(subs, qualname).0[k] == "from " + ImportName(Truthies(subs)[k]) + " import *"
    ensures Imports(subs, qualname).1[k] == RemovePrefix(ImportName(Truthies(subs)[k]), qualname + ".")
  {
    var rest := Imports(subs[1..], qualname);
    if Truthy(subs[0]) {
      assert Truthies(subs) == [subs[0]] + Truthies(subs[1..]);
      var stn := ImportName(subs[0]);
      assert Imports(subs, qualname) == (["from " + stn + " import *"] + rest.0, [RemovePrefix(stn, qualname + ".")] + rest.1);
      if k > 0 {
        ImportsOfTruthies(subs[1..], qualname, k - 1);
      }
    } else {
      assert Truthies(subs) == Truthies(subs[1..]);
      assert Imports(subs, qualname) == rest;
      ImportsOfTruthies(subs[1..], qualname, k);
    }
  }

  /** The members other than nested types, rendered and indented by `ind`; `None` when one cannot be rendered. */
  function RenderBody(ms: seq<Member>, ind: string): (r: Option<seq<string>>)
    ensures r.Some? ==> |r.value| <= |ms|
    ensures r.Some? <==> forall k :: 0 <= k < |ms| && !ms[k].Sub? ==> RenderMember(ms[k]).Some?
  {
    if ms == [] then Some([])
    else
      match RenderBody(ms[1..], ind)
      case None => None
      case Some(rest) =>
        if ms[0].Sub? then Some(rest)
        else
          match RenderMember(ms[0])
          case None => None
          case Some(x) => Some([Indent(x, ind)] + rest)
  }

  function TemplateNames(ts: seq<Template>): (r: seq<string>)
    ensures |r| == |ts|
    ensures forall k :: 0 <= k < |ts| ==> r[k] == ts[k].name
  {
    if ts == [] then [] else [ts[0].name] + TemplateNames(ts[1..])
  }

  function RenderTypes(ts: seq<TypeExpr>): (r: seq<string>)
    ensures |r| == |ts|
    ensures forall k :: 0 <= k < |ts| ==> r[k] == RenderType(ts[k])
  {
    if ts == [] then [] else [RenderType(ts[0])] + RenderTypes(ts[1..])
  }

  /** The `class ...:` line of a class that is not a namespace. */
  function ClassLine(c: Class): string {
    var bases := RenderTypes(c.bases)
      + (if c.generic != [] then ["Generic[" + Join(TemplateNames(c.generic), ", ") + "]"] else []);
    "class " + c.name + "(" + (if bases != [] then Join(bases, ", ") else "object") + "):"
  }

  /** `Class.__str__`; a namespace is rendered at module level without a class line. */
  function RenderClass(c: Class): (r: Option<string>)
    ensures r.Some? <==> c.brief.Some? && forall k :: 0 <= k < |c.members| && !c.members[k].Sub? ==> RenderMember(c.members[k]).Some?
  {
    var namespace := c.kind == "namespace";
    var imports := Imports(Subtypes(c.members), c.qualname);
    var all := imports.1 + (if namespace then NamespaceKeys(c.members) else [c.name]);
    var ind := if namespace then "" else "\t";
    var head := imports.0 + ["__all__ = " + ReprList(all)]
      + (if namespace then [] else RenderTemplates(c.templates) + [ClassLine(c)]);
    match (c.brief, RenderBody(c.members, ind))
    case (Some(b), Some(body)) =>
      Some(Join(head
                + (if b != "" then [Indent(Docstring(b), ind)] else [])
                + body
                + (if c.members == [] then [ind + "..."] else []), "\n\n"))
    case _ => None
  }

  /** `str(entity)` for every entity. */
  function Render(e: Entity): Option<string> {
    match e
    case ParamE(p) => Some(RenderParam(p))
    case TemplateE(tp) => Some(RenderTemplate(tp))
    case FunctionE(f) => RenderFunction(f)
    case VariableE(v) => RenderVariable(v)
    case EnumE(en) => RenderEnum(en)
    case ClassE(c) => RenderClass(c)
  }

  /** No target anywhere in the type: what `Type.__init__` builds, before any resolution. */
  predicate Unbound(t: TypeExpr)
    decreases t, 1
  {
    t.target.None? && forall i :: 0 <= i < |t.parts| ==> PartUnbound(t, i)
  }

  predicate PartUnbound(t: TypeExpr, i: nat)
    requires i < |t.parts|
    decreases t, 0
  {
    t.parts[i].Nested? ==> Unbound(t.parts[i].sub)
  }

  /**
    A type built from XML never renders as empty text: a falsy one is `Any`,
    and the filter keeps only parts that render as something.
   */
  lemma {:induction false} BuiltTypeRendersSomething(t: TypeExpr)
    requires WellFormed(t) && Unbound(t)
    ensures RenderType(t) != ""
    decreases t, 1
  {
    if t.override == "" && t.parts != [] {
      FirstPartRendersSomething(t);
    }
  }

  lemma {:induction false} FirstPartRendersSomething(t: TypeExpr)
    requires WellFormed(t) && Unbound(t) && t.parts != []
    ensures RenderParts(t, 0) != ""
    decreases t, 0
  {
    assert PartKept(t, 0) && PartUnbound(t, 0);
    match t.parts[0]
    case Lit(s) =>
    case Nested(u) =>
      BuiltTypeRendersSomething(u);
  }

  /** `@overload` opens a function's stub exactly when the function is overloaded. */
  lemma OverloadMarker(f: Function)
    requires f.brief.Some?
    ensures StartsWith(RenderFunction(f).value, "@overload\n") <==> f.overloaded
  {
    var r := RenderFunction(f).value;
    var rest := [Signature(f)] + (if f.brief.value != "" then ["\t" + Docstring(f.brief.value)] else []) + ["\t..."];
    if f.overloaded {
      var all := ["@overload"] + [Signature(f)] + (if f.brief.value != "" then ["\t" + Docstring(f.brief.value)] else []) + ["\t..."];
      assert r == Join(all, "\n");
      assert all[0] == "@overload" && all[1..] == rest;
      assert r == "@overload" + "\n" + Join(rest, "\n");
    } else {
      assert StartsWith(r, Signature(f));
      PrefixClash(r, Signature(f), "@overload\n", 0);
    }
  }

  /** Two texts that differ at index `k` cannot both open `r`. */
  lemma PrefixClash(r: string, a: string, b: string, k: nat)
    requires k < |a| && k < |b| && a[k] != b[k]
    ensures !StartsWith(r, a) || !StartsWith(r, b)
  {
    if |a| <= |r| && |b| <= |r| {
      assert r[..|a|][k] == r[k] && r[..|b|][k] == r[k];
    }
  }

  /** No text starts with both the `enum.Enum` and the `enum.IntEnum` class line. */
  lemma ClassLinesClash(r: string, name: string)
    ensures !StartsWith(r, "class " + name + "(enum.Enum):") || !StartsWith(r, "class " + name + "(enum.IntEnum):")
  {
    var strong := "class " + name + "(enum.Enum):";
    var weak := "class " + name + "(enum.IntEnum):";
    var k := |"class " + name| + 6;
    assert strong[k] == 'E' && weak[k] == 'I';
    PrefixClash(r, strong, weak, k);
  }

  /** `Enum.__str__` starts with the `class` line. */
  lemma EnumStartsWithHeader(e: Enum)
    requires RenderEnum(e).Some?
    ensures StartsWith(RenderEnum(e).value, EnumHeader(e))
  {
  }

  /** A strong enum derives from `enum.Enum`, any other one from `enum.IntEnum`. */
  lemma EnumBase(e: Enum)
    requires RenderEnum(e).Some?
    ensures StartsWith(RenderEnum(e).value, "class " + e.name + "(enum.Enum):") <==> e.strong
    ensures StartsWith(RenderEnum(e).value, "class " + e.name + "(enum.IntEnum):") <==> !e.strong
  {
    EnumStartsWithHeader(e);
    ClassLinesClash(RenderEnum(e).value, e.name);
  }

  /** An enum without members and with an empty brief renders as its header and an ellipsis. */
  lemma EmptyEnum(e: Enum)
    requires e.values == [] && e.brief == Some("")
    ensures RenderEnum(e) == Some(EnumHeader(e) + "\n\n\t...")
  {
    assert RenderValues(e.values) == Some([]);
    var lines := [EnumHeader(e)] + [] + [] + ["\t..."];
    assert RenderEnum(e) == Some(Join(lines, "\n\n"));
    assert lines == [EnumHeader(e), "\t..."];
    assert Join(lines, "\n\n") == EnumHeader(e) + "\n\n" + Join(lines[1..], "\n\n");
    assert lines[1..] == ["\t..."];
    assert EnumHeader(e) + "\n\n" + "\t..." == EnumHeader(e) + "\n\n\t...";
  }

  /** An empty class: its name exported, `object` as its base, `...` as its body. */
  lemma EmptyClass(c: Class)
    requires c.kind != "namespace" && c.members == [] && c.bases == [] && c.generic == []
    requires c.templates == [] && c.brief == Some("")
    ensures RenderClass(c) == Some(("__all__ = [" + Repr(c.name) + "]") + "\n\n" + ("class " + c.name + "(object):") + "\n\n" + "\t...")
  {
    EmptyClassLines(c);
    JoinThree("__all__ = [" + Repr(c.name) + "]", "class " + c.name + "(object):", "\t...", "\n\n");
  }

  lemma EmptyClassLines(c: Class)
    requires c.kind != "namespace" && c.members == [] && c.bases == [] && c.generic == []
    requires c.templates == [] && c.brief == Some("")
    ensures RenderClass(c) == Some(Join(["__all__ = [" + Repr(c.name) + "]", "class " + c.name + "(object):", "\t..."], "\n\n"))
  {
    var all := "__all__ = [" + Repr(c.name) + "]";
    var line := "class " + c.name + "(object):";
    assert ReprList([c.name]) == "[" + Repr(c.name) + "]";
    assert ClassLine(c) == line by {
      assert RenderTypes(c.bases) == [];
    }
    assert Imports(Subtypes(c.members), c.qualname) == ([], []);
    assert RenderTemplates(c.templates) == [];
    assert RenderBody(c.members, "\t") == Some([]);
    var head := [] + ["__all__ = " + ReprList([] + [c.name])] + (RenderTemplates(c.templates) + [ClassLine(c)]);
    assert [] + [c.name] == [c.name];
    assert "__all__ = " + ("[" + Repr(c.name) + "]") == all;
    assert head == [all, line];
    assert "\t" + "..." == "\t...";
    assert head + [] + [] + ["\t" + "..."] == [all, line, "\t..."];
  }

  lemma JoinThree(a: string, b: string, c: string, sep: string)
    ensures Join([a, b, c], sep) == a + sep + b + sep + c
  {
    assert [a, b, c][1..] == [b, c];
    assert [b, c][1..] == [c];
  }
}
