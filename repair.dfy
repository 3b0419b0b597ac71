/**
  The repair loop of `ParsedElement.check` and the renames it may apply.

  An entity's stub text is tried against a parser (`ast.parse` in the
  program, the parameter `valid` here).  While it is rejected, the entity's
  `fix1`, `fix2`, ... are applied in turn; when the attempt number has no
  fix left, the failure is raised.  Every fix only changes the entity's name.
 */
module Fixes {
  import opened Wrappers
  import opened Text
  import opened TokenTranslator
  import opened Decls

  /** How many `fixN` methods each kind of entity defines. */
  function FixCount(e: Entity): nat {
    match e
    case ParamE(_) => 1
    case TemplateE(_) => 1
    case FunctionE(_) => 5
    case VariableE(_) => 3
    case EnumE(_) => 0
    case ClassE(_) => 0
  }

  /** `"__" + core + "__"`: the form of every name the operator table holds. */
  function Dunder(core: string): (r: string)
    ensures IsDunder(r)
  {
    "__" + core + "__"
  }

  /**
    The `renames` dictionary of `Function.fix1`: the Python name it holds for
    an operator name, or `None` when the name is not one of its keys.  Every
    key is `operator` followed by the operator's symbol, so the table is
    written as that prefix and then one case per symbol.
   */
  function OperatorRename(name: string): (r: Option<string>)
    ensures r.Some? ==> StartsWith(name, "operator") && IsDunder(r.value)
  {
    if !StartsWith(name, "operator") then None
    else match name[|"operator"|..]
      case "+" => Some(Dunder("add"))
      case "-" => Some(Dunder("sub"))
      case "*" => Some(Dunder("mul"))
      case "++" => Some(Dunder("preinc"))
      case "--" => Some(Dunder("predec"))
      case "[]" => Some(Dunder("getitem"))
      case "()" => Some(Dunder("call"))
      case "%" => Some(Dunder("mod"))
      case "**" => Some(Dunder("pow"))
      case "<<" => Some(Dunder("lshift"))
      case ">>" => Some(Dunder("rshift"))
      case "&" => Some(Dunder("and"))
      case "&&" => Some(Dunder("dand"))
      case "|" => Some(Dunder("or"))
      case "||" => Some(Dunder("dor"))
      case "^" => Some(Dunder("xor"))
      case "~" => Some(Dunder("invert"))
      case "," => Some(Dunder("comma"))
      case "+=" => Some(Dunder("iadd"))
      case "-=" => Some(Dunder("isub"))
      case "*=" => Some(Dunder("imul"))
      case "/=" => Some(Dunder("idiv"))
      case "%=" => Some(Dunder("imod"))
      case "**=" => Some(Dunder("ipow"))
      case "<<=" => Some(Dunder("ilshift"))
      case ">>=" => Some(Dunder("irshift"))
      case "&=" => Some(Dunder("iand"))
      case "|=" => Some(Dunder("ior"))
      case "^=" => Some(Dunder("ixor"))
      case "==" => Some(Dunder("eq"))
      case "!=" => Some(Dunder("ne"))
      case ">" => Some(Dunder("gt"))
      case "<" => Some(Dunder("lt"))
      case ">=" => Some(Dunder("ge"))
      case "<=" => Some(Dunder("le"))
      case "->" => Some(Dunder("follow"))
      case "=" => Some(Dunder("assign"))
      case _ => None
  }

  /** The single parameter has a type that compares equal to `"int"`, which `Type` does by its rendering. */
  predicate IntParam(params: seq<Param>) {
    |params| == 1 && RenderType(params[0].typ) == "int"
  }

  /** `Function.fix1`: C++ operator names to Python dunder names. */
  function OperatorFix(name: string, params: seq<Param>): (r: string)
    ensures r == name || IsDunder(r)
  {
    var n := ArityRename(name, params);
    match OperatorRename(n)
    case Some(r) => r
    case None => n
  }

  /** The arity-dependent cases of `Function.fix1`, checked one after the other. */
  function ArityRename(name: string, params: seq<Param>): (r: string)
    ensures r == name || IsDunder(r)
  {
    var n1 := if name == "operator+" && |params| == 0 then "__pos__" else name;
    var n2 := if n1 == "operator-" && |params| == 0 then "__neg__" else n1;
    var n3 := if n2 == "operator*" && |params| == 0 then "__deref__" else n2;
    var n4 := if n3 == "operator++" && IntParam(params) then "__postinc__" else n3;
    if n4 == "operator--" && IntParam(params) then "__postdec__" else n4
  }

  /** `Function.fix2`: a conversion operator `operator T` becomes `__T__`, with `T` translated. */
  function ConversionFix(name: string): (r: string)
    ensures BeforeFirst(name, ' ') != "operator" || AfterFirst(name, ' ') == "" ==> r == name
  {
    var op := BeforeFirst(name, ' ');
    var tp := AfterFirst(name, ' ');
    if op == "operator" && tp != "" then "__" + SimpleParse(Some(tp)) + "__" else name
  }

  /** `Function.fix3`: every destructor is called `__destruct__`. */
  function DestructorFix(name: string): (r: string)
    ensures StartsWith(name, "~") ==> r == "__destruct__"
    ensures !StartsWith(name, "~") ==> r == name
  {
    if StartsWith(name, "~") then "__destruct__" else name
  }

  /** `"_" + name`. */
  function Underscored(name: string): (r: string)
    ensures |r| == |name| + 1 && r[0] == '_' && r[1..] == name
  {
    "_" + name
  }

  /** `re.sub("[^a-zA-Z]", "", name[1:])`. */
  function LettersAfterFirst(name: string): (r: string)
    ensures forall c :: c in r ==> IsAsciiLetter(c)
    ensures |r| < |name| || name == ""
  {
    if name == "" then "" else LettersOnly(name[1..])
  }

  function NameOf(e: Entity): string {
    match e
    case ParamE(p) => p.name
    case TemplateE(tp) => tp.name
    case FunctionE(f) => f.name
    case VariableE(v) => v.name
    case EnumE(en) => en.name
    case ClassE(c) => c.name
  }

  /** `e` with its name replaced and everything else kept. */
  function WithName(e: Entity, n: string): (r: Entity)
    ensures NameOf(r) == n
  {
    match e
    case ParamE(p) => ParamE(p.(name := n))
    case TemplateE(tp) => TemplateE(tp.(name := n))
    case FunctionE(f) => FunctionE(f.(name := n))
    case VariableE(v) => VariableE(v.(name := n))
    case EnumE(en) => EnumE(en.(name := n))
    case ClassE(c) => ClassE(c.(name := n))
  }

  /** `fixI` of the entity's class; an attempt number with no `fixI` leaves the entity as it is. */
  function ApplyFix(e: Entity, i: nat): (r: Entity)
    ensures r == WithName(e, NameOf(r))
    ensures i < 1 || i > FixCount(e) ==> r == e
  {
    var n := NameOf(e);
    if i < 1 || i > FixCount(e) then
      assert e == WithName(e, n) by { SameName(e); }
      e
    else
      match e
      case FunctionE(f) =>
        WithName(e, if i == 1 then OperatorFix(n, f.params)
                    else if i == 2 then ConversionFix(n)
                    else if i == 3 then DestructorFix(n)
                    else if i == 4 then Underscored(n)
                    else LettersAfterFirst(n))
      case VariableE(_) =>
        WithName(e, if i == 2 then LettersAfterFirst(n) else Underscored(n))
      case _ => WithName(e, Underscored(n))
  }

  /** Renaming an entity to its own name gives it back. */
  lemma SameName(e: Entity)
    ensures WithName(e, NameOf(e)) == e
  {
  }

  /** Renaming twice is renaming once. */
  lemma SameExceptName(e: Entity, prev: Entity, n: string)
    requires prev == WithName(e, NameOf(prev))
    ensures WithName(prev, n) == WithName(e, n)
  {
  }

  /**
    `e` after `fix(_, 1)`, ..., `fix(_, k)`, applied in that order; `fix(x, i)`
    stands for `x.fixI()`, which `check` looks up by its number.
   */
  function Fixed(e: Entity, fix: (Entity, nat) -> Entity, k: nat): Entity
    decreases k
  {
    if k == 0 then e else fix(Fixed(e, fix, k - 1), k)
  }

  /** The entity after its own `fix1` ... `fixK`: only its name has changed. */
  function Repaired(e: Entity, k: nat): (r: Entity)
    ensures r == WithName(e, NameOf(r))
    ensures FixCount(r) == FixCount(e)
  {
    RepairedRenames(e, k);
    Fixed(e, ApplyFix, k)
  }

  lemma {:induction false} RepairedRenames(e: Entity, k: nat)
    ensures Fixed(e, ApplyFix, k) == WithName(e, NameOf(Fixed(e, ApplyFix, k)))
    decreases k
  {
    if k == 0 {
      SameName(e);
    } else {
      RepairedRenames(e, k - 1);
      var prev := Fixed(e, ApplyFix, k - 1);
      SameExceptName(e, prev, NameOf(ApplyFix(prev, k)));
    }
  }

  /** A parameter or a template ends its repair with its own name or with `_` in front of it. */
  lemma OneFixNames(e: Entity, k: nat)
    requires e.ParamE? || e.TemplateE?
    requires k <= FixCount(e)
    ensures NameOf(Repaired(e, k)) == NameOf(e) || NameOf(Repaired(e, k)) == "_" + NameOf(e)
  {
    if k == 1 {
      assert Fixed(e, ApplyFix, 1) == ApplyFix(e, 1);
    }
  }

  /** The stub text of `e` exists and the parser accepts it. */
  predicate Accepts(valid: string -> bool, e: Entity) {
    Render(e).Some? && valid(Render(e).value)
  }

  /** The parser's verdict on an entity, as a function. */
  function Verdict(valid: string -> bool): Entity -> bool {
    e => Accepts(valid, e)
  }

  /** Where `check` stops: the entity at that point, the attempt number, and whether it was accepted. */
  datatype Outcome = Outcome(entity: Entity, attempt: nat, ok: bool)

  /** The verdict on the entity after `fix1` ... `fixK`, for every `k` from 0 to `n`. */
  function Verdicts(e: Entity, accepts: Entity -> bool, fix: (Entity, nat) -> Entity, n: nat): (bs: seq<bool>)
    ensures |bs| == n + 1
    ensures forall k :: 0 <= k < |bs| ==> bs[k] == accepts(Fixed(e, fix, k))
  {
    seq(n + 1, k requires 0 <= k <= n => accepts(Fixed(e, fix, k)))
  }

  /** The first index from `i` on that holds `true`, or the last index when none does. */
  function FirstTrue(bs: seq<bool>, i: nat): (j: nat)
    requires i < |bs|
    ensures i <= j < |bs|
    ensures bs[j] || j == |bs| - 1
    ensures forall k :: i <= k < j ==> !bs[k]
    decreases |bs| - i
  {
    if bs[i] || i == |bs| - 1 then i else FirstTrue(bs, i + 1)
  }

  /** An index that satisfies the contract of `FirstTrue` is the one it returns. */
  lemma {:induction false} FirstTrueIs(bs: seq<bool>, i: nat, j: nat)
    requires i <= j < |bs|
    requires bs[j] || j == |bs| - 1
    requires forall k :: i <= k < j ==> !bs[k]
    ensures FirstTrue(bs, i) == j
    decreases j - i
  {
    if i < j {
      FirstTrueIs(bs, i + 1, j);
    }
  }

  /**
    `check` as a value, for an entity with `n` fixes: the first accepted
    attempt, or the failure at attempt `n + 1`, where no `fixN` is left.
   */
  function Repair(e: Entity, accepts: Entity -> bool, fix: (Entity, nat) -> Entity, n: nat): (r: Outcome)
    ensures 1 <= r.attempt <= n + 1
    ensures r.entity == Fixed(e, fix, r.attempt - 1)
    ensures r.ok <==> accepts(r.entity)
    ensures !r.ok ==> r.attempt == n + 1
    ensures forall k :: 0 <= k < r.attempt - 1 ==> !accepts(Fixed(e, fix, k))
  {
    var bs := Verdicts(e, accepts, fix, n);
    var j := FirstTrue(bs, 0);
    Outcome(Fixed(e, fix, j), j + 1, bs[j])
  }

  /**
    `Repair` is characterised by its contract: an attempt that is accepted,
    or the last one, with every earlier attempt rejected, is the one it picks.
   */
  lemma {:induction false} RepairIs(e: Entity, accepts: Entity -> bool, fix: (Entity, nat) -> Entity, n: nat, i: nat)
    requires 1 <= i <= n + 1
    requires accepts(Fixed(e, fix, i - 1)) || i == n + 1
    requires forall k :: 0 <= k < i - 1 ==> !accepts(Fixed(e, fix, k))
    ensures Repair(e, accepts, fix, n) == Outcome(Fixed(e, fix, i - 1), i, accepts(Fixed(e, fix, i - 1)))
  {
    var bs := Verdicts(e, accepts, fix, n);
    FirstTrueIs(bs, 0, i - 1);
  }

  /**
    The loop of `ParsedElement.check`: render, parse, and on failure apply
    the fix numbered like the attempt, until the parser accepts or no fix is left.
   */
  method Check(e: Entity, accepts: Entity -> bool, fix: (Entity, nat) -> Entity, n: nat) returns (r: Outcome)
    ensures r == Repair(e, accepts, fix, n)
  {
    var cur := e;
    var i := 1;
    while !accepts(cur) && i <= n
      invariant 1 <= i <= n + 1
      invariant cur == Fixed(e, fix, i - 1)
      invariant forall k :: 0 <= k < i - 1 ==> !accepts(Fixed(e, fix, k))
      decreases n + 1 - i
    {
      cur := fix(cur, i);
      i := i + 1;
    }
    RepairIs(e, accepts, fix, n, i);
    r := Outcome(cur, i, accepts(cur));
  }

  /** A name of the form `__x__`. */
  predicate IsDunder(n: string) {
    |n| >= 4 && n[0] == '_' && n[1] == '_' && n[|n| - 2] == '_' && n[|n| - 1] == '_'
  }

  /** `Function.fix1` on the operators that mean something else without arguments. */
  lemma OperatorFixNoArgs(name: string, params: seq<Param>)
    ensures |params| == 0 && name == "operator+" ==> OperatorFix(name, params) == "__pos__"
    ensures |params| == 0 && name == "operator-" ==> OperatorFix(name, params) == "__neg__"
    ensures |params| == 0 && name == "operator*" ==> OperatorFix(name, params) == "__deref__"
  {
  }

  /** `Function.fix1` on `++` and `--` with a single `int` parameter: the postfix forms. */
  lemma OperatorFixIncrements(name: string, params: seq<Param>)
    ensures IntParam(params) && name == "operator++" ==> OperatorFix(name, params) == "__postinc__"
    ensures IntParam(params) && name == "operator--" ==> OperatorFix(name, params) == "__postdec__"
  {
  }

  /** `Function.fix1` otherwise falls through to the table: `+` with arguments adds, `++` without an `int` is prefix. */
  lemma OperatorFixTable(name: string, params: seq<Param>)
    ensures |params| > 0 && name == "operator+" ==> OperatorFix(name, params) == "__add__"
    ensures !IntParam(params) && name == "operator++" ==> OperatorFix(name, params) == "__preinc__"
  {
  }

  /** `Function.fix1` keeps a name that is no operator of the table. */
  lemma OperatorFixKeeps(name: string, params: seq<Param>)
    ensures OperatorRename(name).None? ==> OperatorFix(name, params) == name
  {
  }

  /** Every value of the operator table is a dunder name, and no dunder name is one of its keys. */
  lemma RenamesAreFinal()
    ensures forall n :: OperatorRename(n).Some? ==> IsDunder(OperatorRename(n).value)
    ensures forall n :: IsDunder(n) ==> OperatorRename(n).None?
  {
    forall n | IsDunder(n)
      ensures OperatorRename(n).None?
    {
      assert n[0] != "operator"[0];
    }
  }

  /** The arity cases yield dunder names, and leave a name that starts with `_` alone. */
  lemma ArityRenameShape(name: string, params: seq<Param>)
    ensures ArityRename(name, params) == name || IsDunder(ArityRename(name, params))
    ensures |name| > 0 && name[0] == '_' ==> ArityRename(name, params) == name
  {
    if |name| > 0 && name[0] == '_' {
      assert name != "operator+" && name != "operator-" && name != "operator*";
      assert name != "operator++" && name != "operator--";
    }
  }

  /** `Function.fix1` either keeps the name or produces a dunder name, and a second `fix1` changes nothing. */
  lemma {:induction false} OperatorFixIdempotent(name: string, params: seq<Param>)
    ensures OperatorFix(name, params) == name || IsDunder(OperatorFix(name, params))
    ensures OperatorFix(OperatorFix(name, params), params) == OperatorFix(name, params)
  {
    RenamesAreFinal();
    ArityRenameShape(name, params);
    var n := ArityRename(name, params);
    var r := OperatorFix(name, params);
    ArityRenameShape(r, params);
    if IsDunder(r) {
      assert OperatorRename(r).None?;
    } else {
      assert r == n && n == name;
    }
  }

  /** `Function.fix2` leaves its own output alone. */
  lemma {:induction false} ConversionFixIdempotent(name: string)
    ensures ConversionFix(ConversionFix(name)) == ConversionFix(name)
  {
    var r := ConversionFix(name);
    if r != name {
      assert r[0] == '_';
      assert BeforeFirst(r, ' ') != "operator" by {
        var b := BeforeFirst(r, ' ');
        assert StartsWith(r, b);
        if |b| == |"operator"| {
          assert b[0] == r[0];
        }
      }
    }
  }

  /** Without a brief description the stub text cannot be produced, so `check` always runs out of fixes. */
  lemma {:induction false} NoBriefNeverAccepted(e: Entity, valid: string -> bool)
    ensures Undocumented(e) ==>
      var r := Repair(e, Verdict(valid), ApplyFix, FixCount(e));
      !r.ok && r.attempt == FixCount(e) + 1
  {
    if Undocumented(e) {
      var r := Repair(e, Verdict(valid), ApplyFix, FixCount(e));
      RepairedRenames(e, r.attempt - 1);
      assert r.entity == WithName(e, NameOf(r.entity));
      assert Render(r.entity).None?;
    }
  }

  /** A declaration whose element had no `<briefdescription>`, so its object never got a `brief`. */
  predicate Undocumented(e: Entity) {
    match e
    case FunctionE(f) => f.brief.None?
    case VariableE(v) => v.brief.None?
    case EnumE(en) => en.brief.None?
    case ClassE(c) => c.brief.None?
    case _ => false
  }
}
