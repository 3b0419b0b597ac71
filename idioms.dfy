/**
  The idiom recognisers of `Type.__init__`: once the parts of a type are
  assembled into one text, four patterns may each set the type's override.
  They run in a fixed order and do not short-circuit, so a later match
  replaces an earlier one: `conditional`, `enable_if`, `function`, and the
  catch-all for text that cannot be a Python type.

  The two regular expressions are anchored at the start of the text
  (`re.match`) and use greedy `.*` groups; `.` does not match a line break,
  so the whole match lies on the first line.  Backtracking from the longest
  choices makes the closing `].type` the last one on that line and each
  comma the last one before the next delimiter.
 */
module Idioms {
  import opened Wrappers
  import opened Text
  import opened TokenTranslator

  /** How far a run of the regex `.` can reach: the index of the first `\n`, or `|t|`. */
  function DotRunEnd(t: string): (n: nat)
    ensures n <= |t|
  {
    |BeforeFirst(t, '\n')|
  }

  /** No line break comes before `DotRunEnd`. */
  lemma DotRunEndIsFirstBreak(t: string)
    ensures forall k :: 0 <= k < DotRunEnd(t) ==> t[k] != '\n'
  {
    var b := BeforeFirst(t, '\n');
    forall k | 0 <= k < |b|
      ensures t[k] != '\n'
    {
      assert t[..|b|][k] == b[k];
      assert b[k] in b;
    }
  }

  /** `(std\.)?name` at the start of `t`. */
  predicate OpensWith(t: string, name: string) {
    StartsWith(t, "std." + name) || StartsWith(t, name)
  }

  /**
    `(std\.)?name *\[` at the start of `t`: the index just after the `[`.
   */
  function OpenIdiom(t: string, name: string): (r: Option<nat>)
    ensures r.Some? ==> 0 < r.value <= |t| && t[r.value - 1] == '['
    ensures r.Some? ==> OpensWith(t, name)
  {
    var k := if StartsWith(t, "std." + name) then 4 + |name|
             else if StartsWith(t, name) then |name| else 0;
    if k == 0 then None
    else
      var b := BlanksFrom(t, k);
      if b < |t| && t[b] == '[' then Some(b + 1) else None
  }

  predicate SuffixAt(t: string, p: nat) {
    p + 6 <= |t| && t[p..p + 6] == "].type"
  }

  /** The last occurrence of `].type` lying wholly inside `t[lo..hi]`. */
  function LastSuffix(t: string, lo: nat, hi: nat): (r: Option<nat>)
    requires lo <= hi <= |t|
    ensures r.Some? ==> lo <= r.value && r.value + 6 <= hi && SuffixAt(t, r.value)
    decreases hi
  {
    if hi < lo + 6 then None
    else if SuffixAt(t, hi - 6) then Some(hi - 6)
    else LastSuffix(t, lo, hi - 1)
  }

  /** `LastSuffix` finds the last occurrence, and misses none. */
  lemma {:induction false} LastSuffixIsLast(t: string, lo: nat, hi: nat)
    requires lo <= hi <= |t|
    ensures LastSuffix(t, lo, hi).Some? ==> forall p :: LastSuffix(t, lo, hi).value < p && p + 6 <= hi ==> !SuffixAt(t, p)
    ensures LastSuffix(t, lo, hi).None? ==> forall p :: lo <= p && p + 6 <= hi ==> !SuffixAt(t, p)
    decreases hi
  {
    if hi >= lo + 6 && !SuffixAt(t, hi - 6) {
      LastSuffixIsLast(t, lo, hi - 1);
    }
  }

  /** The last comma inside `t[lo..hi]`. */
  function LastComma(t: string, lo: nat, hi: nat): (r: Option<nat>)
    requires lo <= hi <= |t|
    ensures r.Some? ==> lo <= r.value < hi && t[r.value] == ','
    decreases hi
  {
    if hi == lo then None
    else if t[hi - 1] == ',' then Some(hi - 1)
    else LastComma(t, lo, hi - 1)
  }

  /** `LastComma` finds the last comma, and misses none. */
  lemma {:induction false} LastCommaIsLast(t: string, lo: nat, hi: nat)
    requires lo <= hi <= |t|
    ensures LastComma(t, lo, hi).Some? ==> forall k :: LastComma(t, lo, hi).value < k < hi ==> t[k] != ','
    ensures LastComma(t, lo, hi).None? ==> forall k :: lo <= k < hi ==> t[k] != ','
    decreases hi
  {
    if hi > lo && t[hi - 1] != ',' {
      LastCommaIsLast(t, lo, hi - 1);
    }
  }

  /** The two positions that bound the last group of either pattern: its opening comma and the `]` of `].type`. */
  function LastGroup(t: string, lo: nat): (r: Option<(nat, nat)>)
    requires lo <= |t|
    ensures r.Some? ==> lo <= r.value.0 < r.value.1 && r.value.1 + 6 <= DotRunEnd(t)
    ensures r.Some? ==> t[r.value.0] == ',' && SuffixAt(t, r.value.1)
  {
    var l := DotRunEnd(t);
    if l < lo then None
    else
      match LastSuffix(t, lo, l)
      case None => None
      case Some(p) =>
        match LastComma(t, lo, p)
        case None => None
        case Some(c) => Some((c, p))
  }

  /**
    `re.match(r"(std\.)?conditional *\[(.*),(?P<true>.*),(?P<false>.*)\]\.type", t)`:
    the `true` and `false` groups when it matches.
   */
  function Conditional(t: string): (r: Option<(string, string)>)
    ensures r.Some? ==> OpensWith(t, "conditional")
  {
    match ConditionalBounds(t)
    case None => None
    case Some((c1, c2, p)) => Some((t[c1 + 1..c2], t[c2 + 1..p]))
  }

  /** The groups of a `conditional` match lie on the first line. */
  lemma ConditionalOneLine(t: string)
    ensures Conditional(t).Some? ==> '\n' !in Conditional(t).value.0 && '\n' !in Conditional(t).value.1
  {
    if ConditionalBounds(t).Some? {
      var (c1, c2, p) := ConditionalBounds(t).value;
      NoBreakBetween(t, c1 + 1, c2);
      NoBreakBetween(t, c2 + 1, p);
    }
  }

  /** The two commas and the `]` of `].type` that delimit the groups of a `conditional` match. */
  function ConditionalBounds(t: string): (r: Option<(nat, nat, nat)>)
    ensures r.Some? ==> OpensWith(t, "conditional")
    ensures r.Some? ==> r.value.0 < r.value.1 < r.value.2 && r.value.2 + 6 <= DotRunEnd(t)
    ensures r.Some? ==> t[r.value.0] == ',' && t[r.value.1] == ',' && SuffixAt(t, r.value.2)
  {
    match OpenIdiom(t, "conditional")
    case None => None
    case Some(lo) =>
      match LastGroup(t, lo)
      case None => None
      case Some((c2, p)) =>
        match LastComma(t, lo, c2)
        case None => None
        case Some(c1) => Some((c1, c2, p))
  }

  /** `re.match(r"(std\.)?enable_if *\[(.*),(?P<true>.*)\]\.type", t)`: the `true` group when it matches. */
  function EnableIf(t: string): (r: Option<string>)
    ensures r.Some? ==> OpensWith(t, "enable_if")
  {
    match OpenIdiom(t, "enable_if")
    case None => None
    case Some(lo) =>
      match LastGroup(t, lo)
      case None => None
      case Some((c, p)) => Some(t[c + 1..p])
  }

  /** The group of an `enable_if` match lies on the first line. */
  lemma EnableIfOneLine(t: string)
    ensures EnableIf(t).Some? ==> '\n' !in EnableIf(t).value
  {
    var lo := OpenIdiom(t, "enable_if");
    if lo.Some? && LastGroup(t, lo.value).Some? {
      var (c, p) := LastGroup(t, lo.value).value;
      NoBreakBetween(t, c + 1, p);
    }
  }

  /** A slice of the first line holds no line break. */
  lemma NoBreakBetween(t: string, a: nat, b: nat)
    requires a <= b <= DotRunEnd(t)
    ensures '\n' !in t[a..b]
  {
    DotRunEndIsFirstBreak(t);
    assert forall k :: 0 <= k < b - a ==> t[a..b][k] == t[a + k];
  }

  predicate IsCallable(t: string) {
    OpensWith(t, "function")
  }

  /** Text that cannot be a Python type: a `-` or `@` anywhere, or a trailing `.`. */
  predicate IsUnparseable(t: string) {
    '-' in t || '@' in t || (t != [] && t[|t| - 1] == '.')
  }

  /** `t.replace('"', "'")`. */
  function Quoted(t: string): (r: string)
    ensures |r| == |t|
  {
    ReplaceChar(t, '"', '\'')
  }

  /**
    The override the recognisers leave behind for the assembled text `t`
    ("" when none of them matched); each later match replaces the earlier one.
   */
  function Recognized(t: string): (r: string)
  {
    var afterConditional :=
      match Conditional(t)
      case Some((yes, no)) => "Union[" + SimpleParse(Some(yes)) + ", " + SimpleParse(Some(no)) + "]"
      case None => "";
    var afterEnableIf :=
      match EnableIf(t)
      case Some(yes) => "Annotated[" + yes + ", \"" + Quoted(t) + "\"]"
      case None => afterConditional;
    var afterCallable := if IsCallable(t) then "Callable" else afterEnableIf;
    if IsUnparseable(t) then "WTF_TYPE[\"" + Quoted(t) + "\"]" else afterCallable
  }

  /** Unparseable text always ends as `WTF_TYPE[...]`, whatever matched before, and its quotes are gone. */
  lemma UnparseableWins(t: string)
    requires IsUnparseable(t)
    ensures StartsWith(Recognized(t), "WTF_TYPE[\"")
    ensures EndsWith(Recognized(t), "\"]")
    ensures Recognized(t)[10..|Recognized(t)| - 2] == Quoted(t)
    ensures '"' !in Recognized(t)[10..|Recognized(t)| - 2]
  {
    ReplaceCharSpec(t, '"', '\'');
  }

  /** `Callable` beats the two template idioms, and loses only to the catch-all. */
  lemma CallableBeatsTemplates(t: string)
    requires IsCallable(t) && !IsUnparseable(t)
    ensures Recognized(t) == "Callable"
  {
  }

  /** The three prefix idioms exclude each other, so at most one of them can have fired. */
  lemma {:induction false} PrefixIdiomsExclusive(t: string)
    ensures !(Conditional(t).Some? && EnableIf(t).Some?)
    ensures !(Conditional(t).Some? && IsCallable(t))
    ensures !(EnableIf(t).Some? && IsCallable(t))
  {
    DistinctPrefixes(t, "conditional", "enable_if");
    DistinctPrefixes(t, "conditional", "function");
    DistinctPrefixes(t, "enable_if", "function");
  }

  /** Two words with different first letters cannot both open `t`, with or without `std.`. */
  lemma DistinctPrefixes(t: string, a: string, b: string)
    requires a != [] && b != [] && a[0] != b[0] && a[0] != 's' && b[0] != 's'
    ensures !(OpensWith(t, a) && OpensWith(t, b))
  {
    if StartsWith(t, "std." + a) {
      assert t[4] == a[0] by { assert t[..4 + |a|][4] == ("std." + a)[4]; }
      assert t[0] == 's' by { assert t[..4 + |a|][0] == ("std." + a)[0]; }
    } else if StartsWith(t, a) {
      assert t[0] == a[0] by { assert t[..|a|][0] == a[0]; }
    }
    if StartsWith(t, "std." + b) {
      assert t[4] == b[0] by { assert t[..4 + |b|][4] == ("std." + b)[4]; }
      assert t[0] == 's' by { assert t[..4 + |b|][0] == ("std." + b)[0]; }
    } else if StartsWith(t, b) {
      assert t[0] == b[0] by { assert t[..|b|][0] == b[0]; }
    }
  }

  /** No override is set exactly when none of the four recognisers matched. */
  lemma NothingRecognized(t: string)
    ensures Recognized(t) == "" <==>
      Conditional(t).None? && EnableIf(t).None? && !IsCallable(t) && !IsUnparseable(t)
  {
  }
}
