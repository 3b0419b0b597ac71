/**
  The token translator (`simple_parse` and `parse_default`): a fixed,
  ordered chain of rewrites that turns C++ declaration text into Python
  typing vocabulary.  Every `re.sub` of the chain is one `Sub` with its own
  pattern; the patterns are matched the way Python's regular-expression
  engine matches them (leftmost match, greedy with backtracking, `\b`
  evaluated on the text being rewritten, scanning resumes after a match).
 */
module TokenTranslator {
  import opened Wrappers
  import opened Text
  import opened Xml

  /** `\b` at position `i` of `s`: a word character on exactly one side. */
  predicate Boundary(s: string, i: nat) {
    (0 < i <= |s| && IsWordChar(s[i - 1])) != (i < |s| && IsWordChar(s[i]))
  }

  predicate At(s: string, i: nat, w: string) {
    i <= |s| && StartsWith(s[i..], w)
  }

  /** The first index at or after `j` that is not a blank (`' '`). */
  function BlanksFrom(s: string, j: nat): (k: nat)
    requires j <= |s|
    ensures j <= k <= |s|
    ensures k < |s| ==> s[k] != ' '
    decreases |s| - j
  {
    if j < |s| && s[j] == ' ' then BlanksFrom(s, j + 1) else j
  }

  /** The first index at or after `j` that is not a decimal digit. */
  function DigitsFrom(s: string, j: nat): (k: nat)
    requires j <= |s|
    ensures j <= k <= |s|
    ensures k < |s| ==> !IsDigit(s[k])
    decreases |s| - j
  {
    if j < |s| && IsDigit(s[j]) then DigitsFrom(s, j + 1) else j
  }

  /** The regular expressions of the chain. */
  datatype Pattern =
    | Word(alts: seq<string>)   // \b(alt1|alt2|...)\b, alternatives tried in order
    | CharPointer               // \b(const +)?char +\*
    | SizedInt                  // \bu?int[0-9]+(_t)?\b
    | IntRun                    // \b( *(int|short|long|byte|char))+\b

  function WordMatch(alts: seq<string>, s: string, i: nat): (n: nat)
    requires i <= |s|
    ensures i + n <= |s|
    ensures n > 0 ==> Boundary(s, i + n)
  {
    if alts == [] then 0
    else if alts[0] != [] && At(s, i, alts[0]) && Boundary(s, i + |alts[0]|) then |alts[0]|
    else WordMatch(alts[1..], s, i)
  }

  /** End of `char +\*` starting at `j`, or `j` itself when it does not match there. */
  function CharStarEnd(s: string, j: nat): (e: nat)
    requires j <= |s|
    ensures j <= e <= |s|
  {
    if At(s, j, "char") && j + 4 < |s| && s[j + 4] == ' ' then
      var k := BlanksFrom(s, j + 4);
      if k < |s| && s[k] == '*' then k + 1 else j
    else j
  }

  function CharPointerMatch(s: string, i: nat): (n: nat)
    requires i <= |s|
    ensures i + n <= |s|
  {
    if !Boundary(s, i) then 0
    else if At(s, i, "const") && i + 5 < |s| && s[i + 5] == ' '
            && CharStarEnd(s, BlanksFrom(s, i + 5)) > BlanksFrom(s, i + 5) then
      CharStarEnd(s, BlanksFrom(s, i + 5)) - i
    else CharStarEnd(s, i) - i
  }

  function SizedIntMatch(s: string, i: nat): (n: nat)
    requires i <= |s|
    ensures i + n <= |s|
  {
    if !Boundary(s, i) then 0
    else
      var j := if At(s, i, "uint") then i + 4 else if At(s, i, "int") then i + 3 else i;
      if j == i then 0
      else
        var d := DigitsFrom(s, j);
        if d == j then 0
        else if At(s, d, "_t") && Boundary(s, d + 2) then d + 2 - i
        else if Boundary(s, d) then d - i
        else 0
  }

  /** Length of the integer keyword (`int|short|long|byte|char`) starting at `j`, or 0. */
  function KeywordLen(s: string, j: nat): (n: nat)
    requires j <= |s|
    ensures j + n <= |s|
    ensures n == 0 || n >= 3
  {
    if At(s, j, "int") then 3
    else if At(s, j, "short") then 5
    else if At(s, j, "long") then 4
    else if At(s, j, "byte") then 4
    else if At(s, j, "char") then 4
    else 0
  }

  /**
    The greedy loop `( *(int|...))+` followed by `\b`: repetitions are taken
    as long as they match, and the match ends after the last repetition that
    is followed by a boundary (`best`; unchanged when there is none).
   */
  function RunEnd(s: string, j: nat, best: nat): (e: nat)
    requires best <= j <= |s|
    ensures best <= e <= |s|
    ensures e == best || Boundary(s, e)
    decreases |s| - j
  {
    var k := BlanksFrom(s, j);
    var n := KeywordLen(s, k);
    if n == 0 then best
    else RunEnd(s, k + n, if Boundary(s, k + n) then k + n else best)
  }

  function IntRunMatch(s: string, i: nat): (n: nat)
    requires i <= |s|
    ensures i + n <= |s|
  {
    if !Boundary(s, i) then 0 else RunEnd(s, i, i) - i
  }

  /** Length of the match of `p` starting exactly at `i` (0 when there is none; no pattern matches the empty text). */
  function MatchAt(p: Pattern, s: string, i: nat): (n: nat)
    requires i <= |s|
    ensures i + n <= |s|
  {
    match p
    case Word(alts) => if Boundary(s, i) then WordMatch(alts, s, i) else 0
    case CharPointer => CharPointerMatch(s, i)
    case SizedInt => SizedIntMatch(s, i)
    case IntRun => IntRunMatch(s, i)
  }

  /** `MatchAt` as a function value, 0 past the end of the text. */
  function Matcher(p: Pattern): (string, nat) -> nat {
    (t: string, j: nat) => if j <= |t| then MatchAt(p, t, j) else 0
  }

  /**
    The scan of `re.sub` from position `i`, with the length of the match at
    each position given by `m`: a match is replaced and skipped, otherwise
    one character is copied.
   */
  function SubFrom(m: (string, nat) -> nat, rep: string, s: string, i: nat): (r: string)
    requires i <= |s|
    decreases |s| - i
  {
    if i == |s| then ""
    else
      var n := m(s, i);
      if 0 < n <= |s| - i then rep + SubFrom(m, rep, s, i + n)
      else [s[i]] + SubFrom(m, rep, s, i + 1)
  }

  /** `re.sub(p, rep, s)`. */
  function Sub(p: Pattern, rep: string, s: string): string {
    SubFrom(Matcher(p), rep, s, 0)
  }

  /** A character in neither the text nor the replacement is not in the result of a rewrite. */
  lemma {:induction false} SubFromKeeps(m: (string, nat) -> nat, rep: string, s: string, i: nat, c: char)
    requires i <= |s| && c !in s && c !in rep
    ensures c !in SubFrom(m, rep, s, i)
    decreases |s| - i
  {
    if i < |s| {
      var n := m(s, i);
      if 0 < n <= |s| - i {
        SubFromKeeps(m, rep, s, i + n, c);
      } else {
        SubFromKeeps(m, rep, s, i + 1, c);
        assert s[i] in s;
      }
    }
  }

  /** `re.sub(r"^w\b", "", s)`: the keyword removed when it opens the text. */
  function DropLeadingWord(s: string, w: string): (r: string)
    ensures |r| <= |s|
  {
    if StartsWith(s, w) && Boundary(s, |w|) then s[|w|..] else s
  }

  /** What `DropLeadingWord` keeps is a suffix of the text. */
  lemma DropLeadingWordIsSuffix(s: string, w: string)
    ensures DropLeadingWord(s, w) == s[|s| - |DropLeadingWord(s, w)|..]
  {
  }

  /** The number of rewrites in the chain, before the final strip. */
  const ChainLength := 19

  /**
    The pattern of the `k`-th rewrite, for `2 <= k <= 16`: the qualifiers,
    `void` and the integer types, `double` and the standard containers, then
    the literal keywords.
   */
  function RulePattern(k: nat): Pattern {
    match k
    case 2 => Word(["constexpr", "const"])
    case 3 => Word(["volatile"])
    case 4 => Word(["void"])
    case 5 => SizedInt
    case 6 => Word(["unsigned"])
    case 7 => IntRun
    case 8 => Word(["double"])
    case 9 => Word(["std.string", "string"])
    case 10 => Word(["std.vector", "vector"])
    case 11 => Word(["std.pair", "pair"])
    case 12 => Word(["std.unordered_map", "std.map", "unordered_map", "map"])
    case 13 => Word(["true"])
    case 14 => Word(["false"])
    case 15 => Word(["nullptr"])
    case _ => Word(["NULL"])
  }

  /**
    What the `k`-th rewrite puts in place of a match: qualifiers dropped,
    Python's names for the types, Python's constants for the keywords.
   */
  function Replacement(k: nat): string {
    match k
    case 2 => ""
    case 3 => ""
    case 4 => "None"
    case 5 => "int"
    case 6 => ""
    case 7 => " int"
    case 8 => "float"
    case 9 => "str"
    case 10 => "List"
    case 11 => "Tuple"
    case 12 => "Dict"
    case 13 => "True"
    case 14 => "False"
    case _ => "None"
  }

  /**
    The `k`-th rewrite of the chain, for `2 <= k`: the word rewrites, then a
    leading `class` and a leading `typename` dropped.
   */
  function Step(k: nat, s: string): string {
    if k <= 16 then Sub(RulePattern(k), Replacement(k), s)
    else DropLeadingWord(s, if k == 17 then "class" else "typename")
  }

  /**
    The rewrites from the `k`-th on, applied in order: rewrite 0 turns
    `char *` into `str`, rewrite 1 is the punctuation, the others are `Step`.
   */
  function Chain(s: string, k: nat): string
    decreases ChainLength - k
  {
    if k >= ChainLength then s
    else if k == 0 then Chain(Sub(CharPointer, "str", s), 1)
    else if k == 1 then Chain(Punctuation(s), 2)
    else Chain(Step(k, s), k + 1)
  }

  predicate NoAngleOrPointer(s: string) {
    '<' !in s && '>' !in s && '&' !in s && '*' !in s
  }

  /** A rewrite whose replacement is clean keeps a clean text clean. */
  lemma SubClean(p: Pattern, rep: string, s: string)
    requires NoAngleOrPointer(s) && NoAngleOrPointer(rep)
    ensures NoAngleOrPointer(Sub(p, rep, s))
  {
    SubFromKeeps(Matcher(p), rep, s, 0, '<');
    SubFromKeeps(Matcher(p), rep, s, 0, '>');
    SubFromKeeps(Matcher(p), rep, s, 0, '&');
    SubFromKeeps(Matcher(p), rep, s, 0, '*');
  }

  /** The word rewrites only bring in letters and blanks. */
  lemma RuleClean(k: nat)
    ensures NoAngleOrPointer(Replacement(k))
  {
  }

  /** Every rewrite after the punctuation keeps a clean text clean. */
  lemma StepClean(k: nat, s: string)
    requires NoAngleOrPointer(s)
    ensures NoAngleOrPointer(Step(k, s))
  {
    if k <= 16 {
      RuleClean(k);
      SubClean(RulePattern(k), Replacement(k), s);
    } else {
      DropLeadingWordIsSuffix(s, if k == 17 then "class" else "typename");
      SuffixClean(s, |s| - |Step(k, s)|);
    }
  }

  lemma {:induction false} ChainClean(s: string, k: nat)
    requires 2 <= k && NoAngleOrPointer(s)
    ensures NoAngleOrPointer(Chain(s, k))
    decreases ChainLength - k
  {
    if k < ChainLength {
      StepClean(k, s);
      ChainClean(Step(k, s), k + 1);
    }
  }

  /** `::` to `.`, angle brackets to square brackets, `&`, `*` and `...` dropped, then stripped. */
  function Punctuation(s: string): string {
    var a := Replace(s, "::", ".");
    var b := Replace(a, "<", "[");
    var c := Replace(b, ">", "]");
    var d := Replace(c, "&", "");
    var e := Replace(d, "*", "");
    Strip(Replace(e, "...", ""))
  }

  /** After the punctuation step no `<`, `>`, `&` or `*` is left. */
  lemma PunctuationClean(s: string)
    ensures NoAngleOrPointer(Punctuation(s))
  {
    var a := Replace(s, "::", ".");
    var b := Replace(a, "<", "[");
    ReplaceRemoves(a, "<", "[");
    var c := Replace(b, ">", "]");
    ReplaceRemoves(b, ">", "]");
    ReplaceKeeps(b, ">", "]", '<');
    var d := Replace(c, "&", "");
    ReplaceRemoves(c, "&", "");
    ReplaceKeeps(c, "&", "", '<');
    ReplaceKeeps(c, "&", "", '>');
    var e := Replace(d, "*", "");
    ReplaceRemoves(d, "*", "");
    ReplaceKeeps(d, "*", "", '<');
    ReplaceKeeps(d, "*", "", '>');
    ReplaceKeeps(d, "*", "", '&');
    var f := Replace(e, "...", "");
    ReplaceKeeps(e, "...", "", '<');
    ReplaceKeeps(e, "...", "", '>');
    ReplaceKeeps(e, "...", "", '&');
    ReplaceKeeps(e, "...", "", '*');
    StripClean(f);
  }

  /** Stripping keeps a clean text clean. */
  lemma StripClean(s: string)
    requires NoAngleOrPointer(s)
    ensures NoAngleOrPointer(Strip(s))
  {
    StripKeeps(s, '<');
    StripKeeps(s, '>');
    StripKeeps(s, '&');
    StripKeeps(s, '*');
  }

  /** `simple_parse`: "" for a missing or empty text; otherwise the whole chain, whose result is stripped. */
  function SimpleParse(orig: Option<string>): (r: string)
    ensures r == [] || (!IsSpace(r[0]) && !IsSpace(r[|r| - 1]))
  {
    match orig
    case None => ""
    case Some(s) =>
      if s == "" then ""
      else Translate(s)
  }

  /** The chain for a non-empty text, then `strip`. */
  function Translate(s: string): (r: string)
    ensures r == [] || (!IsSpace(r[0]) && !IsSpace(r[|r| - 1]))
  {
    Strip(Chain(s, 0))
  }

  /** The chain from its start: `char *` rewritten, the punctuation, then the rest. */
  lemma ChainStart(s: string)
    ensures Chain(s, 0) == Chain(Punctuation(Sub(CharPointer, "str", s)), 2)
  {
    assert Chain(s, 0) == Chain(Sub(CharPointer, "str", s), 1);
  }

  /**
    The output of `simple_parse` is free of `<`, `>`, `&` and `*`: the
    punctuation step removes them and no later rewrite brings them back.
   */
  lemma SimpleParseClean(orig: Option<string>)
    ensures NoAngleOrPointer(SimpleParse(orig))
  {
    if orig.Some? && orig.value != "" {
      TranslateClean(orig.value);
    }
  }

  lemma TranslateClean(s: string)
    ensures NoAngleOrPointer(Translate(s))
  {
    ChainStart(s);
    var n1 := Sub(CharPointer, "str", s);
    PunctuationClean(n1);
    ChainClean(Punctuation(n1), 2);
    StripClean(Chain(s, 0));
  }

  lemma SuffixClean(s: string, k: nat)
    requires k <= |s| && NoAngleOrPointer(s)
    ensures NoAngleOrPointer(s[k..])
  {
    assert forall c :: c in s[k..] ==> c in s;
  }

  /**
    `parse_default`: every text piece of the default value translated and
    glued; a `[[` left without any `]` was a shift operator and becomes `<<` again.
   */
  function ParseDefault(defval: Element): (r: string)
    ensures '>' !in r && '&' !in r && '*' !in r
    ensures '<' in r ==> ']' !in r
  {
    var val := TranslateAll(IterText(defval));
    TranslateAllClean(IterText(defval));
    if Contains(val, "[[") && ']' !in val then
      ReplaceKeeps(val, "[[", "<<", '>');
      ReplaceKeeps(val, "[[", "<<", '&');
      ReplaceKeeps(val, "[[", "<<", '*');
      ReplaceKeeps(val, "[[", "<<", ']');
      Replace(val, "[[", "<<")
    else val
  }

  function TranslateAll(ts: seq<string>): string {
    if ts == [] then "" else SimpleParse(Some(ts[0])) + TranslateAll(ts[1..])
  }

  lemma {:induction false} TranslateAllClean(ts: seq<string>)
    ensures NoAngleOrPointer(TranslateAll(ts))
  {
    if ts != [] {
      SimpleParseClean(Some(ts[0]));
      TranslateAllClean(ts[1..]);
    }
  }

  /** Without word characters there is no `\b`, so no rewrite of the chain can fire. */
  lemma {:induction false} SubWithoutWords(p: Pattern, rep: string, s: string, i: nat)
    requires i <= |s|
    requires forall k :: 0 <= k < |s| ==> !IsWordChar(s[k])
    ensures SubFrom(Matcher(p), rep, s, i) == s[i..]
    decreases |s| - i
  {
    if i < |s| {
      assert !Boundary(s, i);
      assert Matcher(p)(s, i) == MatchAt(p, s, i) == 0;
      SubWithoutWords(p, rep, s, i + 1);
      assert s[i..] == [s[i]] + s[i + 1..];
    }
  }

  lemma NoWordsUnchanged(p: Pattern, rep: string, s: string)
    requires forall k :: 0 <= k < |s| ==> !IsWordChar(s[k])
    ensures Sub(p, rep, s) == s
  {
    SubWithoutWords(p, rep, s, 0);
  }

  /**
    The translator is not idempotent and can leave a `::` behind: removing `&`
    after `::` has been rewritten joins the colons of `:&:` into `::`, and a
    second pass turns that into `.`.
   */
  lemma ColonsCanSurvive()
    ensures SimpleParse(Some(":&:")) == "::"
    ensures SimpleParse(Some(SimpleParse(Some(":&:")))) == "."
    ensures SimpleParse(Some(SimpleParse(Some(":&:")))) != SimpleParse(Some(":&:"))
  {
    FirstPassJoins();
    SecondPassFolds();
    NonEmptyIsTranslated(":&:");
    NonEmptyIsTranslated("::");
  }

  lemma NonEmptyIsTranslated(s: string)
    requires s != ""
    ensures SimpleParse(Some(s)) == Translate(s)
  {
  }

  lemma FirstPassJoins()
    ensures Translate(":&:") == "::"
  {
    PunctuationJoinsColons();
    ColonsWordless();
    TranslateWordless(":&:", "::");
  }

  /** `:&:`, `::` and `.` hold no word character. */
  lemma ColonsWordless()
    ensures forall k :: 0 <= k < |":&:"| ==> !IsWordChar(":&:"[k])
    ensures forall k :: 0 <= k < |"::"| ==> !IsWordChar("::"[k])
    ensures forall k :: 0 <= k < |"."| ==> !IsWordChar("."[k])
  {
  }

  lemma SecondPassFolds()
    ensures Translate("::") == "."
  {
    PunctuationFoldsColons();
    ColonsWordless();
    TranslateWordless("::", ".");
  }

  /** A text in which the pattern does not occur is left as it is. */
  lemma {:induction false} ReplaceWithout(s: string, pat: string, rep: string)
    requires pat != [] && !Contains(s, pat)
    ensures Replace(s, pat, rep) == s
    decreases |s|
  {
    if |s| >= |pat| {
      assert s[..|pat|] != pat;
      ReplaceWithout(s[1..], pat, rep);
      assert s == [s[0]] + s[1..];
    }
  }

  lemma PunctuationJoinsColons()
    ensures Punctuation(":&:") == "::"
  {
    ColonsApart();
    AmpersandJoins();
    ColonsKept();
  }

  /** A text of colons and `&` has no angle bracket to rewrite. */
  lemma NoBrackets(s: string)
    requires forall i :: 0 <= i < |s| ==> s[i] == ':' || s[i] == '&'
    ensures Replace(s, "<", "[") == s && Replace(s, ">", "]") == s
  {
    ReplaceAbsentChar(s, '<', "[");
    ReplaceAbsentChar(s, '>', "]");
  }

  /** Rewriting a character the text does not hold changes nothing. */
  lemma {:induction false} ReplaceAbsentChar(s: string, c: char, rep: string)
    requires c !in s
    ensures Replace(s, [c], rep) == s
    decreases |s|
  {
    if s != [] {
      assert s[..1] == [s[0]] && s[0] != c;
      assert s[1..] == s[1..];
      assert c !in s[1..] by { assert forall x :: x in s[1..] ==> x in s; }
      ReplaceAbsentChar(s[1..], c, rep);
      assert s == [s[0]] + s[1..];
    }
  }

  /** `::` survives the rest of the punctuation step. */
  lemma ColonsKept()
    ensures Strip(Replace(Replace("::", "*", ""), "...", "")) == "::"
  {
    ReplaceAbsentChar("::", '*', "");
    assert Strip("::") == "::";
  }

  /** `:&:` holds no `::` to rewrite. */
  lemma ColonsApart()
    ensures Replace(":&:", "::", ".") == ":&:"
    ensures Replace(":&:", "<", "[") == ":&:" && Replace(":&:", ">", "]") == ":&:"
  {
    NoBrackets(":&:");
    var t := ":&:"[1..];
    assert t[1..] == ":" && !Contains(t[1..], "::");
    assert t[..2][0] == '&';
    assert !Contains(t, "::");
    ReplaceWithout(":&:", "::", ".");
  }

  /** Dropping the `&` of `:&:` leaves `::`. */
  lemma AmpersandJoins()
    ensures Replace(":&:", "&", "") == "::"
  {
    assert Replace(":", "&", "") == ":";
    assert Replace("&:", "&", "") == ":";
  }

  lemma PunctuationFoldsColons()
    ensures Punctuation("::") == "."
  {
    assert Replace("::", "::", ".") == ".";
    ReplaceWithout(".", "<", "[");
    ReplaceWithout(".", ">", "]");
    ReplaceWithout(".", "&", "");
    ReplaceWithout(".", "*", "");
    ReplaceWithout(".", "...", "");
    assert Strip(".") == ".";
  }

  lemma WordlessKeepsLeadingWord(t: string, w: string)
    requires w != [] && IsWordChar(w[0])
    requires forall k :: 0 <= k < |t| ==> !IsWordChar(t[k])
    ensures DropLeadingWord(t, w) == t
  {
    assert |w| <= |t| ==> t[..|w|][0] == t[0];
  }

  /** Every rewrite after the punctuation leaves text without word characters as it is. */
  lemma StepWordless(k: nat, s: string)
    requires forall i :: 0 <= i < |s| ==> !IsWordChar(s[i])
    ensures Step(k, s) == s
  {
    if k <= 16 {
      NoWordsUnchanged(RulePattern(k), Replacement(k), s);
    } else {
      WordlessKeepsLeadingWord(s, if k == 17 then "class" else "typename");
    }
  }

  lemma {:induction false} ChainWordless(s: string, k: nat)
    requires 2 <= k
    requires forall i :: 0 <= i < |s| ==> !IsWordChar(s[i])
    ensures Chain(s, k) == s
    decreases ChainLength - k
  {
    if k < ChainLength {
      StepWordless(k, s);
      ChainWordless(s, k + 1);
    }
  }

  /** On text without word characters the chain only does its punctuation step. */
  lemma TranslateWordless(s: string, t: string)
    requires forall k :: 0 <= k < |s| ==> !IsWordChar(s[k])
    requires t == Punctuation(s)
    requires forall k :: 0 <= k < |t| ==> !IsWordChar(t[k])
    requires t == [] || (!IsSpace(t[0]) && !IsSpace(t[|t| - 1]))
    ensures Translate(s) == t
  {
    NoWordsUnchanged(CharPointer, "str", s);
    ChainStart(s);
    ChainWordless(t, 2);
    StripStripped(t);
  }
}
