/**
  The handful of Python `str` operations the stub generator relies on:
  `strip`, `startswith`, `in`, `replace`, `join`, `partition`, `split`,
  `splitlines` and `textwrap.indent`.
 */
module Text {

  /** Python's `str.isspace` for one character (the characters `strip()` removes). */
  predicate IsSpace(c: char) {
    var n := c as int;
    (9 <= n <= 13) || (28 <= n <= 32) || n == 133 || n == 160 || n == 5760
    || (8192 <= n <= 8202) || n == 8232 || n == 8233 || n == 8239 || n == 8287 || n == 12288
  }

  /** A character matched by the regular-expression class `\w` (ASCII part). */
  predicate IsWordChar(c: char) {
    ('a' <= c <= 'z') || ('A' <= c <= 'Z') || ('0' <= c <= '9') || c == '_'
  }

  predicate IsAsciiLetter(c: char) {
    ('a' <= c <= 'z') || ('A' <= c <= 'Z')
  }

  predicate IsDigit(c: char) {
    '0' <= c <= '9'
  }

  predicate StartsWith(s: string, p: string) {
    |p| <= |s| && s[..|p|] == p
  }

  predicate EndsWith(s: string, p: string) {
    |p| <= |s| && s[|s| - |p|..] == p
  }

  /** Python's `sub in s`. */
  predicate Contains(s: string, sub: string)
    decreases |s|
  {
    StartsWith(s, sub) || (s != [] && Contains(s[1..], sub))
  }

  /** `s.lstrip()`: a suffix of `s` that does not start with white space. */
  function TrimLeft(s: string): (r: string)
    ensures |r| <= |s|
    ensures r == [] || !IsSpace(r[0])
  {
    if s != [] && IsSpace(s[0]) then TrimLeft(s[1..]) else s
  }

  /** What `TrimLeft` keeps is a suffix of the text. */
  lemma {:induction false} TrimLeftIsSuffix(s: string)
    ensures TrimLeft(s) == s[|s| - |TrimLeft(s)|..]
  {
    if s != [] && IsSpace(s[0]) {
      TrimLeftIsSuffix(s[1..]);
    }
  }

  /** `s.rstrip()`: a prefix of `s` that does not end with white space. */
  function TrimRight(s: string): (r: string)
    ensures |r| <= |s| && r == s[..|r|]
    ensures r == [] || !IsSpace(r[|r| - 1])
  {
    if s != [] && IsSpace(s[|s| - 1]) then TrimRight(s[..|s| - 1]) else s
  }

  /** `s.strip()`: white space removed at both ends, nothing else touched. */
  function Strip(s: string): (r: string)
    ensures r == [] || (!IsSpace(r[0]) && !IsSpace(r[|r| - 1]))
  {
    TrimRight(TrimLeft(s))
  }

  /** Stripping only removes characters. */
  lemma StripKeeps(s: string, c: char)
    requires c !in s
    ensures c !in Strip(s)
  {
    var l := TrimLeft(s);
    TrimLeftIsSuffix(s);
    assert c !in l;
  }

  /** `s.replace(pat, rep)`: non-overlapping occurrences, scanned left to right. */
  function Replace(s: string, pat: string, rep: string): (r: string)
    requires pat != []
    decreases |s|
  {
    if |s| < |pat| then s
    else if s[..|pat|] == pat then rep + Replace(s[|pat|..], pat, rep)
    else [s[0]] + Replace(s[1..], pat, rep)
  }

  /** A character in neither `s` nor `rep` is not in the result. */
  lemma {:induction false} ReplaceKeeps(s: string, pat: string, rep: string, c: char)
    requires pat != [] && c !in s && c !in rep
    ensures c !in Replace(s, pat, rep)
    decreases |s|
  {
    if |s| >= |pat| {
      if s[..|pat|] == pat {
        ReplaceKeeps(s[|pat|..], pat, rep, c);
      } else {
        ReplaceKeeps(s[1..], pat, rep, c);
      }
    }
  }

  /** A one-character pattern that the replacement does not bring back is gone. */
  lemma {:induction false} ReplaceRemoves(s: string, pat: string, rep: string)
    requires |pat| == 1 && pat[0] !in rep
    ensures pat[0] !in Replace(s, pat, rep)
    decreases |s|
  {
    if |s| >= |pat| {
      if s[..|pat|] == pat {
        ReplaceRemoves(s[|pat|..], pat, rep);
      } else {
        assert s[0] != pat[0];
        ReplaceRemoves(s[1..], pat, rep);
      }
    }
  }

  /** `sep.join(xs)`. */
  function Join(xs: seq<string>, sep: string): (r: string)
    ensures xs == [] ==> r == ""
    ensures |xs| == 1 ==> r == xs[0]
    ensures |xs| > 0 ==> StartsWith(r, xs[0])
  {
    if xs == [] then ""
    else if |xs| == 1 then xs[0]
    else xs[0] + sep + Join(xs[1..], sep)
  }

  /** The text before the first `c`, or all of `s`: `s.split(c)[0]`, `s.partition(c)[0]`. */
  function BeforeFirst(s: string, c: char): (r: string)
    ensures StartsWith(s, r) && c !in r
    ensures c in s ==> |r| < |s| && s[|r|] == c
  {
    if s == [] then ""
    else if s[0] == c then ""
    else [s[0]] + BeforeFirst(s[1..], c)
  }

  /** The text after the first `c`, or "" when `c` is absent: `s.partition(c)[2]`. */
  function AfterFirst(s: string, c: char): (r: string)
    ensures c in s ==> s == BeforeFirst(s, c) + [c] + r
    ensures c !in s ==> r == ""
  {
    if s == [] then ""
    else if s[0] == c then s[1..]
    else
      var r := AfterFirst(s[1..], c);
      assert c in s ==> s == [s[0]] + s[1..] && c in s[1..];
      r
  }

  /** The text after the last `c`, or all of `s`: `s.split(c)[-1]`. */
  function AfterLast(s: string, c: char): (r: string)
    ensures c !in r
    ensures c !in s ==> r == s
    decreases |s|
  {
    if c in s then AfterLast(AfterFirst(s, c), c) else s
  }

  /** What `AfterLast` keeps is a suffix of the text. */
  lemma {:induction false} AfterLastIsSuffix(s: string, c: char)
    ensures EndsWith(s, AfterLast(s, c))
    decreases |s|
  {
    if c in s {
      var a := AfterFirst(s, c);
      var r := AfterLast(a, c);
      AfterLastIsSuffix(a, c);
      var b := BeforeFirst(s, c) + [c];
      assert s == b + a;
      assert a == a[..|a| - |r|] + r;
      assert s == (b + a[..|a| - |r|]) + r;
    }
  }

  /** `s.removeprefix(p)`. */
  function RemovePrefix(s: string, p: string): (r: string)
    ensures StartsWith(s, p) ==> s == p + r
    ensures !StartsWith(s, p) ==> r == s
  {
    if StartsWith(s, p) then s[|p|..] else s
  }

  /** `s.replace(a, b)` for a single character. */
  function ReplaceChar(s: string, a: char, b: char): (r: string)
    ensures |r| == |s|
  {
    if s == [] then "" else [if s[0] == a then b else s[0]] + ReplaceChar(s[1..], a, b)
  }

  /** `ReplaceChar` swaps every `a` for `b` and keeps every other character, so no `a` is left. */
  lemma {:induction false} ReplaceCharSpec(s: string, a: char, b: char)
    ensures forall i :: 0 <= i < |s| ==> ReplaceChar(s, a, b)[i] == (if s[i] == a then b else s[i])
    ensures a != b ==> a !in ReplaceChar(s, a, b)
  {
    if s != [] {
      ReplaceCharSpec(s[1..], a, b);
      var r := ReplaceChar(s, a, b);
      forall i | 0 <= i < |s|
        ensures r[i] == (if s[i] == a then b else s[i])
      {
        if i > 0 {
          assert r[i] == ReplaceChar(s[1..], a, b)[i - 1];
          assert s[i] == s[1..][i - 1];
        }
      }
    }
  }

  /** Only the ASCII letters of `s`, in order: `re.sub("[^a-zA-Z]", "", s)`. */
  function LettersOnly(s: string): (r: string)
    ensures |r| <= |s|
    ensures forall c :: c in r ==> IsAsciiLetter(c)
    ensures forall c :: c in s && IsAsciiLetter(c) ==> c in r
  {
    if s == [] then ""
    else (if IsAsciiLetter(s[0]) then [s[0]] else []) + LettersOnly(s[1..])
  }

  /**
    `LettersOnly` works piece by piece: the letters of a concatenation are
    the letters of the first piece followed by those of the second, so the
    letters keep their order and their number.
   */
  lemma {:induction false} LettersOnlyConcat(a: string, b: string)
    ensures LettersOnly(a + b) == LettersOnly(a) + LettersOnly(b)
  {
    if a == [] {
      assert a + b == b;
    } else {
      assert (a + b)[0] == a[0];
      assert (a + b)[1..] == a[1..] + b;
      LettersOnlyConcat(a[1..], b);
    }
  }

  /** A text made only of ASCII letters is kept whole. */
  lemma {:induction false} LettersOnlyKeepsLetters(s: string)
    requires forall k :: 0 <= k < |s| ==> IsAsciiLetter(s[k])
    ensures LettersOnly(s) == s
  {
    if s != [] {
      LettersOnlyKeepsLetters(s[1..]);
    }
  }

  /**
    The line boundaries of Python's `str.splitlines`: `\n`, `\r` (and `\r\n`
    as one boundary), `\v`, `\f`, the separators `\x1c`, `\x1d`, `\x1e`,
    NEL `\x85`, and the Unicode line and paragraph separators.
   */
  predicate IsLineBreak(c: char) {
    var n := c as int;
    (10 <= n <= 13) || (28 <= n <= 30) || n == 133 || n == 8232 || n == 8233
  }

  /** The index of the first line boundary of `s`, or `|s|` without one. */
  function LineEnd(s: string): (i: nat)
    ensures i <= |s|
    ensures i < |s| ==> IsLineBreak(s[i])
    ensures forall k :: 0 <= k < i ==> !IsLineBreak(s[k])
  {
    if s == [] || IsLineBreak(s[0]) then 0 else 1 + LineEnd(s[1..])
  }

  /** How many characters the boundary at `i` takes: two for `\r\n`, else one. */
  function BreakLen(s: string, i: nat): (n: nat)
    requires i < |s|
    ensures n == 1 || n == 2
    ensures i + n <= |s|
  {
    if s[i] == '\r' && i + 1 < |s| && s[i + 1] == '\n' then 2 else 1
  }

  /** `s.splitlines()`: no trailing empty line for a final boundary. */
  function SplitLines(s: string): (r: seq<string>)
    ensures forall i, k :: 0 <= i < |r| && 0 <= k < |r[i]| ==> !IsLineBreak(r[i][k])
    ensures s == [] <==> r == []
    decreases |s|
  {
    if s == [] then []
    else
      var i := LineEnd(s);
      if i == |s| then [s] else [s[..i]] + SplitLines(s[i + BreakLen(s, i)..])
  }

  /**
    Splitting and joining back: `splitlines()` drops exactly the boundaries,
    so joining its lines gives the text without its boundary characters
    when every boundary is a single `\n`.
   */
  lemma {:induction false} SplitLinesJoin(s: string)
    requires forall k :: 0 <= k < |s| ==> (IsLineBreak(s[k]) ==> s[k] == '\n')
    requires s == [] || s[|s| - 1] != '\n'
    ensures Join(SplitLines(s), "\n") == s
    decreases |s|
  {
    if s != [] {
      var i := LineEnd(s);
      if i < |s| {
        var rest := s[i + 1..];
        assert BreakLen(s, i) == 1;
        assert rest != [];
        SplitLinesJoin(rest);
        assert s == s[..i] + "\n" + rest;
      }
    }
  }

  /** The first line of `s` with its boundary, as `splitlines(True)` yields it. */
  function FirstLine(s: string): (r: string)
    requires s != []
    ensures 0 < |r| <= |s| && r == s[..|r|]
    ensures LineEnd(s) == |s| ==> r == s
    ensures LineEnd(s) < |s| ==> |r| == LineEnd(s) + BreakLen(s, LineEnd(s))
  {
    var i := LineEnd(s);
    if i == |s| then s else s[..i + BreakLen(s, i)]
  }

  /** `textwrap.indent(s, prefix)`: every line that is not only white space gets the prefix. */
  function Indent(s: string, prefix: string): (r: string)
    decreases |s|
  {
    if s == [] then ""
    else
      var line := FirstLine(s);
      (if Strip(line) != [] then prefix + line else line) + Indent(s[|line|..], prefix)
  }

  /** An occurrence at a known index is an occurrence. */
  lemma {:induction false} ContainsAt(s: string, i: nat, sub: string)
    requires i + |sub| <= |s| && s[i..i + |sub|] == sub
    ensures Contains(s, sub)
    decreases i
  {
    if i == 0 {
      assert s[..|sub|] == sub;
    } else {
      assert s[1..][i - 1..i - 1 + |sub|] == s[i..i + |sub|];
      ContainsAt(s[1..], i - 1, sub);
    }
  }

  /** Text without white space at either end is its own strip. */
  lemma StripStripped(s: string)
    requires s == [] || (!IsSpace(s[0]) && !IsSpace(s[|s| - 1]))
    ensures Strip(s) == s
  {
  }
}
