# stubgen — a verified model of the Doxygen-to-stub generator

`stubgen.py` reads the XML that Doxygen writes for a C++ library and writes
Python stub files (`.pyi`): one per class or namespace, with functions,
variables, enums and typedefs as Python declarations. This project models
the core of that program in Dafny and proves properties about it.

- **Token translator** (`translator.dfy`, module `TokenTranslator`).
  `simple_parse` is a chain of regular-expression rewrites: `char *` becomes
  `str`, and the punctuation becomes Python's (`::` to `.`, `<>` to `[]`,
  `&`, `*` and `...` dropped). After that come fifteen word rewrites, the
  two leading-keyword drops and a final strip. `parse_default` translates the
  default value of a parameter.
- **Types** (`types.dfy`, `idioms.dfy`, `decls.dfy`). `Type.__init__`
  collects the translated text of an element and one nested type per child.
  It drops the empty parts, and four recognisers (`conditional`, `enable_if`,
  `function`, and text that cannot be a Python type) may set an override.
  `type_parse`, `Type.is_empty`, `Type.__bool__` and `Type.__str__` are also
  modelled.
- **Declarations and their stub text** (`decls.dfy`, module `Decls`). These
  are `Param`, `Template`, `Function`, `Variable`, `Enum` and `Class`, each
  with its `__str__`. A declaration without a `<briefdescription>` never
  gets a `brief` attribute, so its `__str__` raises. The renderings return
  `None` for that case.
- **The check/repair loop** (`repair.dfy`, module `Fixes`). This is
  `ParsedElement.check` with the `fixN` renames of each class. The parser
  `ast.parse` is a parameter `valid: string -> bool`.
- **Construction** (`build.dfy`, module `Construction`). These are the
  constructors of every declaration and `Class.do_iter`, with their error
  paths.
- **Grouping** (`group.dfy`, module `Grouping`). These are the two loops of
  `Class.__init__`. They collect templates, rename constructors to
  `__init__` and mark overloads.
- **Resolution** (`resolve.dfy`, module `Resolution`). These are
  `Type.resolve`, `Type.is_resolvable` and the `resolve` methods, as
  functions of the two registries.
- **Registries** (`registry.dfy`, class `Context.Registry`). The class holds
  `ParsedElement.INSTANCES` and `ParsedElement.NAMESPACE` as fields. Its
  methods write these maps in place and are proved against the functions
  of `Resolution`.

The entities are values (datatypes). Where the program changes an object
after building it (renames by `check`, overload marks, the typedef swap),
the model returns the changed value. The registry entry for an id is written
from the object's final state.

## Model

| member | source | states |
|---|---|---|
| Text.TrimLeft | stubgen.py:583 | the left strip leaves no leading white space and never lengthens the text |
| Text.TrimLeftIsSuffix | stubgen.py:583 | what the left strip keeps is a suffix of the input |
| Text.TrimRight | stubgen.py:583 | the right strip is a prefix of the input with no trailing white space |
| Text.Strip | stubgen.py:583 | `strip()` leaves no white space at either end |
| Text.StripKeeps | stubgen.py:561 | stripping adds no character |
| Text.StripStripped | stubgen.py:583 | text with no white space at its ends is its own strip, so stripping is idempotent |
| Text.ReplaceKeeps | stubgen.py:560-561 | `str.replace` introduces no character that is in neither the text nor the replacement |
| Text.ReplaceRemoves | stubgen.py:560-561 | replacing a one-character pattern by text without it removes every occurrence |
| Text.Join | stubgen.py:270 | `sep.join`: empty for no items, the item itself for one, otherwise starts with the first item |
| Text.BeforeFirst | stubgen.py:148 | `partition(c)[0]` / `split(c)[0]`: a prefix without `c`, ending just before the first `c` |
| Text.AfterFirst | stubgen.py:250 | `partition(c)[2]`: the text is its head, `c` and the result; empty when `c` is absent |
| Text.AfterLast | stubgen.py:348 | `split('.')[-1]` holds no `.`, and is the whole text when there is none |
| Text.AfterLastIsSuffix | stubgen.py:348 | the last dotted part is a suffix of the text |
| Text.RemovePrefix | stubgen.py:435 | `removeprefix`: the prefix is removed exactly when it opens the text |
| Text.ReplaceChar | stubgen.py:494 | a one-character `replace` keeps the length |
| Text.ReplaceCharSpec | stubgen.py:494 | every `"` becomes `'`, every other character is kept, and no `"` is left |
| Text.LettersOnly | stubgen.py:262 | `re.sub("[^a-zA-Z]", "", s)` keeps a character exactly when it is an ASCII letter of `s`, and never lengthens the text |
| Text.LettersOnlyConcat | stubgen.py:262 | the letters of `a + b` are the letters of `a` followed by those of `b`, so order and multiplicity are kept |
| Text.LettersOnlyKeepsLetters | stubgen.py:262 | a text of ASCII letters only is kept whole |
| Text.LineEnd | stubgen.py:31 | the end of the first line is the first line break of any kind `str.splitlines` knows, or the end of the text |
| Text.BreakLen | stubgen.py:31 | a line break is one character long, or two for `\r\n` |
| Text.SplitLines | stubgen.py:31 | no line of `splitlines()` holds a line break, and only empty text has no lines |
| Text.SplitLinesJoin | stubgen.py:31 | for text whose breaks are all `\n` and that does not end in one, joining the lines with `\n` gives the text back |
| Text.FirstLine | stubgen.py:456 | the first line with its break (`splitlines(True)`): a non-empty prefix, the whole text without a break, else the text up to and including the first break |
| Text.ContainsAt | stubgen.py:154 | a substring found at an index makes `in` true |
| Xml.Find | stubgen.py:28 | `find(tag)` returns a child with that tag, and `None` only when no child has it |
| Xml.FindFrom | stubgen.py:89 | a child with the tag among a sequence, and none only when no child has it |
| Xml.FindFromIsFirst | stubgen.py:89 | it is the first child with the tag |
| Xml.FindAll | stubgen.py:349 | `findall` returns only children with the tag |
| Xml.FilterTag | stubgen.py:320 | `iterchildren(tag)` returns exactly the children with the tag |
| Xml.StripAll | stubgen.py:30-31 | every piece of the brief is stripped, none dropped |
| Xml.Brief | stubgen.py:27-31 | the brief description exists exactly when the element has a `briefdescription` child; its text is the stripped `itertext` pieces glued, then the stripped lines joined by blanks |
| Xml.IterText | stubgen.py:30 | `itertext()`: the element's text, then each child's texts and tail, in document order |
| TokenTranslator.BlanksFrom | stubgen.py:568 | ` *` ends at the first non-blank from its start |
| TokenTranslator.DigitsFrom | stubgen.py:566 | `[0-9]+` ends at the first non-digit |
| TokenTranslator.Boundary | stubgen.py:559-581 | `\b`: a word character on exactly one side of the position |
| TokenTranslator.WordMatch | stubgen.py:562-578 | a `\b(alt)\b` match stays in the text and ends at a word boundary |
| TokenTranslator.CharStarEnd | stubgen.py:559 | the `char +\*` tail stays in the text |
| TokenTranslator.CharPointerMatch | stubgen.py:559 | a `\b(const +)?char +\*` match stays in the text |
| TokenTranslator.SizedIntMatch | stubgen.py:566 | a `\bu?int[0-9]+(_t)?\b` match stays in the text |
| TokenTranslator.KeywordLen | stubgen.py:568 | an integer keyword match is empty or at least three characters long |
| TokenTranslator.RunEnd | stubgen.py:568 | backtracking in `( *(int\|short\|long\|byte\|char))+\b` ends at the best end found so far or at a word boundary |
| TokenTranslator.IntRunMatch | stubgen.py:568 | a match of the integer run stays in the text |
| TokenTranslator.MatchAt | stubgen.py:559-578 | a match of any pattern of the chain stays in the text |
| TokenTranslator.Matcher | stubgen.py:559-578 | the length of the match of a pattern at each position, 0 where it does not match |
| TokenTranslator.SubFrom | stubgen.py:559-578 | the left-to-right scan of `re.sub`: a match is replaced and skipped, otherwise one character is copied |
| TokenTranslator.Sub | stubgen.py:559-578 | `re.sub(p, rep, s)` for the patterns of the chain; `SubFromKeeps`, `SubClean` and `SubWithoutWords` state its properties |
| TokenTranslator.SubFromKeeps | stubgen.py:559-578 | `re.sub` introduces no character that is in neither the text nor the replacement |
| TokenTranslator.DropLeadingWord | stubgen.py:580-581 | `re.sub(r"^class\b", "", s)` never lengthens the text |
| TokenTranslator.DropLeadingWordIsSuffix | stubgen.py:580-581 | dropping a leading keyword keeps a suffix of the text |
| TokenTranslator.RulePattern | stubgen.py:562-578 | the pattern of each word rewrite, in the order of the source |
| TokenTranslator.Replacement | stubgen.py:562-578 | the replacement of each word rewrite; `RuleClean` shows none holds `<>&*` |
| TokenTranslator.Step | stubgen.py:562-581 | one rewrite after the punctuation: a word rewrite, or a leading `class`/`typename` dropped |
| TokenTranslator.Chain | stubgen.py:559-581 | the rewrites from the `k`-th on, in the order of the source; `ChainClean` and `ChainWordless` state what the tail keeps |
| TokenTranslator.Punctuation | stubgen.py:560-561 | `::` to `.`, `<>` to `[]`, `&`, `*` and `...` dropped, then stripped; `PunctuationClean` shows no `<>&*` is left |
| TokenTranslator.SubClean | stubgen.py:562-578 | a rewrite whose replacement has no `<>&*` keeps a text without them free of them |
| TokenTranslator.RuleClean | stubgen.py:562-578 | no word replacement of the chain holds `<`, `>`, `&` or `*` |
| TokenTranslator.StepClean | stubgen.py:562-581 | every rewrite after the punctuation keeps a clean text clean |
| TokenTranslator.ChainClean | stubgen.py:562-581 | the rest of the chain keeps a clean text clean |
| TokenTranslator.PunctuationClean | stubgen.py:560-561 | after the punctuation step no `<`, `>`, `&` or `*` is left |
| TokenTranslator.StripClean | stubgen.py:583 | stripping keeps a clean text clean |
| TokenTranslator.SimpleParse | stubgen.py:555-583 | the result of `simple_parse` has no white space at either end |
| TokenTranslator.Translate | stubgen.py:559-583 | the chain for a non-empty text ends stripped |
| TokenTranslator.ChainStart | stubgen.py:559-561 | the chain is the `char *` rewrite, then the punctuation, then the word rewrites |
| TokenTranslator.NonEmptyIsTranslated | stubgen.py:556-557 | only a missing or empty text skips the chain |
| TokenTranslator.SimpleParseClean | stubgen.py:555-583 | the output of `simple_parse` holds no `<`, `>`, `&` or `*` |
| TokenTranslator.TranslateClean | stubgen.py:559-583 | the chain for any text leaves no `<`, `>`, `&` or `*` |
| TokenTranslator.SuffixClean | stubgen.py:580-581 | a suffix of a clean text is clean |
| TokenTranslator.ParseDefault | stubgen.py:548-552 | a default value holds no `>`, `&` or `*`, and holds a `<` only when it has no `]` (a restored shift) |
| TokenTranslator.TranslateAllClean | stubgen.py:549 | the joined translated text pieces are clean |
| TokenTranslator.SubWithoutWords | stubgen.py:562-578 | in text without word characters no `\b` rewrite fires |
| TokenTranslator.NoWordsUnchanged | stubgen.py:562-578 | `re.sub` of a chain pattern leaves such text unchanged |
| TokenTranslator.WordlessKeepsLeadingWord | stubgen.py:580-581 | a leading keyword cannot be dropped from text without word characters |
| TokenTranslator.StepWordless | stubgen.py:562-581 | every step after the punctuation leaves wordless text as it is |
| TokenTranslator.ChainWordless | stubgen.py:562-581 | the whole tail of the chain leaves wordless text as it is |
| TokenTranslator.TranslateWordless | stubgen.py:559-583 | on wordless text `simple_parse` is the punctuation step alone |
| TokenTranslator.PunctuationJoinsColons | stubgen.py:560-561 | the punctuation step turns `:&:` into `::`, because `&` is dropped after `::` was rewritten |
| TokenTranslator.PunctuationFoldsColons | stubgen.py:560-561 | the punctuation step turns `::` into `.` |
| TokenTranslator.ColonsApart | stubgen.py:560 | `:&:` holds no `::` and no angle bracket to rewrite |
| TokenTranslator.AmpersandJoins | stubgen.py:561 | dropping the `&` of `:&:` leaves `::` |
| TokenTranslator.ColonsKept | stubgen.py:561 | `::` survives the rest of the punctuation step |
| TokenTranslator.FirstPassJoins | stubgen.py:559-583 | the chain turns `:&:` into `::` |
| TokenTranslator.SecondPassFolds | stubgen.py:559-583 | the chain turns `::` into `.` |
| TokenTranslator.ColonsCanSurvive | stubgen.py:555-583 | `simple_parse(":&:")` is `::`, so a `::` can survive, and a second `simple_parse` changes the result to `.`: the translator is not idempotent |
| Idioms.DotRunEnd | stubgen.py:489 | a run of the regex `.` (which stops only at `\n`) ends within the text |
| Idioms.DotRunEndIsFirstBreak | stubgen.py:489 | no `\n` comes before the end of a `.` run, so a `.` run never crosses one |
| Idioms.OpenIdiom | stubgen.py:489 | `(std\.)?name *\[` matches only at the start of the text, and ends just after a `[` |
| Idioms.LastSuffix | stubgen.py:489 | a found `].type` lies wholly in the searched range |
| Idioms.LastSuffixIsLast | stubgen.py:489 | the greedy match picks the last `].type`, and reports none only when there is none |
| Idioms.LastComma | stubgen.py:489 | a found comma lies in the searched range |
| Idioms.LastCommaIsLast | stubgen.py:489 | the greedy group ends at the last comma, and none is reported only when there is none |
| Idioms.LastGroup | stubgen.py:489-492 | the last group lies between a comma and a `].type` on the first line |
| Idioms.ConditionalBounds | stubgen.py:489 | a `conditional` match has two commas before its `].type`, all on the first line |
| Idioms.Conditional | stubgen.py:489-491 | a `conditional` match needs the `(std.)conditional` prefix |
| Idioms.ConditionalOneLine | stubgen.py:489 | the `true` and `false` groups hold no line break |
| Idioms.EnableIf | stubgen.py:492-494 | an `enable_if` match needs the `(std.)enable_if` prefix |
| Idioms.EnableIfOneLine | stubgen.py:492 | the `true` group holds no line break |
| Idioms.Quoted | stubgen.py:494 | replacing quotes keeps the length |
| Idioms.Recognized | stubgen.py:487-499 | the override the four recognisers leave, a later match replacing an earlier one; `UnparseableWins`, `CallableBeatsTemplates` and `NothingRecognized` state the outcome |
| Idioms.UnparseableWins | stubgen.py:498-499 | text with `-`, `@` or a trailing `.` always ends as `WTF_TYPE["…"]` holding the text without `"` |
| Idioms.CallableBeatsTemplates | stubgen.py:495-499 | a `(std.)function` text is `Callable` unless it is unparseable |
| Idioms.PrefixIdiomsExclusive | stubgen.py:489-496 | at most one of `conditional`, `enable_if` and `function` can match one text |
| Idioms.DistinctPrefixes | stubgen.py:489-496 | two names with different first letters cannot both open the text |
| Idioms.NothingRecognized | stubgen.py:488-499 | no override is set exactly when none of the four recognisers matches |
| Decls.NameOr | stubgen.py:52-55 | `name or "???"` is never empty and is the name when there is one |
| Decls.Qualname | stubgen.py:46-55 | `qualname`: the stored one of an enum or class; any other entity answers with its never-empty name |
| Decls.Truthy | stubgen.py:535-536 | `Type.__bool__`: parts, an override or a target |
| Decls.RenderType | stubgen.py:538-545 | `Type.__str__`: a falsy type renders as `Any`, and an override always wins |
| Decls.RenderParts | stubgen.py:544 | the rendered parts concatenated in order; `BuiltTypeRendersSomething` shows a built type never renders empty |
| Decls.RenderParam | stubgen.py:112-120 | the stub of a parameter starts with its name |
| Decls.RenderParams | stubgen.py:270 | one rendering per parameter, in order |
| Decls.Signature | stubgen.py:270-271 | the `def` line starts `def name(self` and ends `) -> T:` with the rendered return type, or `None` when that type is falsy |
| Decls.RenderTemplate | stubgen.py:161-165 | `Template.__str__`: `# name` for an ignored template, else `name = TypeVar('name')` |
| Decls.RenderTemplates | stubgen.py:444 | one line per template, each its `str`, in order |
| Decls.RenderFunction | stubgen.py:264-276 | `Function.__str__` gives a stub exactly when the function has a brief description, else it raises |
| Decls.RenderVariable | stubgen.py:302-310 | `Variable.__str__` gives a stub exactly when the variable has a brief description |
| Decls.RenderValues | stubgen.py:334-335 | every enum value's stub indented by a tab, in order, given exactly when every value has a brief description |
| Decls.RenderEnum | stubgen.py:330-338 | `Enum.__str__` gives a stub exactly when the enum and all its values have brief descriptions |
| Decls.EnumHeader | stubgen.py:331 | the `class` line of an enum starts `class name(enum.` and ends `.Enum):` when strong, `.IntEnum):` otherwise |
| Decls.EnumStartsWithHeader | stubgen.py:330-338 | the stub of an enum starts with its `class` line |
| Decls.ClassLinesClash | stubgen.py:331 | no text starts with both the `enum.Enum` and the `enum.IntEnum` class line of the same name |
| Decls.NamespaceKeys | stubgen.py:361-369 | the keys of `namespace` are exactly the member names, each once |
| Decls.KeysFrom | stubgen.py:369 | adding the names of more members keeps the keys distinct and adds exactly their names |
| Decls.Subtypes | stubgen.py:362-371 | `subtypes` holds exactly the nested types among the members |
| Decls.Quote | stubgen.py:440 | `repr` of every name, in order |
| Decls.Repr | stubgen.py:440 | `repr` of a string: the text between matching quotes, `"` when it holds `'` but no `"`, else `'` |
| Decls.EscapedPlain | stubgen.py:440 | text without quote, backslash or control characters is escaped as itself |
| Decls.ReprPlain | stubgen.py:440 | an identifier-like name is written as `'name'` |
| Decls.EscapedQuotes | stubgen.py:440 | every quote character inside the display follows a backslash; `EscapedReadsBack` shows that none of them ends the literal |
| Decls.HexValue | stubgen.py:440 | a hex digit, as the `\x` escape reads it, stands for a value below 16 |
| Decls.Unescaped | stubgen.py:440 | the reference reading of a literal body under quote `q`: the escapes `repr` writes, and no result when a bare `q` would end the literal |
| Decls.EscapeReadsBack | stubgen.py:440 | one character as `repr` escapes it reads back as that character, and the reading goes on with what follows |
| Decls.EscapedReadsBack | stubgen.py:440 | the escaped text reads back, as Python reads a string literal's body, as the text itself: no quote inside ends the literal, and no character is lost or changed |
| Decls.ReprReadsBack | stubgen.py:440 | what `repr` writes between its quotes reads back, under those quotes, as the string |
| Decls.ReprList | stubgen.py:440 | `%r` of a list: `[]` for no names, `[repr(n)]` for one |
| Decls.Truthies | stubgen.py:431-432 | the nested types kept for import: exactly the truthy ones |
| Decls.Imports | stubgen.py:431-435 | as many import lines and `__all__` names as truthy nested types |
| Decls.ImportsOfTruthies | stubgen.py:431-435 | the k-th import line is `from <name> import *` and the k-th `__all__` name is that name without the class's qualified name and `.`, for the k-th truthy nested type, whose name is its `str` cut before `[` |
| Decls.RenderBody | stubgen.py:457-459 | at most one stub per member, nested types skipped, given exactly when every other member can be rendered |
| Decls.RenderMember | stubgen.py:459 | `str(member)`: headers and nested types always render; a variable or function renders exactly when it has a brief; an enum exactly when it and all its values have briefs |
| Decls.MemberName | stubgen.py:368-369 | a member has a name (`hasattr(member, "name")`) exactly when it is a variable, a function or an enum |
| Decls.TemplateNames | stubgen.py:447 | the name of each generic template, in order |
| Decls.RenderTypes | stubgen.py:445 | the `str` of each base, in order |
| Decls.RenderClass | stubgen.py:428-462 | `Class.__str__` gives a stub exactly when the class has a brief description and every member other than a nested type can be rendered |
| Decls.BuiltTypeRendersSomething | stubgen.py:538-545 | a type built from XML never renders as empty text |
| Decls.FirstPartRendersSomething | stubgen.py:538-545 | the first kept part of such a type renders as something |
| Decls.OverloadMarker | stubgen.py:268-269 | a function's stub opens with `@overload` exactly when it is overloaded |
| Decls.PrefixClash | stubgen.py:331 | two texts that differ at some index cannot both open a stub |
| Decls.EnumBase | stubgen.py:331 | a strong enum derives from `enum.Enum`, any other from `enum.IntEnum` |
| Decls.EmptyEnum | stubgen.py:330-338 | an enum with no values and an empty brief is its header and `\t...` |
| Decls.EmptyClass | stubgen.py:428-462 | an empty class is `__all__ = ['Name']`, `class Name(object):` and `\t...` |
| Decls.EmptyClassLines | stubgen.py:436-461 | the three stub lines of an empty class |
| Types.Keep | stubgen.py:485 | the filter keeps exactly the truthy parts |
| Types.TypeOf | stubgen.py:468-475 | `Type(xml)` as a value; no element gives the empty type |
| Types.TypeOfElement | stubgen.py:481-499 | the type of an element: its raw parts assembled; `BuildElement` computes it, `BuiltTypeWellFormed` states what it keeps |
| Types.Raw | stubgen.py:481-484 | the translated text, then a nested type and translated tail per child, before filtering |
| Types.Assemble | stubgen.py:485-499 | the kept parts, with the override the recognisers find in their concatenated text |
| Types.Concat | stubgen.py:487 | `"".join(str(p) for p in parts)` |
| Types.TypeParse | stubgen.py:586-587 | `type_parse`: the `str` of the type built from the element; `TypeParseNonEmpty` shows it is never empty |
| Types.IsEmpty | stubgen.py:501-511 | `Type.is_empty`: no element, or one without attributes, children and non-blank text |
| Types.BuildType | stubgen.py:473-499 | the loop of `Type.__init__` builds the type `TypeOf` specifies |
| Types.BuildElement | stubgen.py:481-499 | for an element: its text, then a nested type and a tail per child, filtered and recognised |
| Types.BuildChild | stubgen.py:482-484 | one child adds its nested type and its translated tail |
| Types.MissingElement | stubgen.py:473-475 | a missing element gives a falsy type rendered as `Any` |
| Types.BuiltTypeWellFormed | stubgen.py:481-486 | a built type keeps only non-empty text and truthy nested types, and is not yet bound |
| Types.RawWellFormed | stubgen.py:481-484 | every nested type collected so far is well formed and unbound |
| Types.SoundPair | stubgen.py:483-484 | the pair a child adds is sound when its type is |
| Types.SoundAppend | stubgen.py:482-484 | sound part lists stay sound when appended |
| Types.TypeParseNonEmpty | stubgen.py:586-587 | `type_parse` never yields empty text |
| Fixes.Dunder | stubgen.py:197-236 | every table value has the form `__x__` |
| Fixes.FixCount | stubgen.py:109-110 | the number of `fixN` methods: one for parameters and templates, five for functions, three for variables, none for enums and classes |
| Fixes.OperatorRename | stubgen.py:197-236 | the `renames` table: every value it gives is a dunder name of an `operator…` key |
| Fixes.IntParam | stubgen.py:243-246 | exactly one parameter, whose type renders as `int` |
| Fixes.ArityRename | stubgen.py:237-246 | the arity cases keep the name or give a dunder name |
| Fixes.OperatorFix | stubgen.py:189-247 | `fix1` keeps the name or gives a dunder name |
| Fixes.ConversionFix | stubgen.py:249-252 | `fix2` keeps any name that is not `operator T` |
| Fixes.DestructorFix | stubgen.py:254-256 | `fix3` renames every `~…` to `__destruct__` and keeps every other name |
| Fixes.Underscored | stubgen.py:109-110 | `"_" + name` |
| Fixes.LettersAfterFirst | stubgen.py:261-262 | `fix5` leaves only letters and shortens a non-empty name |
| Fixes.WithName | stubgen.py:109-110 | renaming sets the name |
| Fixes.ApplyFix | stubgen.py:78-79 | `fixI` changes only the name, and an entity without `fixI` is left as it is |
| Fixes.SameName | stubgen.py:78-79 | renaming to the own name changes nothing |
| Fixes.SameExceptName | stubgen.py:78-79 | two renames are one rename |
| Fixes.Repaired | stubgen.py:64-83 | after any number of fixes only the name has changed |
| Fixes.RepairedRenames | stubgen.py:64-83 | by induction: the fixes applied in order only rename |
| Fixes.OneFixNames | stubgen.py:109-110 | a parameter or template ends with its name or `_` + its name |
| Fixes.Verdicts | stubgen.py:68-70 | the parser's verdict on each successive attempt |
| Fixes.FirstTrue | stubgen.py:65 | the first accepted attempt, or the last one, with all earlier ones rejected |
| Fixes.FirstTrueIs | stubgen.py:65 | that index is unique |
| Fixes.Repair | stubgen.py:64-83 | `check` stops at the first accepted attempt, or fails at attempt n + 1 with every attempt rejected |
| Fixes.RepairIs | stubgen.py:64-83 | an attempt meeting that description is the one `check` stops at |
| Fixes.Check | stubgen.py:64-83 | the loop of `check` computes `Repair` |
| Fixes.OperatorFixNoArgs | stubgen.py:237-242 | `+`, `-` and `*` without parameters become `__pos__`, `__neg__` and `__deref__` |
| Fixes.OperatorFixIncrements | stubgen.py:243-246 | `++` and `--` with one `int` parameter become `__postinc__` and `__postdec__` |
| Fixes.OperatorFixTable | stubgen.py:247 | otherwise the table applies: `+` with arguments is `__add__`, `++` without an `int` is `__preinc__` |
| Fixes.OperatorFixKeeps | stubgen.py:247 | a name that is not in the table is kept |
| Fixes.RenamesAreFinal | stubgen.py:197-236 | every table value is a dunder name, and no dunder name is a key |
| Fixes.ArityRenameShape | stubgen.py:237-246 | the arity cases produce dunder names and keep names starting with `_` |
| Fixes.OperatorFixIdempotent | stubgen.py:189-247 | `fix1` keeps a name or makes it a dunder, and a second `fix1` changes nothing |
| Fixes.ConversionFixIdempotent | stubgen.py:249-252 | a second `fix2` changes nothing |
| Fixes.NoBriefNeverAccepted | stubgen.py:64-83 | a declaration without a brief description always runs out of fixes |
| Grouping.Renamed | stubgen.py:364-367 | only a function is renamed, to `__init__`, exactly when it is called like the class |
| Grouping.RenamedAll | stubgen.py:363-367 | the first pass renames every member in place |
| Grouping.IndicesNamedSpec | stubgen.py:369 | `namespace[n]` holds exactly the positions of the members named `n`, in increasing order |
| Grouping.SharesName | stubgen.py:373-374 | another member carries the same name |
| Grouping.Marked | stubgen.py:376 | marking sets `overloaded` on a function and changes no other member |
| Grouping.Grouped | stubgen.py:363-376 | after both passes: names and kinds kept, only the constructor renamed, and a function overloaded exactly when it was already or another member shares its name |
| Grouping.ManyIffShared | stubgen.py:373-374 | a name is filed more than once exactly when another member carries it |
| Grouping.UniqueFunctionNotOverloaded | stubgen.py:373-376 | a function whose name no other member carries stays not overloaded |
| Grouping.SharedNameOverloaded | stubgen.py:373-376 | two members sharing a name are both marked when they are functions |
| Grouping.FunctionTemplatesFrom | stubgen.py:364-365 | every collected template comes from a function member |
| Grouping.FunctionTemplates | stubgen.py:364-365 | the templates of the function members, in member order |
| Grouping.AddTemplates | stubgen.py:351-365 | `set.update`: each template not yet held is appended; the next rows state its properties |
| Grouping.HoldsGrows | stubgen.py:356-365 | a template the set holds stays held |
| Grouping.AddTemplatesKeeps | stubgen.py:356-365 | `set.update` keeps every earlier entry |
| Grouping.AddTemplatesFrom | stubgen.py:356-365 | `set.update` adds only the new templates |
| Grouping.AddTemplatesHolds | stubgen.py:356-365 | after `set.update` the set holds every new template |
| Grouping.AddTemplatesSetLike | stubgen.py:351-365 | no two entries of the set render alike |
| Grouping.AddTemplatesAppend | stubgen.py:365 | updating with two batches in turn is updating with both |
| Grouping.GroupMembers | stubgen.py:363-376 | both loops compute `Grouped` and collect every function's templates |
| Grouping.FileMembers | stubgen.py:363-369 | the first loop renames, files every named member under its name, and collects templates |
| Grouping.File | stubgen.py:369 | filing adds the member's name as a key, and a member without a name changes nothing |
| Grouping.RenamingStep | stubgen.py:366-367 | one renamed member extends the renamed prefix |
| Grouping.FilingStep | stubgen.py:369 | filing one more member keeps the positions of every name exact |
| Grouping.TemplatesStep | stubgen.py:364-365 | one more member updates the set with its templates |
| Grouping.GroupedIs | stubgen.py:373-376 | the second loop's result is `Grouped` |
| Grouping.FunctionTemplatesSnoc | stubgen.py:364-365 | the templates of one more member come last |
| Grouping.IndicesNamedSnoc | stubgen.py:369 | one more member adds its own position under its own name |
| Grouping.MarkShared | stubgen.py:373-376 | the second loop marks exactly the members filed under a name with more than one entry |
| Grouping.MarkGroup | stubgen.py:375-376 | every member of one name is marked, and the others are unchanged |
| Resolution.PartQualname | stubgen.py:530-531 | only a nested part has a `qualname` |
| Resolution.Target | stubgen.py:519-523 | the target by `refid`, else by the first part's qualified name in the namespace; `ResolvedTarget` states it |
| Resolution.Resolvable | stubgen.py:525-533 | `is_resolvable`: a target after resolving, or a resolvable nested first part; `ResolvableAfterResolve` relates it to resolution |
| Resolution.ResolvedType | stubgen.py:513-523 | resolution keeps the element, override and number of parts, and leaves an empty type alone |
| Resolution.ResolvedTarget | stubgen.py:519-523 | the target comes from `refid` when possible, else from the `???` namespace entry of a nested first part, else none; an override still wins |
| Resolution.ResolvedParts | stubgen.py:514-516 | text parts are kept and nested parts are resolved |
| Resolution.ResolveIdempotent | stubgen.py:513-523 | resolving twice with the same maps is resolving once |
| Resolution.ResolvableAfterResolve | stubgen.py:525-533 | `is_resolvable` gives the same answer for a type already resolved |
| Resolution.ResolvedParam | stubgen.py:106-107 | `Param.resolve` only touches the type |
| Resolution.ResolvedParams | stubgen.py:185-186 | every parameter is resolved, in order |
| Resolution.ResolvedFunction | stubgen.py:183-186 | `Function.resolve` keeps the name, brief, templates, overload flag and parameter names |
| Resolution.ResolvedVariable | stubgen.py:288-290 | `Variable.resolve` keeps name, brief and value, and leaves a typedef alone |
| Resolution.ResolveMember | stubgen.py:383-385 | a member keeps its name and key, and files itself under its key |
| Resolution.ResolvedMembers | stubgen.py:383-385 | every member is resolved, in order |
| Resolution.MemberKey | stubgen.py:383-385 | a member is filed under a key exactly when it has a name |
| Resolution.ResolvedMembersFile | stubgen.py:383-386 | the members file exactly their keys, and leave every other name as it was |
| Resolution.ResolvedClass | stubgen.py:380-386 | `Class.resolve` keeps everything but bases and members, and files the class last under its qualified name |
| Resolution.ClassFilesEverything | stubgen.py:380-386 | after `Class.resolve` every member's key is in the namespace |
| Resolution.ResolvedMembersKeepKeys | stubgen.py:383-385 | resolution keeps each member's key |
| Construction.Entries | stubgen.py:32-34 | an object is filed under its id only when it has one |
| Construction.CheckOrRaise | stubgen.py:64-83 | `check` passes exactly when `Repair` accepts, and then leaves the entity with the name `Repair` settles on, a name some number of fixes gives and the parser accepts; otherwise it raises with the last attempt rejected |
| Construction.CheckAsIs | stubgen.py:64-83 | an entity without fixes passes exactly when the parser accepts it |
| Construction.DefaultOf | stubgen.py:95-102 | a default exists exactly when `defval` does: `print` for a callable, else translated text without `*` or `&` |
| Construction.ParamName | stubgen.py:88-92 | without `declname` the name is `_`; it fails exactly when a `declname` has no text |
| Construction.TemplateName | stubgen.py:143-154 | a `declname` child, when present, gives the name: its text, and a failure when it has none |
| Construction.ParamOf | stubgen.py:86-104 | a parameter keeps its name or gets `_` in front, with its type and default, once its stub parses |
| Construction.TemplateOf | stubgen.py:139-156 | a template is named by `declname` or by the word after `class`/`typename`, stripped, and ignored exactly when it mentions `enable_if` |
| Construction.ParamStep | stubgen.py:173 | the loop step: the next element's parameter extends the parameters built |
| Construction.ParamLogStep | stubgen.py:173 | the loop step: the next parameter files its entry, under its element's id, after those before it |
| Construction.TemplateStep | stubgen.py:176 | the loop step: the next element's template extends the templates built |
| Construction.TemplateLogStep | stubgen.py:176 | the loop step: the next template files its entry after those before it |
| Construction.ParamsOf | stubgen.py:173 | one parameter per `param` element, each built as `Param(xml)` leaves it, what they file is `ParamLog` (each under its element's id, in order), and a failure when one of them has an unusable name |
| Construction.TemplatesOf | stubgen.py:176 | one template per `param` element, each built as `Template(xml)` leaves it, what they file is `TemplateLog`, and a failure when one of them has no name |
| Construction.TemplateListOf | stubgen.py:174-178 | no templates and nothing filed without a `templateparamlist`, else one built template per `param`, in order (`TemplateListBuilt`), filing `TemplateListLog` |
| Construction.FunctionOf | stubgen.py:169-181 | `FunctionBuilt`: the name is what `check` leaves of the `name` text; brief, return type, one built parameter per `param` and the templates of its `templateparamlist`; not overloaded; it files itself under its id and its parameters and templates as `FunctionLog` says; no brief or no name raises |
| Construction.VariableOf | stubgen.py:280-286 | `VariableBuilt`: the draft named by the `name` text, typed by its `type` child, valued `...` and with its brief, under the name `check` leaves it with |
| Construction.EnumValueOf | stubgen.py:321-322 | one enum value: the variable its element builds, given `enum.auto()`, filed under the element's id with nothing nested |
| Construction.ValueStep | stubgen.py:320-323 | the loop step: one more value, built from the next `enumvalue`, extends the values built |
| Construction.ValueLogStep | stubgen.py:320-323 | the loop step: the next value files its entry after those before it |
| Construction.EnumValuesOf | stubgen.py:319-323 | one value per `enumvalue`, in order, each the variable its element builds with the value `enum.auto()`, filing `ValueLog`; one without a brief raises |
| Construction.EnumOf | stubgen.py:314-325 | `EnumBuilt`: qualified name `type_parse(compoundname)`, the stripped `name` text, the brief, `strong == "yes"`, one built value per `enumvalue`, accepted by the parser; its values filed as `EnumLog` says |
| Construction.TypedefOf | stubgen.py:405-412 | `TypedefBuilt`: the variable its element builds, with `TypeAlias` as its type and the aliased `Type` as its value, and the templates of its `templateparamlist`, which file `TemplateListLog` |
| Construction.KindOf | stubgen.py:401-416 | the four member kinds `do_iter` builds are told apart, and every other kind falls outside `BuiltKinds` |
| Construction.VariableMemberOf | stubgen.py:401-402 | a `variable` member: one variable of the element's id, filing nothing nested |
| Construction.FunctionMemberOf | stubgen.py:403-404 | a `function` member: one function of the element's id, not overloaded, with what its parameters and templates file |
| Construction.TypedefMemberOf | stubgen.py:405-412 | a `typedef` member: one alias of the element's id, with its templates and what they file |
| Construction.EnumMemberOf | stubgen.py:413-414 | an `enum` member: one enum of the element's id, with what its values file |
| Construction.SingleYield | stubgen.py:400-414 | a lone variable, enum or not-yet-overloaded function is a member `do_iter` may yield |
| Construction.MemberDef | stubgen.py:398-417 | `MemberBuilt`: for the four built kinds one member of the element's id, built as that kind's constructor builds it, with exactly the entries its parts file; nothing for any other kind |
| Construction.Visit | stubgen.py:396-426 | `VisitBuilt`: a header yields `# text`, a private member nothing, any other `memberdef` what `MemberDef` builds, an inner class or namespace a nested type, any other tag nothing |
| Construction.DoIter | stubgen.py:388-426 | `DoIterBuilt`: the members and templates are what each child yields (a `sectiondef` walked in place, any other child visited), joined in document order |
| Construction.Members | stubgen.py:360 | `list(do_iter(xml))` keeps the order |
| Construction.ItemEntries | stubgen.py:32-34 | the entries the yielded members file, in order, each in its final state; `OwnEntries` and `ItemEntriesFile` state what each member files |
| Construction.OwnEntries | stubgen.py:32-34 | one yielded member files its final state under its id when it is an entity, and everything its parts filed |
| Construction.ItemEntriesFile | stubgen.py:32-34 | every yielded member with an id files its final state under it, and everything its parts filed is filed with it |
| Construction.BasesOf | stubgen.py:349 | one type per `basecompoundref` |
| Construction.ClassTemplates | stubgen.py:351-365 | `Class.templates`: no two entries render alike, every generic, typedef and function template is held, and nothing else is in it |
| Construction.TemplateSetsJoin | stubgen.py:351-365 | three `set.update`s from the empty set hold exactly the templates of the three lists, pairwise distinct |
| Construction.ClassMembers | stubgen.py:351-376 | the members are what `do_iter` yields, grouped by `Grouped`; the templates are the generic ones, then the typedefs', then the functions', added as to a set; they render pairwise differently and hold every generic template |
| Construction.ClassNames | stubgen.py:344-348 | the qualified name is cut before `[`, and the name has no `.` |
| Construction.ClassNameIsTail | stubgen.py:348 | the name is a suffix of the qualified name |
| Construction.ClassDraft | stubgen.py:342-376 | `ClassShape`: a class gets its kind, names, brief, bases, generic templates, and the members and templates `ClassMembers` states; `ClassBuilt`: its id, and the entries of its generic templates followed by those of each yielded member, in order, in its final state |
| Construction.CheckClass | stubgen.py:378 | the `check` of a class returns it unchanged exactly when the parser accepts it |
| Construction.ClassOf | stubgen.py:342-378 | the draft class and what it files (`ClassBuilt`), once its stub parses; a class without a brief always raises |
| Construction.GroupedClass | stubgen.py:363-376 | after grouping no function is called like the class, and a function is overloaded exactly when another member shares its name |
| Construction.ParamBuiltUnique | stubgen.py:86-104 | what a `param` element builds is determined by the element and the parser |
| Construction.TemplateBuiltUnique | stubgen.py:139-156 | likewise for a template |
| Construction.TemplateListBuiltUnique | stubgen.py:174-178 | likewise for a `templateparamlist` |
| Construction.VariableBuiltUnique | stubgen.py:280-286 | likewise for a variable |
| Construction.FunctionBuiltUnique | stubgen.py:169-181 | likewise for a function |
| Construction.EnumBuiltUnique | stubgen.py:314-325 | likewise for an enum |
| Construction.TypedefBuiltUnique | stubgen.py:405-412 | likewise for a typedef and its templates |
| Construction.VariableMemberUnique | stubgen.py:401-402 | a `variable` member yields one determined result |
| Construction.FunctionMemberUnique | stubgen.py:403-404 | likewise for a `function` member, the entries its parts file included |
| Construction.TypedefMemberUnique | stubgen.py:405-412 | likewise for a `typedef` member and its templates |
| Construction.EnumMemberUnique | stubgen.py:413-414 | likewise for an `enum` member |
| Construction.MemberBuiltUnique | stubgen.py:398-417 | what a `memberdef` yields is determined by its element and kind: the same items (member, id and the entries its parts file) and templates |
| Construction.VisitBuiltUnique | stubgen.py:396-426 | likewise for any child `do_iter` visits |
| Construction.DoIterBuiltUnique | stubgen.py:388-426 | what `do_iter` yields for an element is determined: any two results are equal, the entries filed included |
| Construction.ClassShapeUnique | stubgen.py:342-376 | `ClassShape` determines every field of a class, members and templates included |
| Construction.ClassBuiltUnique | stubgen.py:342-378 | `ClassBuilt` determines the class, its id and every entry it files |
| Context.LastEntryWins | stubgen.py:32-34 | an id maps to the object of the last write |
| Context.Filed | stubgen.py:32-34 | the instances map after the entries are written in order; `LastEntryWins` and `FiledKeys` state its contents |
| Context.FiledKeys | stubgen.py:32-34 | writing adds exactly the written ids and keeps every other entry |
| Context.Registry.constructor | stubgen.py:20-21 | both registries start empty |
| Context.Registry.Register | stubgen.py:32-34 | `INSTANCES[id] = self` for every entry, in order; `NAMESPACE` unchanged |
| Context.Registry.ResolveType | stubgen.py:513-523 | `Type.resolve` computes `ResolvedType` |
| Context.Registry.IsResolvable | stubgen.py:525-533 | `Type.is_resolvable` resolves, and answers `Resolvable` |
| Context.Registry.ResolveParam | stubgen.py:106-107 | `Param.resolve` computes `ResolvedParam` |
| Context.Registry.ResolveFunction | stubgen.py:183-187 | `Function.resolve` computes `ResolvedFunction` and files the function |
| Context.Registry.ResolveVariable | stubgen.py:288-291 | `Variable.resolve` computes `ResolvedVariable` and files the variable |
| Context.Registry.ResolveEnum | stubgen.py:327-328 | `Enum.resolve` files the enum under its qualified name |
| Context.Registry.ResolveMember | stubgen.py:383-385 | one member's `resolve`, as `Resolution.ResolveMember` says |
| Context.Registry.ResolveMembers | stubgen.py:383-385 | the member loop of `Class.resolve`, as `ResolvedMembers` says |
| Context.Registry.ResolveBases | stubgen.py:381-382 | every base is resolved |
| Context.Registry.ResolveClass | stubgen.py:380-386 | `Class.resolve` computes `ResolvedClass` and leaves the namespace as it says |
| Context.Registry.LoadClass | stubgen.py:342-378 | a class is built as `ClassShape` and `ClassBuilt` say and checked; the instances map is then the old one with the class filed under its id, followed by every part with an id (generic templates, then each member in order with its own parameters, templates or values) in its final state |

## Left out

- Reading the XML (lxml), the main driver that walks the compounds and writes the files (stubgen.py:590-631), and `black`. An XML element is the datatype `Xml.Element`.
- `ast.parse` and its warnings (stubgen.py:69-75). The parser is the parameter `valid`. The warning and error messages written to standard error are not modelled, nor is any other `print` to standard error.
- `UNKNOWN_MEMBER_DEFS`, `UNKNOWN_OTHER_DEFS` and `Type.LIST` are diagnostic collections; they are not modelled.
- `__eq__`, `__hash__` and `__repr__`. They matter in two places, and the model follows them there. The `int` test of `fix1` compares a type's rendering with `"int"`. The template set dedups by rendering.
- The Python `set` of templates has hash order. The model keeps insertion order, with no two entries rendering alike.
- Live aliasing between an object and its registry entries. Entities are values here. An object's `INSTANCES` entry is written from its final state, once the class that owns it is finished.
- A `Type` built from an element that has an `id` also files itself in `INSTANCES` (stubgen.py:477-479). The elements a type is built from carry `refid`, not `id`, so types are never filed here.
- TokenTranslator.SimpleParseClean: proves that no `<`, `>`, `&` or `*` survives `simple_parse`, but not that no `::` does. That claim is false: `ColonsCanSurvive` shows `simple_parse(":&:") == "::"`, because `&` is dropped after `::` has been rewritten.
- TokenTranslator.Boundary: decides `\b` with ASCII word characters (`Text.IsWordChar`: letters, digits and `_`). Python 3's `re` treats every Unicode letter and digit as a word character, so at a non-ASCII letter the two differ: `simple_parse("éint")` is `"éint"` in Python and `"é int"` here. Doxygen names of C++ code are ASCII, which is the case the model covers.
- WordMatch: inherits the ASCII `\b` of `Boundary`.
- CharPointerMatch: inherits the ASCII `\b` of `Boundary`.
- SizedIntMatch: inherits the ASCII `\b` of `Boundary`.
- RunEnd: inherits the ASCII `\b` of `Boundary`.
- IntRunMatch: inherits the ASCII `\b` of `Boundary`.
- MatchAt: inherits the ASCII `\b` of `Boundary`.
- Repr: escapes the ASCII control characters as Python does, but writes every non-ASCII character as it is; Python's `repr` also escapes the non-printable ones (for example `\x85` or `\u2028`).
- Quote: uses `Repr`, with the same gap for non-printable non-ASCII characters.
- ReprList: uses `Repr`, with the same gap; for two or more names it is stated through `Quote` only.
- Lines 421-424 of stubgen.py interleave two branches of `do_iter`. The model takes the evident reading: `innerclass` and `innernamespace` yield a `Type`, and any other tag yields nothing.
- The container passed to members (stubgen.py:389) is cleared by every constructor (stubgen.py:35), so it never reaches a qualified name; it is not modelled.
- An enum element has no `compoundname` child, so `type_parse` of it is `Any`. Every enum's qualified name is `Any`, modelled as written.
