# RegexBuilder.NET9 in Dafny

RegexBuilder builds .NET regular expressions as a tree of node objects and writes each tree out as pattern text. It also builds .NET replacement templates (the `$1`, `${name}`, `$$` syntax of `Regex.Replace`) in the same way. This project models, and proves properties of:

- **the fluent `PatternBuilder`.** It accumulates nodes into a current branch and freezes branches on `Or`. `Build` collapses its state into nothing, one node, a concatenation or an alternation. It is a Dafny class with `seq` fields. Every method states its whole new state, and the `Valid()` invariant is preserved.
- **the static `RegexBuilder` facade.** These are the node factories and the `Build` overloads, up to the pattern text and options handed to the engine. It includes the `\xNN`, `\uNNNN` and three-digit octal escapes, the shortcut and anchor tokens, and literal escaping.
- **the node tree.** It is one closed datatype with its rendering (`ToRegexPattern`). A node's quantifier is wrapped in `(?:...)` unless the body is a single unit. Three node kinds are also classes with their setters:
  - balancing group;
  - inline option grouping;
  - Unicode category.
- **the replacement templates.** This covers:
  - literals, which double each `$`;
  - numbered and named group references;
  - the six special references;
  - concatenations, rendered by the same loop as the source;
  - the `SubstitutionBuilder` facade.

Files, one module each:

| file | module | models |
|---|---|---|
| common.dfy | Common | null as `Option`, the exception kinds as `Error`, `Result`/`Outcome`, `int`/`byte` |
| text_format.dfy | TextFormat | decimal, hexadecimal and octal digits, left padding, string concatenation |
| quantifier.dfy | Quantifiers | the quantifier suffixes `*`, `+`, `?`, `{n}`, `{n,}`, `{n,m}` and their lazy forms |
| regex_options.dfy | RegexOptionFlags | `RegexOptions` flags, the `imsnx` letters and the inline-mode check |
| regex_nodes.dfy | RegexNodes | the node datatype, escaping, rendering |
| balancing_group.dfy | BalancingGroups | `RegexNodeBalancingGroup` |
| inline_option_grouping.dfy | InlineOptionGroupings | `RegexNodeInlineOptionGrouping` |
| unicode_category.dfy | UnicodeCategories | `RegexNodeUnicodeCategory` |
| regex_builder.dfy | RegexFacade | `RegexBuilder` static factories |
| pattern_builder.dfy | PatternBuilding | `PatternBuilder` |
| substitutions.dfy | Substitutions | the substitution node types |
| substitution_builder.dfy | SubstitutionFacade | `SubstitutionBuilder` |

Conventions:

- A null argument is `None` wherever the source checks for null and raises an error. These are `Build`, `BuildWithOptions`, the inline option grouping, Unicode category and balancing group factories and constructors, the `PatternBuilder` methods that take a node, text or action, and the substitution side. The other factories take plain values (see "## Left out").
- A thrown exception is an `Err`/`Fail` value that carries the exception kind and its message or parameter name.
- A fluent call that returns `this` returns `Pass`.
- The other node kinds are datatype variants:
  - `RegexNode`, `RegexQuantifier`, literal, escaping literal, concatenation, alternation, group, character set and range, look-around, conditional, back-reference, comment.
  - Their rendering follows the assertions in `src/RegexBuilder.Tests`. Those are the lines cited for them below. Where no assertion fixes a case, "## Left out" names the assumption taken.

Source behaviours worth knowing, all modelled as written:

- A quantified literal is not grouped when its text is one character or a backslash and one character: `\w?`, `\d{1,4}?`, `\\?`. It is grouped otherwise: `(?:\x7f){1,4}?`.
- With an alternation, `PatternBuilder.Build` is not idempotent. Each call appends the current branch to the frozen branches again. So a second `Build` ends with the last alternative twice (`RebuildRepeatsLastBranch`, `AlternationBuiltTwice`).
- A balancing group with an empty pop name renders in the simple form `(?<push>-inner)`.
- When several invalid flags are present, the inline-options check names the last one it tests. So `CultureInvariant` wins over `ECMAScript`, which wins over `RightToLeft`, which wins over `Compiled`.
- `SubstitutionBuilder.Build(params)` reports an empty or null array as an argument error, with a message different from `Concatenate`'s.

## Model

| member | source | states |
|---|---|---|
| TextFormat.ToBaseRoundTrip | src/RegexBuilder/RegexBuilder.cs:1098-1103 | reading the base-b digits written for n gives back n (the octal and hex escapes and `$n` are decodable) |
| TextFormat.ToBaseDigits | src/RegexBuilder/RegexBuilder.cs:1098-1103 | the digits written for n are at least one and all digits of the base |
| TextFormat.ToBaseLength | src/RegexBuilder/RegexBuilder.cs:1098-1103 | a number below b^k needs at most k digits (an octal byte fits three) |
| TextFormat.PadLeft | src/RegexBuilder/RegexBuilder.cs:1098-1103 | `PadLeft(width, c)`: unchanged when already wide enough, otherwise exactly `width` long, and always some run of `c` followed by the original text |
| TextFormat.HexSpec | src/RegexBuilder/RegexBuilder.cs:150-153 | the `x2`/`x4` formats: lower-case hex digits reading back as the number, at least `width` of them, exactly `width` when the number fits |
| TextFormat.ConcatAppend | src/RegexBuilder/SubstitutionTypes/SubstitutionConcatenation.cs:49-57 | concatenating two lists of strings one after the other equals concatenating each and joining the results |
| Quantifiers.TextEmptyIff | src/RegexBuilder/RegexNodeTypes/RegexNodeBalancingGroup.cs:134-137 | a quantifier adds text exactly when it is not `None` |
| Quantifiers.LazySuffix | src/RegexBuilder.Tests/RegexNodeRenderingTests.cs:610-628 | a lazy quantifier is its greedy form followed by `?`; a greedy counted or `*`/`+` form does not end with `?` |
| Quantifiers.CountedTexts | src/RegexBuilder.Tests/RegexNodeRenderingTests.cs:543-550 | `Exactly(n)` is `{n}`, `AtLeast(n)` is `{n,}`, `Custom(n,m)` is `{n,m}` for n ≠ m and `{n}` for n = m, e.g. `{2,}?`, `{3}`, `{1,5}`, `{1,4}?` |
| RegexOptionFlags.InlineLetters | src/RegexBuilder/RegexNodeTypes/RegexNodeInlineOptionGrouping.cs:118-127 | the inline flags' letters are `imsnx`, all distinct |
| RegexOptionFlags.FormatOptionsUnfold | src/RegexBuilder/RegexNodeTypes/RegexNodeInlineOptionGrouping.cs:118-127 | `FormatOptions` is the letters i, m, s, n, x of the set flags, in that order |
| RegexOptionFlags.FormatOptionsSpec | src/RegexBuilder/RegexNodeTypes/RegexNodeInlineOptionGrouping.cs:118-127 | `FormatOptions` is a subsequence of `imsnx`, and contains a flag's letter exactly when the flag is set |
| RegexOptionFlags.FormatOptionsLetters | src/RegexBuilder/RegexNodeTypes/RegexNodeInlineOptionGrouping.cs:87-113 | the option letters never contain `-` or `:`, so the grouping's separators are unambiguous |
| RegexOptionFlags.OptionsTextSpec | src/RegexBuilder/RegexNodeTypes/RegexNodeInlineOptionGrouping.cs:89-104 | the options text is E when D is empty, otherwise E-D (so -D when only D is set); it has a `-` exactly when D is non-empty |
| RegexOptionFlags.ValidateOptionsIff | src/RegexBuilder/RegexNodeTypes/RegexNodeInlineOptionGrouping.cs:132-162 | `ValidateOptions` refuses a set exactly when it contains Compiled, RightToLeft, ECMAScript or CultureInvariant; `None` is accepted |
| RegexOptionFlags.ValidateOptionsPriority | src/RegexBuilder/RegexNodeTypes/RegexNodeInlineOptionGrouping.cs:140-161 | the message names the last invalid flag checked: CultureInvariant, then ECMAScript, then RightToLeft, then Compiled |
| RegexNodes.EscapeRoundTrip | src/RegexBuilder/RegexBuilder.cs:85-99 | unescaping an escaped literal gives back the text; the escaped text is well-formed and one character longer per metacharacter |
| RegexNodes.UnescapeRoundTrip | src/RegexBuilder/RegexBuilder.cs:85-99 | every well-formed escaped text is the escaping of its unescaping (escaping is onto the well-formed texts) |
| RegexNodes.EscapeConcat | src/RegexBuilder/RegexBuilder.cs:85-99 | escaping works character by character: escape(a + b) = escape(a) + escape(b) |
| RegexNodes.EscapeNoMeta | src/RegexBuilder/RegexBuilder.cs:85-99 | text without metacharacters is written unchanged |
| RegexNodes.EscapedLiteralAtomic | src/RegexBuilder.Tests/RegexNodeRenderingTests.cs:37-53 | an escaped literal takes a quantifier without a group exactly when the source text is one character long |
| RegexNodes.SetCharsRoundTrip | src/RegexBuilder.Tests/RegexNodeRenderingTests.cs:230-234 | a character array in brackets, with `]`, `^` and `\` escaped, reads back as the same characters |
| RegexNodes.CodeEscapeSpec | src/RegexBuilder.Tests/RegexNodeRenderingTests.cs:236-241 | `\uNNNN` for a BMP character is six characters of four hex digits reading back as the code |
| RegexNodes.ConcatenationSplit | src/RegexBuilder.Tests/RegexNodeRenderingTests.cs:80-113 | an unquantified concatenation split in two renders as the two halves one after the other |
| RegexNodes.ConcatenationSingleton | src/RegexBuilder.Tests/RegexNodeRenderingTests.cs:80-113 | an unquantified concatenation of one node renders as that node |
| RegexNodes.QuantifierPlacement | src/RegexBuilder/RegexNodeTypes/RegexNodeBalancingGroup.cs:134-137 | for every node: no quantifier where not allowed; none adds nothing; an atomic body gets the suffix directly; any other body is wrapped in `(?:...)` first |
| RegexNodes.LiteralGrouping | src/RegexBuilder.Tests/RegexBuilderTests.cs:16-17 | a quantified literal is grouped exactly when its text is not one character or a backslash plus one character; an escaping literal exactly when its source text is not one character |
| RegexNodes.LiteralExamples | src/RegexBuilder.Tests/RegexNodeRenderingTests.cs:27-53 | `\w?`, `a*`, `\\?` are not grouped; `a.b` escapes to `a\.b` |
| RegexNodes.AlternationExample | src/RegexBuilder.Tests/RegexNodeRenderingTests.cs:135-137 | `\w*` or `\d+`, quantified `*`, renders `(?:\w*\|\d+)*` |
| RegexNodes.ConcatenationExample | src/RegexBuilder.Tests/RegexNodeRenderingTests.cs:100-101 | `\w*` then `\d+`, quantified `?`, renders `(?:\w*\d+)?` |
| RegexNodes.NamedGroupExample | src/RegexBuilder.Tests/RegexNodeRenderingTests.cs:389-392 | a named group with `*` renders `(?<SomeGroup>abc)*` |
| RegexNodes.LookBehindExample | src/RegexBuilder/RegexBuilder.cs:395-417 | a positive look-behind renders as a non-capturing group holding `(?<=lookup)` then the match: `(?:(?<=a)b)` |
| RegexNodes.CharacterArrayExample | src/RegexBuilder.Tests/RegexNodeRenderingTests.cs:230-231 | `]` and `^` in a character array are escaped: `[a\]\^]` |
| RegexNodes.BackReferenceExample | src/RegexBuilder.Tests/RegexNodeRenderingTests.cs:421-423 | a named back-reference with `{2}` renders `\k<SomeGroup>{2}` |
| BalancingGroups.ConstructorError | src/RegexBuilder/RegexNodeTypes/RegexNodeBalancingGroup.cs:70-100 | both constructors refuse a null or empty name, with the constructor's own message, before a null inner expression, and accept exactly the other inputs |
| BalancingGroups.BalancingGroup.Init | src/RegexBuilder/RegexNodeTypes/RegexNodeBalancingGroup.cs:78-80 | the fields hold the given names and inner expression, with no quantifier |
| BalancingGroups.BalancingGroup.ToRegexPattern | src/RegexBuilder/RegexNodeTypes/RegexNodeBalancingGroup.cs:110-139 | the object renders as its node value |
| BalancingGroups.BalancingGroup.SetInnerExpression | src/RegexBuilder/RegexNodeTypes/RegexNodeBalancingGroup.cs:41-52 | null is refused (`value`) and leaves the expression as it was; otherwise only the expression changes |
| BalancingGroups.BalancingGroup.SetPushGroupName | src/RegexBuilder/RegexNodeTypes/RegexNodeBalancingGroup.cs:29 | only the push name changes, to any value |
| BalancingGroups.BalancingGroup.SetPopGroupName | src/RegexBuilder/RegexNodeTypes/RegexNodeBalancingGroup.cs:36 | only the pop name changes, to any value |
| BalancingGroups.BalancingGroup.SetQuantifier | src/RegexBuilder.Tests/RegexNodeRenderingTests.cs:1195-1196 | only the quantifier changes |
| BalancingGroups.NewBalancingGroup | src/RegexBuilder/RegexNodeTypes/RegexNodeBalancingGroup.cs:70-81 | the two-name constructor: the validation error, or a fresh group holding exactly the arguments |
| BalancingGroups.NewSimpleBalancingGroup | src/RegexBuilder/RegexNodeTypes/RegexNodeBalancingGroup.cs:89-100 | the single-name constructor: the validation error, or a fresh group with no pop name, which is therefore a simple balancing group |
| BalancingGroups.QuantifierAppended | src/RegexBuilder/RegexNodeTypes/RegexNodeBalancingGroup.cs:134-137 | the quantifier is appended after the closing paren, never wrapped |
| BalancingGroups.FormatForms | src/RegexBuilder/RegexNodeTypes/RegexNodeBalancingGroup.cs:114-132 | `(?<push>-inner)` without a pop name, the same for an empty pop name, and `(?<push-pop>inner)` otherwise |
| BalancingGroups.InnerOnlyChangesInnerText | src/RegexBuilder.Tests/RegexNodeRenderingTests.cs:1195-1200 | replacing the inner expression changes only the inner part of the rendering |
| BalancingGroups.SimpleFormExample | src/RegexBuilder.Tests/RegexNodeRenderingTests.cs:1114-1122 | push `push`, empty pop, inner `test` renders `(?<push>-test)` |
| InlineOptionGroupings.ConstructorError | src/RegexBuilder/RegexNodeTypes/RegexNodeInlineOptionGrouping.cs:80-85 | the constructor checks the enabled options, then the disabled ones, then a null inner expression, and accepts exactly the other inputs |
| InlineOptionGroupings.InlineOptionGrouping.Init | src/RegexBuilder/RegexNodeTypes/RegexNodeInlineOptionGrouping.cs:80-85 | the fields hold the given options and inner expression, and the invariant holds |
| InlineOptionGroupings.InlineOptionGrouping.ToRegexPattern | src/RegexBuilder/RegexNodeTypes/RegexNodeInlineOptionGrouping.cs:87-113 | the object renders as its node value |
| InlineOptionGroupings.InlineOptionGrouping.SetEnabledOptions | src/RegexBuilder/RegexNodeTypes/RegexNodeInlineOptionGrouping.cs:25-33 | a refused value leaves the enabled options unchanged and fails with the validation error; otherwise only they change; the invariant is kept |
| InlineOptionGroupings.InlineOptionGrouping.SetDisabledOptions | src/RegexBuilder/RegexNodeTypes/RegexNodeInlineOptionGrouping.cs:38-46 | the same for the disabled options |
| InlineOptionGroupings.InlineOptionGrouping.SetInnerExpression | src/RegexBuilder/RegexNodeTypes/RegexNodeInlineOptionGrouping.cs:51-62 | null is refused (`value`) and changes nothing; otherwise only the expression changes |
| InlineOptionGroupings.NewInlineOptionGrouping | src/RegexBuilder/RegexNodeTypes/RegexNodeInlineOptionGrouping.cs:69-85 | the constructors: the first error in check order, or a fresh valid grouping holding exactly the arguments |
| InlineOptionGroupings.FormatShape | src/RegexBuilder/RegexNodeTypes/RegexNodeInlineOptionGrouping.cs:87-113 | the rendering is `(?` + options + `:` + inner + `)`, with no quantifier; the options contain every enabled flag's letter, have no `:`, and have a `-` exactly when something is disabled |
| InlineOptionGroupings.EnabledExamples | src/RegexBuilder.Tests/RegexBuilderTests.cs:461-493 | IgnoreCase with Multiline gives `(?im:...)`; IgnoreCase and Singleline against Multiline and ExplicitCapture give `(?is-mn:...)` |
| InlineOptionGroupings.DisabledExamples | src/RegexBuilder.Tests/RegexBuilderTests.cs:482-504 | `(?i-m:...)`, and `(?-i:...)` when nothing is enabled |
| UnicodeCategories.CategoryNameError | src/RegexBuilder/RegexNodeTypes/RegexNodeUnicodeCategory.cs:42-51 | a category name is refused exactly when it is null or empty; any other name is accepted, unchecked against a list |
| UnicodeCategories.UnicodeCategory.Init | src/RegexBuilder/RegexNodeTypes/RegexNodeUnicodeCategory.cs:49-50 | the fields hold the name and negation, with no quantifier |
| UnicodeCategories.UnicodeCategory.ToRegexPattern | src/RegexBuilder/RegexNodeTypes/RegexNodeUnicodeCategory.cs:57-67 | the object renders as its node value |
| UnicodeCategories.UnicodeCategory.SetCategoryName | src/RegexBuilder/RegexNodeTypes/RegexNodeUnicodeCategory.cs:21 | only the name changes |
| UnicodeCategories.UnicodeCategory.SetIsNegated | src/RegexBuilder/RegexNodeTypes/RegexNodeUnicodeCategory.cs:26 | only the negation changes |
| UnicodeCategories.UnicodeCategory.SetQuantifier | src/RegexBuilder/RegexNodeTypes/RegexNodeUnicodeCategory.cs:62-65 | only the quantifier changes |
| UnicodeCategories.NewUnicodeCategory | src/RegexBuilder/RegexNodeTypes/RegexNodeUnicodeCategory.cs:32-51 | the constructors: the name error, or a fresh category holding exactly the arguments |
| UnicodeCategories.NameReadBack | src/RegexBuilder/RegexNodeTypes/RegexNodeUnicodeCategory.cs:59-60 | the rendering is `\p{` or `\P{`, the name verbatim, then `}`; negation changes only the letter p/P |
| UnicodeCategories.QuantifierAppended | src/RegexBuilder/RegexNodeTypes/RegexNodeUnicodeCategory.cs:62-65 | the quantifier is appended directly, never wrapped |
| UnicodeCategories.CategoryExamples | src/RegexBuilder.Tests/RegexNodeRenderingTests.cs:501-534 | `\p{L}+`, `\P{N}+`, `\p{Nd}{3}`, `\P{L}{2,}?` |
| RegexFacade.Build | src/RegexBuilder/RegexBuilder.cs:16-22 | a null root is refused (`rootNode`); otherwise the root's rendering with no options |
| RegexFacade.BuildWithOptions | src/RegexBuilder/RegexBuilder.cs:31-37 | a null root is refused (`rootNode`); otherwise the root's rendering with the given options |
| RegexFacade.BuildAll | src/RegexBuilder/RegexBuilder.cs:45-61 | the pattern is the nodes' renderings one after another, with the given options |
| RegexFacade.Literal | src/RegexBuilder/RegexBuilder.cs:85-99 | the body is a well-formed escaping that unescapes to the value; it takes a quantifier directly exactly when the value is one character |
| RegexFacade.NonEscapedLiteral | src/RegexBuilder/RegexBuilder.cs:107-122 | the body is the value verbatim, carrying the quantifier |
| RegexFacade.MetaCharacter | src/RegexBuilder/RegexBuilder.cs:129-143 | the pattern verbatim under the quantifier: unquantified it is the pattern itself, a one-unit pattern such as `\d` takes the quantifier directly, and a longer one is wrapped in `(?:...)` first |
| RegexFacade.MetaCharacterIsNonEscapedLiteral | src/RegexBuilder/RegexBuilder.cs:129-143 | a meta-character is the same literal node as the non-escaped literal of its pattern |
| RegexFacade.AsciiCharacter | src/RegexBuilder/RegexBuilder.cs:150-163 | `\x` and two lower-case hex digits reading back as the byte; always grouped under a quantifier |
| RegexFacade.UnicodeCharacter | src/RegexBuilder/RegexBuilder.cs:171-184 | `\u` and hex digits reading back as the code modulo 2^32 (two's complement for negatives), exactly four of them for a BMP code |
| RegexFacade.OctalCharacter | src/RegexBuilder/RegexBuilder.cs:1098-1113 | a non-atomic escape of exactly four characters, `\` and the padded octal text of the value's low byte, under the given quantifier |
| RegexFacade.OctalCharacterReadsBack | src/RegexBuilder/RegexBuilder.cs:1098-1113 | the three characters after `\` are octal digits and read back as the value's low byte |
| RegexFacade.Comment | src/RegexBuilder/RegexBuilder.cs:192 | `(?#text)`, taking no quantifier |
| RegexFacade.InlineOptionGrouping | src/RegexBuilder/RegexBuilder.cs:203-218 | the grouping constructor's error, or `(?options:inner)`; accepted exactly when the constructor accepts |
| RegexFacade.GroupBackReferenceByIndex | src/RegexBuilder/RegexBuilder.cs:226 | `\` and the decimal index, then the quantifier |
| RegexFacade.GroupBackReferenceByName | src/RegexBuilder/RegexBuilder.cs:236-250 | `\k<name>` then the quantifier |
| RegexFacade.CharacterSet | src/RegexBuilder/RegexBuilder.cs:258-285 | `[`, `^` when negated, the characters, `]`, then the quantifier |
| RegexFacade.CharacterArraySet | src/RegexBuilder/RegexBuilder.cs:270-296 | the same around the array's characters (escaped or as code escapes) |
| RegexFacade.CharacterRange | src/RegexBuilder/RegexBuilder.cs:306-322 | `[a-b]`, `[^a-b]`, with both ends as code escapes when asked |
| RegexFacade.UnicodeCategory | src/RegexBuilder/RegexBuilder.cs:329-364 | a null or empty name is refused; otherwise `\p{name}`/`\P{name}` and the quantifier |
| RegexFacade.PositiveLookAhead | src/RegexBuilder/RegexBuilder.cs:372-393 | `(?:match(?=lookup))` then the quantifier |
| RegexFacade.PositiveLookBehind | src/RegexBuilder/RegexBuilder.cs:395-416 | `(?:(?<=lookup)match)` then the quantifier |
| RegexFacade.NegativeLookAhead | src/RegexBuilder/RegexBuilder.cs:418-439 | `(?:match(?!lookup))` then the quantifier |
| RegexFacade.NegativeLookBehind | src/RegexBuilder/RegexBuilder.cs:441-462 | `(?:(?<!lookup)match)` then the quantifier |
| RegexFacade.Group | src/RegexBuilder/RegexBuilder.cs:463-483 | `(inner)` then the quantifier |
| RegexFacade.NamedGroup | src/RegexBuilder/RegexBuilder.cs:485-505 | `(?<name>inner)` then the quantifier |
| RegexFacade.NonCapturingGroup | src/RegexBuilder/RegexBuilder.cs:507-521 | `(?:inner)` then the quantifier |
| RegexFacade.BacktrackingSuppression | src/RegexBuilder/RegexBuilder.cs:557-571 | `(?>inner)` then the quantifier |
| RegexFacade.BalancingGroup | src/RegexBuilder/RegexBuilder.cs:582-608 | the two-name constructor's error, accepted exactly when it accepts; simple form for a null or empty pop name, two-name form otherwise, quantifier appended |
| RegexFacade.SimpleBalancingGroup | src/RegexBuilder/RegexBuilder.cs:610-627 | the single-name constructor's error, accepted exactly when it accepts; `(?<name>-inner)` and the quantifier |
| RegexFacade.Alternate | src/RegexBuilder/RegexBuilder.cs:657-671 | `(?:` and the alternatives' renderings joined by `\|`, `)`, then the quantifier |
| RegexFacade.Alternate2 | src/RegexBuilder/RegexBuilder.cs:635-655 | `(?:a\|b)` then the quantifier |
| RegexFacade.ConditionalMatch | src/RegexBuilder/RegexBuilder.cs:680-703 | `(?(condition)yes\|no)` then the quantifier |
| RegexFacade.ConditionalMatchOnGroup | src/RegexBuilder/RegexBuilder.cs:705-721 | `(?(group)yes\|no)` then the quantifier |
| RegexFacade.Concatenate | src/RegexBuilder/RegexBuilder.cs:729-817 | the renderings one after another; under a quantifier, grouped first when there is more than one node |
| RegexFacade.Shortcut | src/RegexBuilder/RegexBuilder.cs:827-935 | a shortcut is a meta-character of its fixed token and renders as the token followed by the quantifier, never grouped |
| RegexFacade.AnchorNode | src/RegexBuilder/RegexBuilder.cs:945-1011 | an anchor is a meta-character of its fixed token (`^`, `$`, `\A`, ...) and renders as the token |
| RegexFacade.ShortcutRendering | src/RegexBuilder/RegexBuilder.cs:827-1091 | every shortcut token is a single unit, and distinct shortcuts have distinct tokens |
| RegexFacade.AnchorRendering | src/RegexBuilder/RegexBuilder.cs:945-1011 | distinct anchors have distinct tokens |
| RegexFacade.BuildAllExample | src/RegexBuilder.Tests/RegexBuilderTests.cs:56-57 | `Literal("abc")`, range a-f and line end give `abc[a-f]$` |
| RegexFacade.AsciiExample | src/RegexBuilder.Tests/RegexBuilderTests.cs:13-14 | 0x30 gives `\x30` |
| RegexFacade.AsciiQuantifiedExample | src/RegexBuilder.Tests/RegexBuilderTests.cs:16-17 | 0x7f with lazy `{1,4}` gives `(?:\x7f){1,4}?` |
| RegexFacade.OctalExample255 | src/RegexBuilder.Tests/RegexBuilderTests.cs:330-331 | 255 gives `\377` |
| RegexFacade.OctalExample10 | src/RegexBuilder.Tests/RegexBuilderTests.cs:337-338 | 10 gives `\012` |
| RegexFacade.OctalQuantifiedExample | src/RegexBuilder.Tests/RegexBuilderTests.cs:344-345 | 65 with `{3}` gives `(?:\101){3}` |
| RegexFacade.AtomicLiteralExamples | src/RegexBuilder.Tests/RegexNodeRenderingTests.cs:27-28 | `a?`, `\w?`, `\d{1,4}?`: no group around a single unit |
| RegexFacade.AlternateExample | src/RegexBuilder.Tests/RegexNodeRenderingTests.cs:146-147 | `\w*`, `\d+`, `\s?` with `{5,}` give `(?:\w*\|\d+\|\s?){5,}` |
| RegexFacade.EscapingExample | src/RegexBuilder.Tests/RegexNodeRenderingTests.cs:37-38 | `\w\b.353\s` renders as `\\w\\b\.353\\s` |
| PatternBuilding.QuantifierFor | src/RegexBuilder/PatternBuilder.cs:379-402 | no bounds: no quantifier; the negative-min, negative-max and max-below-min errors in that order; otherwise a greedy counted quantifier with min (0 when absent) and max, accepted exactly for those inputs |
| PatternBuilding.BranchNode | src/RegexBuilder/PatternBuilder.cs:345-346 | a branch becomes a node rendering as its nodes one after another, the node itself for a single one |
| PatternBuilding.BranchNodesSpec | src/RegexBuilder/PatternBuilder.cs:343-346 | over non-empty branches, one alternative per branch, in order |
| PatternBuilding.PatternBuilder.constructor | src/RegexBuilder/PatternBuilder.cs:21-28 | empty branches, all flags false, invariant established |
| PatternBuilding.PatternBuilder.Append | src/RegexBuilder/PatternBuilder.cs:12-16 | the node is added at the end of the current branch and nothing else changes |
| PatternBuilding.PatternBuilder.Start | src/RegexBuilder/PatternBuilder.cs:34-43 | the first call appends `^` and sets the flag; a later call fails with the source's message and changes nothing |
| PatternBuilding.PatternBuilder.End | src/RegexBuilder/PatternBuilder.cs:49-58 | the same for `$` |
| PatternBuilding.PatternBuilder.Literal | src/RegexBuilder/PatternBuilder.cs:65-73 | null or empty text fails and changes nothing; otherwise exactly the escaping literal is appended |
| PatternBuilding.PatternBuilder.AppendQuantified | src/RegexBuilder/PatternBuilder.cs:379-402 | a refused bound fails and appends nothing; otherwise exactly the node with the quantifier is appended |
| PatternBuilding.PatternBuilder.Digits | src/RegexBuilder/PatternBuilder.cs:81-87 | the same for `\d` |
| PatternBuilding.PatternBuilder.Letters | src/RegexBuilder/PatternBuilder.cs:95-101 | the same for `[a-zA-Z]` |
| PatternBuilding.PatternBuilder.Whitespace | src/RegexBuilder/PatternBuilder.cs:109-115 | the same for `\s` |
| PatternBuilding.PatternBuilder.WordCharacter | src/RegexBuilder/PatternBuilder.cs:123-129 | the same for `\w` |
| PatternBuilding.PatternBuilder.AnyCharacter | src/RegexBuilder/PatternBuilder.cs:137-143 | the same for `.` |
| PatternBuilding.PatternBuilder.CharacterSet | src/RegexBuilder/PatternBuilder.cs:152-162 | null or empty set text fails first, then a refused bound; otherwise exactly the quantified set is appended |
| PatternBuilding.PatternBuilder.Pattern | src/RegexBuilder/PatternBuilder.cs:169-174 | a null node fails (`node`); otherwise exactly that node is appended |
| PatternBuilding.PatternBuilder.Group | src/RegexBuilder/PatternBuilder.cs:181-195 | a null action fails; an action that built nothing appends nothing; otherwise exactly one capturing group of what it built |
| PatternBuilding.PatternBuilder.NonCapturingGroup | src/RegexBuilder/PatternBuilder.cs:202-216 | the same with a non-capturing group |
| PatternBuilding.PatternBuilder.Optional | src/RegexBuilder/PatternBuilder.cs:223-240 | the same with a non-capturing group quantified `?` |
| PatternBuilding.PatternBuilder.FreezeCurrent | src/RegexBuilder/PatternBuilder.cs:253-257 | a non-empty current branch moves to the end of the frozen branches and is cleared; the nodes in order are unchanged |
| PatternBuilding.PatternBuilder.OrBuilder | src/RegexBuilder/PatternBuilder.cs:247-270 | a null action fails; otherwise the branch is frozen, the new branch holds what the action built (if anything) and the alternation flag is set |
| PatternBuilding.PatternBuilder.OrNode | src/RegexBuilder/PatternBuilder.cs:277-291 | a null node fails; otherwise the branch is frozen, the new branch is that node alone, and the flag is set |
| PatternBuilding.PatternBuilder.Build | src/RegexBuilder/PatternBuilder.cs:317-320 | the result is the collapse of the state before the call, and the state afterwards is the one `BuildInternal` leaves |
| PatternBuilding.PatternBuilder.BuildInternal | src/RegexBuilder/PatternBuilder.cs:325-374 | returns the collapse of the old state: the nodes of the non-empty frozen branches, unwrapped when only one, and under an alternation the current branch is frozen once more |
| PatternBuilding.NewPattern | src/RegexBuilder/RegexBuilder.cs:71 | a fresh, valid, empty builder that builds nothing |
| PatternBuilding.SequenceBuild | src/RegexBuilder/PatternBuilder.cs:362-373 | without alternation: nothing exactly for an empty branch, the sole node itself, otherwise the nodes' renderings in insertion order |
| PatternBuilding.AlternationBuild | src/RegexBuilder/PatternBuilder.cs:333-360 | with alternation: one alternative per non-empty branch, in order, each its nodes in sequence; none gives nothing, one is returned unwrapped, two or more give `(?:a\|b\|...)` |
| PatternBuilding.RebuildRepeatsLastBranch | src/RegexBuilder/PatternBuilder.cs:337-340 | building a second time adds the current branch as a duplicate final alternative |
| PatternBuilding.AlternationBuiltTwice | src/RegexBuilder/PatternBuilder.cs:317-340 | `Pattern(a).Or(b)` builds to `a\|b` and then to `a\|b\|b` |
| PatternBuilding.StartTwice | src/RegexBuilder.Tests/PatternBuilderTests.cs:82-90 | a second `Start` fails with the source's message, and the pattern holds one `^` |
| Substitutions.Token | src/RegexBuilder/SubstitutionTypes/SubstitutionSpecialReference.cs:64-76 | each special reference is a two-character token starting with `$` that reads back as that kind (so the mapping is one-to-one) |
| Substitutions.Double | src/RegexBuilder/SubstitutionTypes/SubstitutionLiteral.cs:28-32 | `Replace("$", "$$")`: the result is one character longer per `$`, and collapsing `$$` pairs gives back the text |
| Substitutions.DoubleAppend | src/RegexBuilder/SubstitutionTypes/SubstitutionLiteral.cs:31 | doubling works character by character: double(a + b) = double(a) + double(b) |
| Substitutions.DoubleUnchanged | src/RegexBuilder/SubstitutionTypes/SubstitutionLiteral.cs:31 | text is written unchanged exactly when it has no `$` (so empty text stays empty) |
| Substitutions.DollarRunsEven | src/RegexBuilder/SubstitutionTypes/SubstitutionLiteral.cs:31 | every maximal run of `$` in the output has even length |
| Substitutions.DoublePriceExample | src/RegexBuilder.Tests/SubstitutionBuilderTests.cs:23-24 | `Price: $100` gives `Price: $$100` |
| Substitutions.DoubleDollarsExample | src/RegexBuilder.Tests/SubstitutionBuilderTests.cs:30-31 | `$$ means $` gives `$$$$ means $$` |
| Substitutions.NewLiteral | src/RegexBuilder/SubstitutionTypes/SubstitutionLiteral.cs:19-22 | null text is refused (`text`); otherwise a literal of exactly that text |
| Substitutions.NewGroupNumber | src/RegexBuilder/SubstitutionTypes/SubstitutionGroupReference.cs:24-32 | a negative number is out of range, 0 and up are accepted; only the number is set; it renders as `$` and decimal digits reading back as the number |
| Substitutions.NewGroupName | src/RegexBuilder/SubstitutionTypes/SubstitutionGroupReference.cs:38-46 | a null, empty or blank name is refused; only the name is set; it renders as `${name}` with the name verbatim |
| Substitutions.GroupNumberExamples | src/RegexBuilder/SubstitutionTypes/SubstitutionGroupReference.cs:54-57 | 0, 1 and 123 render as `$0`, `$1`, `$123` |
| Substitutions.NewConcatenation | src/RegexBuilder/SubstitutionTypes/SubstitutionConcatenation.cs:22-43 | null array, then empty array, then a null element are refused with the source's errors; otherwise the children in argument order |
| Substitutions.RenderConcatenation | src/RegexBuilder/SubstitutionTypes/SubstitutionConcatenation.cs:49-57 | the loop's output is the children's renderings in order, with length the sum of theirs |
| Substitutions.ConcatenationSplit | src/RegexBuilder/SubstitutionTypes/SubstitutionConcatenation.cs:49-57 | a concatenation split in two renders as the two halves one after the other |
| Substitutions.LiteralsMerge | src/RegexBuilder/SubstitutionTypes/SubstitutionConcatenation.cs:49-57 | two adjacent literals render the same as one literal of the joined text |
| SubstitutionFacade.BuildNode | src/RegexBuilder/SubstitutionBuilder.cs:19-23 | a null node is refused (`node`); otherwise exactly its rendering |
| SubstitutionFacade.Build | src/RegexBuilder/SubstitutionBuilder.cs:31-39 | a null or empty array is an argument error; a null element is refused; accepted exactly otherwise, as the renderings in order |
| SubstitutionFacade.Literal | src/RegexBuilder/SubstitutionBuilder.cs:57-60 | null is refused; otherwise a node whose rendering un-doubles to the text and is one longer per `$` |
| SubstitutionFacade.Group | src/RegexBuilder/SubstitutionBuilder.cs:81-84 | refused exactly for a negative number, with `ArgumentOutOfRangeException` on `groupNumber`; otherwise `$` and the decimal number |
| SubstitutionFacade.GroupByName | src/RegexBuilder/SubstitutionBuilder.cs:101-104 | refused exactly for a null or blank name, with the `ArgumentException` message "Group name cannot be null or whitespace."; otherwise `${name}` |
| SubstitutionFacade.WholeMatch | src/RegexBuilder/SubstitutionBuilder.cs:125-128 | `$&` |
| SubstitutionFacade.BeforeMatch | src/RegexBuilder/SubstitutionBuilder.cs:143-146 | `` $` `` |
| SubstitutionFacade.AfterMatch | src/RegexBuilder/SubstitutionBuilder.cs:161-164 | `$'` |
| SubstitutionFacade.LastCapturedGroup | src/RegexBuilder/SubstitutionBuilder.cs:179-182 | `$+` |
| SubstitutionFacade.EntireInput | src/RegexBuilder/SubstitutionBuilder.cs:197-200 | `$_` |
| SubstitutionFacade.LiteralDollar | src/RegexBuilder/SubstitutionBuilder.cs:217-220 | `$$`, the same text as a literal `$` |
| SubstitutionFacade.Concatenate | src/RegexBuilder/SubstitutionBuilder.cs:247-250 | accepted exactly for a non-empty array without nulls, keeping the nodes in order |
| SubstitutionFacade.ConcatenateAgreesWithBuild | src/RegexBuilder/SubstitutionBuilder.cs:31-39 | `Concatenate` succeeds exactly when `Build` does, with the same text; same errors on non-empty arrays; different errors for null and empty arrays |
| SubstitutionFacade.SwapExample | src/RegexBuilder.Tests/SubstitutionBuilderTests.cs:249-257 | `Group(2)`, `Literal(" ")`, `Group(1)` give `$2 $1` |

## Left out

- The regex engine: `new Regex(...)` and every match, replace and split. `Build` returns the pattern text and options the engine would receive.
- Culture-specific formatting. Decimal, hexadecimal and octal are plain ASCII digits.
- `CommonPatterns` (`Email`, `Url`) and the `PatternBuilder.Email`/`Url` shortcuts that call it. They only assemble fixed trees and are exercised only through matching.
- The `RegexMetaChars` constant table and its category allow-list. Rendering never consults them. The few tokens the shortcuts use are written out.
- The apostrophe-group factories (`GroupApostrophe`) and the `RegexNodeInlineOption` flags-only node. Neither is modelled.
- `SubstitutionNode.ToString`. It only delegates to the rendering.
- The tests' `ReplaceMany` string extension. It is not part of this model.
- QuantifierFor: the `RegexQuantifier(min, max)` constructor is not part of this model. A missing minimum is taken as 0, and the quantifier is greedy.
- Quantifiers: the source's quantifier class is not part of this model. Its text follows the test assertions, and a `Custom(n, n)` is taken to render as `{n}`.
- Node aliasing: nodes are values. So a node handed to `Pattern(node)` or to a factory and later mutated through another reference does not change the builder's copy here. Only the balancing group, inline option grouping and Unicode category nodes are objects.
- PatternBuilding.PatternBuilder.Group, NonCapturingGroup, Optional, OrBuilder: the `Action<PatternBuilder>` callback is given as a separate, valid builder the caller has already run the action on. The model then calls `BuildInternal` on it as the source does. An action that throws or touches the outer builder is not modelled.
- RegexFacade: each overload pair, with and without a quantifier, is one function. The overload without one is the call with `NoQuantifier`.
- RegexFacade.BuildAll: a null array, or null elements inside it, are not modelled. Neither is a null element check in the concatenation node.
- RegexFacade.Literal, NonEscapedLiteral, MetaCharacter, Group, NamedGroup, PositiveLookAhead, PositiveLookBehind, NegativeLookAhead, NegativeLookBehind, Alternate, Alternate2, ConditionalMatch, ConditionalMatchOnGroup, CharacterSet, Comment, GroupBackReferenceByName: these take plain values, so a null argument cannot be expressed. Whatever the node constructors would raise for null is not modelled.
- Characters: a `string` is a sequence of Unicode scalar values, not of UTF-16 code units. A character outside the Basic Multilingual Plane is one unit here, but two in a C# string. For such characters the following differ from .NET:
  - RegexNodes.IsAtomicText and RegexFacade.Literal treat a one-character text as a single unit, so the quantifier is not grouped. In C# that text has length 2 and is grouped as `(?:...)`.
  - RegexNodes.CodeEscape writes five or more hex digits after `\u`, which no C# `char` produces.
  - RegexFacade.CharacterRange takes such a character as one end of the range.
- RegexNodes.IsAtomic: a concatenation of zero or one child is taken to be a single unit, so its quantifier is appended ungrouped. The assertions only fix the quantified case for two to four children. With this assumption, `Concatenate([\w*], ZeroOrOne)` renders as `\w*?`, a lazy star, and `Concatenate([], ZeroOrMore)` renders as `*`, which is not a valid pattern.
- Substitutions.Token: the `InvalidOperationException` arm for an unknown `SubstitutionType` cannot be reached with the six declared values, and the match has no such case.
- RegexNodes: the escaping literal's escaping of whitespace and `#` is not modelled. The escaped set is `\ ^ $ . | ? * + ( ) [ ] { }`.
- Integer widths: `int` and `byte` arguments are range-restricted types. `& 0xFF` and the two's-complement hex of negative Unicode codes are written out as `% 0x100` and `% 0x1_0000_0000`.
