/**
 * The static facade `RegexBuilder`: factories that build nodes, the
 * number-formatting character escapes, the fixed shortcut tokens, and the
 * `Build` overloads that hand the rendered pattern to the regex engine.
 * Each overload without a quantifier is the one below given `NoQuantifier`.
 */
module RegexFacade {
  import opened Common
  import opened Quantifiers
  import TextFormat
  import N = RegexNodes
  import RegexOptionFlags
  import BalancingGroups
  import UnicodeCategories
  import InlineOptionGroupings

  /** What `new Regex(pattern, options)` receives: the engine itself is not modelled. */
  datatype RegexRequest = RegexRequest(pattern: string, options: RegexOptionFlags.RegexOptions)

  /** `Build(rootNode)`: the root's rendering with no options; a null root is refused. */
  function Build(rootNode: Option<N.Node>): (r: Result<RegexRequest>)
    ensures rootNode.None? <==> r == Err(ArgumentNull("rootNode"))
    ensures rootNode.Some? ==> r.Ok? && r.value.pattern == N.Render(rootNode.value)
    ensures r.Ok? ==> r.value.options == RegexOptionFlags.NoOptions
  {
    BuildWithOptions(RegexOptionFlags.NoOptions, rootNode)
  }

  /** `Build(options, rootNode)`: as `Build(rootNode)`, with the options passed through. */
  function BuildWithOptions(options: RegexOptionFlags.RegexOptions, rootNode: Option<N.Node>): (r: Result<RegexRequest>)
    ensures rootNode.None? <==> r == Err(ArgumentNull("rootNode"))
    ensures rootNode.Some? ==> r == Ok(RegexRequest(N.Render(rootNode.value), options))
  {
    if rootNode.None? then Err(ArgumentNull("rootNode"))
    else Ok(RegexRequest(N.Render(rootNode.value), options))
  }

  /**
   * `Build(params regexNodes)` and `Build(options, params regexNodes)`: the
   * nodes' renderings one after the other, in order.
   */
  function BuildAll(options: RegexOptionFlags.RegexOptions, regexNodes: seq<N.Node>): (r: RegexRequest)
    ensures r.pattern == TextFormat.Concat(N.RenderAll(regexNodes)) && r.options == options
  {
    var concatenation := N.Concatenation(regexNodes, NoQuantifier);
    assert N.Body(concatenation) == TextFormat.Concat(N.RenderAll(regexNodes));
    BuildWithOptions(options, Some(concatenation)).value
  }

  /** `Literal(value)`: matches `value` itself; the rendering reads back to it. */
  function Literal(value: string, q: Quantifier): (r: N.Node)
    ensures r.Quant() == q && N.Unescape(N.Body(r)) == value && N.IsEscaped(N.Body(r))
    ensures N.IsAtomic(r) <==> |value| == 1
  {
    N.EscapeRoundTrip(value);
    N.EscapedLiteralAtomic(value);
    N.EscapingLiteral(value, q)
  }

  /** `NonEscapedLiteral(value)`: the text is pattern syntax, written as it is. */
  function NonEscapedLiteral(value: string, q: Quantifier): (r: N.Node)
    ensures r.Quant() == q && N.Body(r) == value && N.IsAtomic(r) == N.IsAtomicText(value)
  {
    N.Literal(value, q)
  }

  /**
   * `MetaCharacter(characterPattern)`: the pattern written as it is, under the
   * quantifier; a one-unit pattern such as `\d` takes the quantifier directly,
   * a longer one is grouped first.
   */
  function MetaCharacter(characterPattern: string, q: Quantifier): (r: N.Node)
    ensures N.Body(r) == characterPattern && r.Quant() == q
    ensures N.IsAtomic(r) <==> N.IsAtomicText(characterPattern)
    ensures !q.HasQuantifier() ==> N.Render(r) == characterPattern
    ensures q.HasQuantifier() && N.IsAtomicText(characterPattern) ==> N.Render(r) == characterPattern + Text(q)
    ensures q.HasQuantifier() && !N.IsAtomicText(characterPattern) ==> N.Render(r) == "(?:" + characterPattern + ")" + Text(q)
  {
    NonEscapedLiteral(characterPattern, q)
  }

  /** `MetaCharacter` and `NonEscapedLiteral` build the same literal node. */
  lemma MetaCharacterIsNonEscapedLiteral(characterPattern: string, q: Quantifier)
    ensures MetaCharacter(characterPattern, q) == NonEscapedLiteral(characterPattern, q)
  {
  }

  /** The text `\xNN` of `AsciiCharacter`. */
  function AsciiEscape(code: byte): string {
    "\\x" + TextFormat.Hex(code as int, 2)
  }

  /** `AsciiCharacter(code)`: `\x` and exactly two lower-case hex digits denoting `code`. */
  function AsciiCharacter(code: byte, q: Quantifier): (r: N.Node)
    ensures N.Body(r) == AsciiEscape(code) && r.Quant() == q
    ensures |N.Body(r)| == 4 && N.Body(r)[..2] == "\\x"
    ensures TextFormat.FromBase(N.Body(r)[2..], 16) == code as int
    ensures forall i :: 2 <= i < 4 ==> TextFormat.IsDigitOf(N.Body(r)[i], 16)
    ensures !N.IsAtomic(r)
  {
    var text := AsciiEscape(code);
    TextFormat.HexSpec(code as int, 2);
    assert text[2..] == TextFormat.Hex(code as int, 2);
    MetaCharacter(text, q)
  }

  /**
   * The text `\uNNNN` of `UnicodeCharacter`: `{0:x4}` of a C# `int`, which
   * for a negative code writes the 32-bit two's complement.
   */
  function UnicodeEscape(code: int32): string {
    "\\u" + TextFormat.Hex((code as int) % 0x1_0000_0000, 4)
  }

  /**
   * `UnicodeCharacter(code)`: `\u` and at least four hex digits denoting the
   * code as an unsigned 32-bit value; exactly four for a code below 0x10000.
   */
  function UnicodeCharacter(code: int32, q: Quantifier): (r: N.Node)
    ensures N.Body(r) == UnicodeEscape(code) && r.Quant() == q
    ensures |N.Body(r)| >= 6 && N.Body(r)[..2] == "\\u"
    ensures TextFormat.FromBase(N.Body(r)[2..], 16) == (code as int) % 0x1_0000_0000
    ensures 0 <= code < 0x10000 ==> |N.Body(r)| == 6
    ensures !N.IsAtomic(r)
  {
    var v := (code as int) % 0x1_0000_0000;
    var text := UnicodeEscape(code);
    TextFormat.HexSpec(v, 4);
    assert text[2..] == TextFormat.Hex(v, 4);
    assert TextFormat.Pow(16, 4) == 0x10000;
    MetaCharacter(text, q)
  }

  /** The text `\ooo` of `OctalCharacter`: the octal digits of `octalValue & 0xFF`, padded to three. */
  function OctalEscape(octalValue: int32): string {
    var byteVal := (octalValue as int) % 0x100;
    "\\" + TextFormat.PadLeft(TextFormat.ToBase(byteVal, 8), 3, '0')
  }

  /**
   * `OctalCharacter(octalValue)`: a backslash and exactly three octal digits
   * denoting the low byte of the value (`& 0xFF` on a two's complement int).
   */
  function OctalCharacter(octalValue: int32, q: Quantifier): (r: N.Node)
    ensures N.Body(r) == OctalEscape(octalValue) && r.Quant() == q
    ensures |N.Body(r)| == 4 && N.Body(r)[0] == '\\'
    ensures !N.IsAtomic(r)
  {
    OctalDigits((octalValue as int) % 0x100);
    MetaCharacter(OctalEscape(octalValue), q)
  }

  /** The three digits after the backslash are octal and read back as the low byte of the value. */
  lemma OctalCharacterReadsBack(octalValue: int32, q: Quantifier)
    ensures var body := N.Body(OctalCharacter(octalValue, q));
            TextFormat.FromBase(body[1..], 8) == (octalValue as int) % 0x100
            && forall i :: 1 <= i < 4 ==> TextFormat.IsDigitOf(body[i], 8)
  {
    var v := (octalValue as int) % 0x100;
    OctalDigits(v);
    assert N.Body(OctalCharacter(octalValue, q))[1..] == TextFormat.PadLeft(TextFormat.ToBase(v, 8), 3, '0');
  }

  /** Three octal digits, zero-padded, denote a byte value. */
  lemma OctalDigits(v: nat)
    requires v < 0x100
    ensures var s := TextFormat.PadLeft(TextFormat.ToBase(v, 8), 3, '0');
            |s| == 3 && TextFormat.FromBase(s, 8) == v && forall i :: 0 <= i < 3 ==> TextFormat.IsDigitOf(s[i], 8)
  {
    var digits := TextFormat.ToBase(v, 8);
    TextFormat.ToBaseRoundTrip(v, 8);
    TextFormat.ToBaseDigits(v, 8);
    assert TextFormat.Pow(8, 3) == 512;
    TextFormat.ToBaseLength(v, 8, 3);
    var k: nat :| TextFormat.PadLeft(digits, 3, '0') == TextFormat.Repeat('0', k) + digits;
    TextFormat.LeadingZerosValue(digits, k, 8);
  }

  /** `Comment(commentText)`: `(?#text)`, which takes no quantifier. */
  function Comment(commentText: string): (r: N.Node)
    ensures N.Render(r) == "(?#" + commentText + ")" && !r.AllowQuantifier()
  {
    N.Comment(commentText)
  }

  /** `InlineOptionGrouping(enabled, [disabled,] expression)`: the node's constructor checks, then its rendering. */
  function InlineOptionGrouping(enabled: RegexOptionFlags.RegexOptions, disabled: RegexOptionFlags.RegexOptions,
                                expression: Option<N.Node>): (r: Result<N.Node>)
    ensures InlineOptionGroupings.ConstructorError(enabled, disabled, expression).Some? ==>
              r == Err(InlineOptionGroupings.ConstructorError(enabled, disabled, expression).value)
    ensures r.Ok? <==> InlineOptionGroupings.ConstructorError(enabled, disabled, expression).None?
    ensures r.Ok? ==>
              N.Render(r.value) == "(?" + RegexOptionFlags.OptionsText(enabled, disabled) + ":" + N.Render(expression.value) + ")"
  {
    var e := InlineOptionGroupings.ConstructorError(enabled, disabled, expression);
    if e.Some? then Err(e.value)
    else Ok(N.InlineOptionGrouping(enabled, disabled, expression.value))
  }

  /** `GroupBackReference(groupIndex)`: `\N`, the quantifier appended. */
  function GroupBackReferenceByIndex(groupIndex: int32, q: Quantifier): (r: N.Node)
    ensures N.Render(r) == "\\" + TextFormat.DecimalInt(groupIndex as int) + Text(q)
  {
    TextEmptyIff(q);
    N.GroupReference(N.ByIndex(groupIndex as int), q)
  }

  /** `GroupBackReference(groupName)`: `\k<name>`, the quantifier appended. */
  function GroupBackReferenceByName(groupName: string, q: Quantifier): (r: N.Node)
    ensures N.Render(r) == "\\k<" + groupName + ">" + Text(q)
  {
    TextEmptyIff(q);
    N.GroupReference(N.ByName(groupName), q)
  }

  /** `CharacterSet(characters)` and `NegativeCharacterSet(characters)` over a string. */
  function CharacterSet(characters: string, negated: bool, q: Quantifier): (r: N.Node)
    ensures N.Render(r) == "[" + (if negated then "^" else "") + characters + "]" + Text(q)
  {
    TextEmptyIff(q);
    N.CharacterSet(N.FromPattern(characters), negated, false, q)
  }

  /**
   * `CharacterSet(chars, useCharacterCodes)` and its negative form over a
   * character array: each character written as `\uNNNN`, or as itself with
   * `]`, `^` and `\` escaped.
   */
  function CharacterArraySet(characters: seq<char>, negated: bool, useCharacterCodes: bool, q: Quantifier): (r: N.Node)
    ensures N.Render(r) == "[" + (if negated then "^" else "") + N.SetBody(N.FromChars(characters), useCharacterCodes) + "]" + Text(q)
  {
    TextEmptyIff(q);
    N.CharacterSet(N.FromChars(characters), negated, useCharacterCodes, q)
  }

  /** `CharacterRange` and `NegativeCharacterRange`: `[a-b]` or `[^a-b]`. */
  function CharacterRange(rangeStart: char, rangeEnd: char, negated: bool, useCharacterCodes: bool, q: Quantifier): (r: N.Node)
    ensures N.Render(r) == "[" + (if negated then "^" else "") + N.RangeChar(rangeStart, useCharacterCodes) + "-"
                           + N.RangeChar(rangeEnd, useCharacterCodes) + "]" + Text(q)
  {
    TextEmptyIff(q);
    N.CharacterRange(rangeStart, rangeEnd, negated, useCharacterCodes, q)
  }

  /** `UnicodeCategory(name)` and `NegativeUnicodeCategory(name)`: the node's constructor check, then `\p{name}` / `\P{name}`. */
  function UnicodeCategory(categoryName: Option<string>, negated: bool, q: Quantifier): (r: Result<N.Node>)
    ensures r.Err? <==> IsNullOrEmpty(categoryName)
    ensures r.Err? ==> r.error == Argument("Category name cannot be null or empty.")
    ensures r.Ok? ==> N.Render(r.value) == (if negated then "\\P{" else "\\p{") + categoryName.value + "}" + Text(q)
  {
    TextEmptyIff(q);
    var e := UnicodeCategories.CategoryNameError(categoryName);
    if e.Some? then Err(e.value) else Ok(N.UnicodeCategory(categoryName.value, negated, q))
  }

  /** `PositiveLookAhead(lookup, match)`: `(?:match(?=lookup))`. */
  function PositiveLookAhead(lookupExpression: N.Node, matchExpression: N.Node, q: Quantifier): (r: N.Node)
    ensures N.Render(r) == "(?:" + N.Render(matchExpression) + "(?=" + N.Render(lookupExpression) + "))" + Text(q)
  {
    TextEmptyIff(q);
    N.LookAround(N.PositiveLookAhead, lookupExpression, matchExpression, q)
  }

  /** `PositiveLookBehind(lookup, match)`: `(?:(?<=lookup)match)`. */
  function PositiveLookBehind(lookupExpression: N.Node, matchExpression: N.Node, q: Quantifier): (r: N.Node)
    ensures N.Render(r) == "(?:(?<=" + N.Render(lookupExpression) + ")" + N.Render(matchExpression) + ")" + Text(q)
  {
    TextEmptyIff(q);
    N.LookAround(N.PositiveLookBehind, lookupExpression, matchExpression, q)
  }

  /** `NegativeLookAhead(lookup, match)`: `(?:match(?!lookup))`. */
  function NegativeLookAhead(lookupExpression: N.Node, matchExpression: N.Node, q: Quantifier): (r: N.Node)
    ensures N.Render(r) == "(?:" + N.Render(matchExpression) + "(?!" + N.Render(lookupExpression) + "))" + Text(q)
  {
    TextEmptyIff(q);
    N.LookAround(N.NegativeLookAhead, lookupExpression, matchExpression, q)
  }

  /** `NegativeLookBehind(lookup, match)`: `(?:(?<!lookup)match)`. */
  function NegativeLookBehind(lookupExpression: N.Node, matchExpression: N.Node, q: Quantifier): (r: N.Node)
    ensures N.Render(r) == "(?:(?<!" + N.Render(lookupExpression) + ")" + N.Render(matchExpression) + ")" + Text(q)
  {
    TextEmptyIff(q);
    N.LookAround(N.NegativeLookBehind, lookupExpression, matchExpression, q)
  }

  /** `Group(match)`: a capturing group `(match)`. */
  function Group(matchExpression: N.Node, q: Quantifier): (r: N.Node)
    ensures N.Render(r) == "(" + N.Render(matchExpression) + ")" + Text(q)
  {
    TextEmptyIff(q);
    N.Group(N.Capturing, matchExpression, q)
  }

  /** `Group(name, match)`: a named group `(?<name>match)`. */
  function NamedGroup(groupName: string, matchExpression: N.Node, q: Quantifier): (r: N.Node)
    ensures N.Render(r) == "(?<" + groupName + ">" + N.Render(matchExpression) + ")" + Text(q)
  {
    TextEmptyIff(q);
    N.Group(N.Named(groupName), matchExpression, q)
  }

  /** `NonCapturingGroup(match)`: `(?:match)`. */
  function NonCapturingGroup(matchExpression: N.Node, q: Quantifier): (r: N.Node)
    ensures N.Render(r) == "(?:" + N.Render(matchExpression) + ")" + Text(q)
  {
    TextEmptyIff(q);
    N.Group(N.NonCapturing, matchExpression, q)
  }

  /** `BacktrackingSuppression(inner)`: the atomic group `(?>inner)`. */
  function BacktrackingSuppression(innerExpression: N.Node, q: Quantifier): (r: N.Node)
    ensures N.Render(r) == "(?>" + N.Render(innerExpression) + ")" + Text(q)
  {
    TextEmptyIff(q);
    N.BacktrackingSuppression(innerExpression, q)
  }

  /** `BalancingGroup(push, pop, inner)`: the two-name constructor's checks, then its rendering. */
  function BalancingGroup(pushGroupName: Option<string>, popGroupName: Option<string>, innerExpression: Option<N.Node>,
                          q: Quantifier): (r: Result<N.Node>)
    ensures BalancingGroups.ConstructorError(pushGroupName, BalancingGroups.PushNameMessage, innerExpression).Some? ==>
              r == Err(BalancingGroups.ConstructorError(pushGroupName, BalancingGroups.PushNameMessage, innerExpression).value)
    ensures r.Ok? <==> BalancingGroups.ConstructorError(pushGroupName, BalancingGroups.PushNameMessage, innerExpression).None?
    ensures r.Ok? && IsNullOrEmpty(popGroupName) ==>
              N.Render(r.value) == "(?<" + pushGroupName.value + ">-" + N.Render(innerExpression.value) + ")" + Text(q)
    ensures r.Ok? && !IsNullOrEmpty(popGroupName) ==>
              N.Render(r.value) == "(?<" + pushGroupName.value + "-" + popGroupName.value + ">"
                                   + N.Render(innerExpression.value) + ")" + Text(q)
  {
    TextEmptyIff(q);
    var e := BalancingGroups.ConstructorError(pushGroupName, BalancingGroups.PushNameMessage, innerExpression);
    if e.Some? then Err(e.value)
    else Ok(N.BalancingGroup(pushGroupName.value, OrEmpty(popGroupName), innerExpression.value, q))
  }

  /** `SimpleBalancingGroup(name, inner)`: the single-name constructor's checks, then `(?<name>-inner)`. */
  function SimpleBalancingGroup(groupName: Option<string>, innerExpression: Option<N.Node>, q: Quantifier): (r: Result<N.Node>)
    ensures BalancingGroups.ConstructorError(groupName, BalancingGroups.GroupNameMessage, innerExpression).Some? ==>
              r == Err(BalancingGroups.ConstructorError(groupName, BalancingGroups.GroupNameMessage, innerExpression).value)
    ensures r.Ok? <==> BalancingGroups.ConstructorError(groupName, BalancingGroups.GroupNameMessage, innerExpression).None?
    ensures r.Ok? ==>
              N.Render(r.value) == "(?<" + groupName.value + ">-" + N.Render(innerExpression.value) + ")" + Text(q)
  {
    TextEmptyIff(q);
    var e := BalancingGroups.ConstructorError(groupName, BalancingGroups.GroupNameMessage, innerExpression);
    if e.Some? then Err(e.value)
    else Ok(N.BalancingGroup(groupName.value, "", innerExpression.value, q))
  }

  /** `Alternate(expressions)`: `(?:a|b|...)`, the quantifier after the closing parenthesis. */
  function Alternate(expressions: seq<N.Node>, q: Quantifier): (r: N.Node)
    ensures N.Render(r) == "(?:" + N.Join(N.RenderAll(expressions), "|") + ")" + Text(q)
  {
    TextEmptyIff(q);
    var r := N.Alternation(expressions, q);
    assert N.Body(r) == "(?:" + N.Join(N.RenderAll(expressions), "|") + ")";
    r
  }

  /** `Alternate(expression1, expression2)`: `(?:a|b)`. */
  function Alternate2(expression1: N.Node, expression2: N.Node, q: Quantifier): (r: N.Node)
    ensures N.Render(r) == "(?:" + N.Render(expression1) + "|" + N.Render(expression2) + ")" + Text(q)
  {
    var r := Alternate([expression1, expression2], q);
    var parts := N.RenderAll([expression1, expression2]);
    assert parts[1..] == [N.Render(expression2)];
    assert N.Join(parts, "|") == N.Render(expression1) + "|" + N.Render(expression2);
    r
  }

  /** `ConditionalMatch(condition, yes, no)`: `(?(condition)yes|no)`. */
  function ConditionalMatch(conditionExpression: N.Node, trueMatchExpression: N.Node, falseMatchExpression: N.Node,
                            q: Quantifier): (r: N.Node)
    ensures N.Render(r) == "(?(" + N.Render(conditionExpression) + ")" + N.Render(trueMatchExpression) + "|"
                           + N.Render(falseMatchExpression) + ")" + Text(q)
  {
    TextEmptyIff(q);
    N.ConditionalMatch(N.OnExpression(conditionExpression), trueMatchExpression, falseMatchExpression, q)
  }

  /** `ConditionalMatch(groupName, yes, no)`: `(?(name)yes|no)`. */
  function ConditionalMatchOnGroup(conditionGroupName: string, trueMatchExpression: N.Node, falseMatchExpression: N.Node,
                                   q: Quantifier): (r: N.Node)
    ensures N.Render(r) == "(?(" + conditionGroupName + ")" + N.Render(trueMatchExpression) + "|"
                           + N.Render(falseMatchExpression) + ")" + Text(q)
  {
    TextEmptyIff(q);
    N.ConditionalMatch(N.OnGroup(conditionGroupName), trueMatchExpression, falseMatchExpression, q)
  }

  /**
   * `Concatenate(expressions)` (and the two-, three- and four-node forms,
   * which pass their nodes as an array): the renderings in order, grouped
   * before a quantifier when there are two or more.
   */
  function Concatenate(expressions: seq<N.Node>, q: Quantifier): (r: N.Node)
    ensures !q.HasQuantifier() ==> N.Render(r) == TextFormat.Concat(N.RenderAll(expressions))
    ensures q.HasQuantifier() && |expressions| > 1 ==> N.Render(r) == "(?:" + TextFormat.Concat(N.RenderAll(expressions)) + ")" + Text(q)
    ensures q.HasQuantifier() && |expressions| <= 1 ==> N.Render(r) == TextFormat.Concat(N.RenderAll(expressions)) + Text(q)
  {
    var r := N.Concatenation(expressions, q);
    assert N.Body(r) == TextFormat.Concat(N.RenderAll(expressions));
    r
  }

  /** The shortcut tokens that may carry a quantifier. */
  datatype CharacterShortcut =
    | Digit | NonDigit | Whitespace | NonWhitespace | WordCharacter | NonWordCharacter
    | BellCharacter | FormFeed | VerticalTab | EscapeCharacter

  /** The shortcut tokens without a quantifier overload: the anchors. */
  datatype Anchor =
    | LineStart | LineEnd | StringStart | StringEnd | StringEndAbsolute
    | WordBoundary | NonWordBoundary | MatchPointAnchor

  function ShortcutToken(s: CharacterShortcut): string {
    match s
    case Digit => "\\d"
    case NonDigit => "\\D"
    case Whitespace => "\\s"
    case NonWhitespace => "\\S"
    case WordCharacter => "\\w"
    case NonWordCharacter => "\\W"
    case BellCharacter => "\\a"
    case FormFeed => "\\f"
    case VerticalTab => "\\v"
    case EscapeCharacter => "\\e"
  }

  function AnchorToken(a: Anchor): string {
    match a
    case LineStart => "^"
    case LineEnd => "$"
    case StringStart => "\\A"
    case StringEnd => "\\Z"
    case StringEndAbsolute => "\\z"
    case WordBoundary => "\\b"
    case NonWordBoundary => "\\B"
    case MatchPointAnchor => "\\G"
  }

  /** `Digit()`, `Whitespace(quantifier)`, ...: the token as a meta-character. */
  function Shortcut(s: CharacterShortcut, q: Quantifier): (r: N.Node)
    ensures r == MetaCharacter(ShortcutToken(s), q)
    ensures N.Render(r) == ShortcutToken(s) + Text(q)
  {
    TextEmptyIff(q);
    MetaCharacter(ShortcutToken(s), q)
  }

  /** `LineStart()`, `WordBoundary()`, ...: the token as a meta-character. */
  function AnchorNode(a: Anchor): (r: N.Node)
    ensures r == MetaCharacter(AnchorToken(a), NoQuantifier)
    ensures N.Render(r) == AnchorToken(a)
  {
    MetaCharacter(AnchorToken(a), NoQuantifier)
  }

  /**
   * Every shortcut is a single unit (which is why its quantifier is appended
   * without a group); distinct shortcuts give distinct tokens.
   */
  lemma ShortcutRendering(s: CharacterShortcut)
    ensures N.IsAtomicText(ShortcutToken(s))
    ensures forall t: CharacterShortcut :: ShortcutToken(t) == ShortcutToken(s) ==> t == s
  {
    forall t: CharacterShortcut | ShortcutToken(t) == ShortcutToken(s)
      ensures t == s
    {
      assert ShortcutToken(t)[1] == ShortcutToken(s)[1];
    }
  }

  /** Distinct anchors give distinct tokens. */
  lemma AnchorRendering(a: Anchor)
    ensures forall b: Anchor :: AnchorToken(b) == AnchorToken(a) ==> b == a
  {
    forall b: Anchor | AnchorToken(b) == AnchorToken(a)
      ensures b == a
    {
      assert AnchorToken(b)[|AnchorToken(b)| - 1] == AnchorToken(a)[|AnchorToken(a)| - 1];
    }
  }

  /** `Build(Literal("abc"), CharacterRange('a', 'f'), LineEnd())` gives `abc[a-f]$`. */
  lemma BuildAllExample(x: N.Node, y: N.Node, z: N.Node)
    requires x == Literal("abc", NoQuantifier) && y == CharacterRange('a', 'f', false, false, NoQuantifier)
    requires z == AnchorNode(LineEnd)
    ensures BuildAll(RegexOptionFlags.NoOptions, [x, y, z]).pattern == "abc[a-f]$"
  {
    BuildAllExampleParts(x, y, z);
    ConcatThree(x, y, z);
  }

  /** The three nodes of `BuildAllExample`, each rendered on its own. */
  lemma BuildAllExampleParts(x: N.Node, y: N.Node, z: N.Node)
    requires x == Literal("abc", NoQuantifier) && y == CharacterRange('a', 'f', false, false, NoQuantifier)
    requires z == AnchorNode(LineEnd)
    ensures N.Render(x) == "abc" && N.Render(y) == "[a-f]" && N.Render(z) == "$"
  {
    PlainLiteralRendering("abc", x);
  }

  /** An unquantified literal without metacharacters renders as itself. */
  lemma PlainLiteralRendering(text: string, x: N.Node)
    requires x == Literal(text, NoQuantifier) && forall i :: 0 <= i < |text| ==> !N.IsMetaChar(text[i])
    ensures N.Render(x) == text
  {
    N.EscapeNoMeta(text);
  }

  /** Three nodes built together: their renderings one after another. */
  lemma ConcatThree(x: N.Node, y: N.Node, z: N.Node)
    ensures TextFormat.Concat(N.RenderAll([x, y, z])) == N.Render(x) + N.Render(y) + N.Render(z)
  {
    RenderAllThree(x, y, z);
    TextFormat.ConcatOfThree(N.Render(x), N.Render(y), N.Render(z));
  }

  /** The hexadecimal escape texts used by the examples below. */
  lemma HexEscapeTexts()
    ensures AsciiEscape(0x30) == "\\x30" && AsciiEscape(0x7f) == "\\x7f"
  {
    TextFormat.DigitExamples();
  }

  /** The octal escape texts used by the examples below. */
  lemma OctalEscapeTexts()
    ensures OctalEscape(255) == "\\377" && OctalEscape(10) == "\\012" && OctalEscape(65) == "\\101"
  {
    TextFormat.DigitExamples();
  }

  /** A node whose body is not a single unit is grouped before its quantifier. */
  lemma GroupedRendering(r: N.Node, body: string, q: Quantifier, t: string)
    requires N.Body(r) == body && r.Quant() == q && !N.IsAtomic(r) && Text(q) == t && t != ""
    ensures N.Render(r) == "(?:" + body + ")" + t
  {
    TextEmptyIff(q);
  }

  /** `AsciiCharacter(0x30)` gives `\x30`. */
  lemma AsciiExample()
    ensures N.Render(AsciiCharacter(0x30, NoQuantifier)) == "\\x30"
  {
    HexEscapeTexts();
  }

  /** `AsciiCharacter(0x7f)` quantified gives `(?:\x7f){1,4}?`: four characters are grouped. */
  lemma AsciiQuantifiedExample()
    ensures N.Render(AsciiCharacter(0x7f, Custom(1, 4, true))) == "(?:\\x7f){1,4}?"
  {
    HexEscapeTexts();
    CountedTexts(1, 4);
    GroupedRendering(AsciiCharacter(0x7f, Custom(1, 4, true)), "\\x7f", Custom(1, 4, true), "{1,4}?");
  }

  /** `OctalCharacter(255)` gives `\377`. */
  lemma OctalExample255()
    ensures N.Render(OctalCharacter(255, NoQuantifier)) == "\\377"
  {
    OctalEscapeTexts();
  }

  /** `OctalCharacter(10)` gives `\012`. */
  lemma OctalExample10()
    ensures N.Render(OctalCharacter(10, NoQuantifier)) == "\\012"
  {
    OctalEscapeTexts();
  }

  /** `OctalCharacter(65)` with `Exactly(3)` gives `(?:\101){3}`. */
  lemma OctalQuantifiedExample()
    ensures N.Render(OctalCharacter(65, Exactly(3, false))) == "(?:\\101){3}"
  {
    OctalEscapeTexts();
    CountedTexts(3, 3);
    GroupedRendering(OctalCharacter(65, Exactly(3, false)), "\\101", Exactly(3, false), "{3}");
  }

  /** A one-character body and a two-character escape take the quantifier directly: `a?`, `\w?`, `\d{1,4}?`. */
  lemma AtomicLiteralExamples()
    ensures N.Render(Literal("a", ZeroOrOne(false))) == "a?"
    ensures N.Render(Shortcut(WordCharacter, ZeroOrOne(false))) == "\\w?"
    ensures N.Render(Shortcut(Digit, Custom(1, 4, true))) == "\\d{1,4}?"
  {
    assert N.Escape("a") == "a";
    ShortcutRendering(WordCharacter);
    ShortcutRendering(Digit);
    CountedTexts(1, 4);
  }

  /** `Alternate([\w*, \d+, \s?], AtLeast(5))` gives `(?:\w*|\d+|\s?){5,}`. */
  lemma AlternateExample(x: N.Node, y: N.Node, z: N.Node, q: Quantifier)
    requires x == Shortcut(WordCharacter, ZeroOrMore(false)) && y == Shortcut(Digit, OneOrMore(false))
    requires z == Shortcut(Whitespace, ZeroOrOne(false)) && q == AtLeast(5, false)
    ensures N.Render(Alternate([x, y, z], q)) == "(?:\\w*|\\d+|\\s?){5,}"
  {
    AlternateExampleParts(x, y, z, q);
    AlternateThree(x, y, z, q);
  }

  /** The pieces of `AlternateExample`, each rendered on its own. */
  lemma AlternateExampleParts(x: N.Node, y: N.Node, z: N.Node, q: Quantifier)
    requires x == Shortcut(WordCharacter, ZeroOrMore(false)) && y == Shortcut(Digit, OneOrMore(false))
    requires z == Shortcut(Whitespace, ZeroOrOne(false)) && q == AtLeast(5, false)
    ensures N.Render(x) == "\\w*" && N.Render(y) == "\\d+" && N.Render(z) == "\\s?" && Text(q) == "{5,}"
  {
    assert Text(q) == "{5,}" by {
      CountedTexts(5, 5);
      assert Decimal(5) == "5";
    }
  }

  /** Three alternatives: each rendering in order, separated by bars. */
  lemma AlternateThree(x: N.Node, y: N.Node, z: N.Node, q: Quantifier)
    ensures N.Render(Alternate([x, y, z], q)) == "(?:" + (N.Render(x) + "|" + N.Render(y) + "|" + N.Render(z)) + ")" + Text(q)
  {
    RenderAllThree(x, y, z);
    JoinThree(N.Render(x), N.Render(y), N.Render(z));
  }

  /** The renderings of three nodes, in order. */
  lemma RenderAllThree(x: N.Node, y: N.Node, z: N.Node)
    ensures N.RenderAll([x, y, z]) == [N.Render(x), N.Render(y), N.Render(z)]
  {
  }

  /** Three alternatives joined by bars. */
  lemma JoinThree(a: string, b: string, c: string)
    ensures N.Join([a, b, c], "|") == a + "|" + b + "|" + c
  {
    assert [a, b, c][1..] == [b, c] && [b, c][1..] == [c];
    assert N.Join([c], "|") == c;
    assert N.Join([b, c], "|") == b + "|" + N.Join([c], "|");
    assert N.Join([a, b, c], "|") == a + "|" + N.Join([b, c], "|");
  }

  /** A metacharacter followed by ordinary text: only the metacharacter gains a backslash. */
  lemma EscapeMetaThenPlain(x: char, rest: string)
    requires N.IsMetaChar(x) && forall i :: 0 <= i < |rest| ==> !N.IsMetaChar(rest[i])
    ensures N.Escape([x] + rest) == ['\\', x] + rest
  {
    N.EscapeNoMeta(rest);
    assert ([x] + rest)[1..] == rest;
  }

  /** The escaping of `\w\b.353\s`, piece by piece. */
  lemma EscapeExampleText(text: string)
    requires text == "\\w\\b.353\\s"
    ensures N.Escape(text) == "\\\\w\\\\b\\.353\\\\s"
  {
    var a, b, c, d := "w", "b", "353", "s";
    EscapeMetaThenPlain('\\', a);
    EscapeMetaThenPlain('\\', b);
    EscapeMetaThenPlain('.', c);
    EscapeMetaThenPlain('\\', d);
    var pa, pb, pc, pd := ['\\'] + a, ['\\'] + b, ['.'] + c, ['\\'] + d;
    N.EscapeConcat(pa + pb + pc, pd);
    N.EscapeConcat(pa + pb, pc);
    N.EscapeConcat(pa, pb);
    assert text == pa + pb + pc + pd;
  }

  /** `Literal("\w\b.353\s")` gives `\\w\\b\.353\\s`. */
  lemma EscapingExample(text: string)
    requires text == "\\w\\b.353\\s"
    ensures N.Render(Literal(text, NoQuantifier)) == "\\\\w\\\\b\\.353\\\\s"
  {
    EscapeExampleText(text);
    var n := Literal(text, NoQuantifier);
    assert N.Render(n) == N.Body(n);
  }
}
