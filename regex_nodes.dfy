/**
 * The regex node tree (`RegexNode` and its subclasses) as one closed datatype,
 * and the rendering every node performs (`ToRegexPattern`): its own syntax,
 * then its quantifier, with an implicit `(?:...)` when the rendered body is not
 * a single unit.
 */
module RegexNodes {
  import opened Common
  import opened Quantifiers
  import TextFormat
  import RegexOptionFlags

  datatype LookAroundKind = PositiveLookAhead | PositiveLookBehind | NegativeLookAhead | NegativeLookBehind

  /** An unnamed capturing group `(x)`, a non-capturing group `(?:x)` or a named group `(?<name>x)`. */
  datatype GroupKind = Capturing | NonCapturing | Named(name: string)

  /** A character set is given either as pre-escaped pattern text or as an array of characters. */
  datatype SetSource = FromPattern(text: string) | FromChars(chars: seq<char>)

  /** A back-reference by group number (`\1`) or by name (`\k<name>`). */
  datatype Reference = ByIndex(index: int) | ByName(name: string)

  /** The test of a conditional match: a group name or an expression. */
  datatype Condition = OnGroup(groupName: string) | OnExpression(expression: Node)

  datatype Node =
    | Literal(text: string, quantifier: Quantifier)
    | EscapingLiteral(text: string, quantifier: Quantifier)
    | CharacterSet(source: SetSource, negated: bool, useCharacterCodes: bool, quantifier: Quantifier)
    | CharacterRange(rangeStart: char, rangeEnd: char, negated: bool, useCharacterCodes: bool, quantifier: Quantifier)
    | Concatenation(children: seq<Node>, quantifier: Quantifier)
    | Alternation(branches: seq<Node>, quantifier: Quantifier)
    | Group(kind: GroupKind, inner: Node, quantifier: Quantifier)
    | BacktrackingSuppression(inner: Node, quantifier: Quantifier)
    | BalancingGroup(pushName: string, popName: string, inner: Node, quantifier: Quantifier)
    | GroupReference(reference: Reference, quantifier: Quantifier)
    | LookAround(lookKind: LookAroundKind, lookup: Node, matchExpression: Node, quantifier: Quantifier)
    | ConditionalMatch(condition: Condition, ifTrue: Node, ifFalse: Node, quantifier: Quantifier)
    | UnicodeCategory(categoryName: string, isNegated: bool, quantifier: Quantifier)
    | InlineOptionGrouping(enabled: RegexOptionFlags.RegexOptions, disabled: RegexOptionFlags.RegexOptions, inner: Node)
    | Comment(text: string)
  {
    /** `AllowQuantifier`: inline option groupings and comments carry no quantifier. */
    predicate AllowQuantifier() {
      !InlineOptionGrouping? && !Comment?
    }

    /** The quantifier a node renders with (none where it is not allowed). */
    function Quant(): Quantifier {
      if AllowQuantifier() then quantifier else NoQuantifier
    }

    /** The node with its `Quantifier` property set to `q` (ignored where not allowed). */
    function WithQuantifier(q: Quantifier): Node {
      if AllowQuantifier() then this.(quantifier := q) else this
    }
  }

  /** The characters an escaping literal prefixes with a backslash. */
  predicate IsMetaChar(c: char) {
    c == '\\' || c == '^' || c == '$' || c == '.' || c == '|' || c == '?' || c == '*' || c == '+'
    || c == '(' || c == ')' || c == '[' || c == ']' || c == '{' || c == '}'
  }

  /** The text of an escaping literal: every metacharacter preceded by `\`. */
  function Escape(text: string): (r: string)
    ensures |r| >= |text|
  {
    if text == [] then ""
    else (if IsMetaChar(text[0]) then ['\\', text[0]] else [text[0]]) + Escape(text[1..])
  }

  /** Reading an escaped text back: a backslash stands for the character after it. */
  function Unescape(s: string): string
    decreases |s|
  {
    if s == [] then ""
    else if s[0] == '\\' && |s| >= 2 then [s[1]] + Unescape(s[2..])
    else [s[0]] + Unescape(s[1..])
  }

  /** Well-formed escaped text: each metacharacter is preceded by a backslash, and each backslash escapes one. */
  predicate IsEscaped(s: string)
    decreases |s|
  {
    if s == [] then true
    else if s[0] == '\\' then |s| >= 2 && IsMetaChar(s[1]) && IsEscaped(s[2..])
    else !IsMetaChar(s[0]) && IsEscaped(s[1..])
  }

  /** A rendered body the engine reads as one unit: one character, or a backslash and one character. */
  predicate IsAtomicText(t: string) {
    |t| == 1 || (|t| == 2 && t[0] == '\\')
  }

  /** Appends the quantifier, grouping the body first unless it is atomic. */
  function Quantify(body: string, atomic: bool, q: Quantifier): string {
    if !q.HasQuantifier() then body
    else if atomic then body + Text(q)
    else "(?:" + body + ")" + Text(q)
  }

  /** `\uNNNN`: a character by its code, at least four lower-case hexadecimal digits. */
  function CodeEscape(c: char): string {
    "\\u" + TextFormat.Hex(c as int, 4)
  }

  /** Every character as a code escape. */
  function CodeEscapes(cs: seq<char>): string {
    if cs == [] then "" else CodeEscape(cs[0]) + CodeEscapes(cs[1..])
  }

  /** A character of a character array inside brackets: `]`, `^` and `\` are escaped. */
  function SetChar(c: char): string {
    if c == ']' || c == '^' || c == '\\' then ['\\', c] else [c]
  }

  function SetChars(cs: seq<char>): string {
    if cs == [] then "" else SetChar(cs[0]) + SetChars(cs[1..])
  }

  /** The contents of a character set's brackets. */
  function SetBody(source: SetSource, useCharacterCodes: bool): string {
    match source
    case FromPattern(t) => if useCharacterCodes then CodeEscapes(t) else t
    case FromChars(cs) => if useCharacterCodes then CodeEscapes(cs) else SetChars(cs)
  }

  function NegationMark(negated: bool): string {
    if negated then "^" else ""
  }

  /** One end of a character range. */
  function RangeChar(c: char, useCharacterCodes: bool): string {
    if useCharacterCodes then CodeEscape(c) else [c]
  }

  /** The strings separated by `sep`. */
  function Join(parts: seq<string>, sep: string): string {
    if parts == [] then ""
    else if |parts| == 1 then parts[0]
    else parts[0] + sep + Join(parts[1..], sep)
  }

  /** The node's pattern text before its quantifier is applied. */
  function Body(n: Node): string
    decreases n, 0
  {
    match n
    case Literal(text, _) => text
    case EscapingLiteral(text, _) => Escape(text)
    case CharacterSet(source, negated, codes, _) => "[" + NegationMark(negated) + SetBody(source, codes) + "]"
    case CharacterRange(a, b, negated, codes, _) =>
      "[" + NegationMark(negated) + RangeChar(a, codes) + "-" + RangeChar(b, codes) + "]"
    case Concatenation(children, _) => TextFormat.Concat(seq(|children|, i requires 0 <= i < |children| => Render(children[i])))
    case Alternation(branches, _) =>
      "(?:" + Join(seq(|branches|, i requires 0 <= i < |branches| => Render(branches[i])), "|") + ")"
    case Group(kind, inner, _) =>
      (match kind
       case Capturing => "("
       case NonCapturing => "(?:"
       case Named(name) => "(?<" + name + ">") + Render(inner) + ")"
    case BacktrackingSuppression(inner, _) => "(?>" + Render(inner) + ")"
    case BalancingGroup(push, pop, inner, _) =>
      if pop == "" then "(?<" + push + ">-" + Render(inner) + ")"
      else "(?<" + push + "-" + pop + ">" + Render(inner) + ")"
    case GroupReference(reference, _) =>
      (match reference
       case ByIndex(i) => "\\" + TextFormat.DecimalInt(i)
       case ByName(name) => "\\k<" + name + ">")
    case LookAround(kind, lookup, matched, _) =>
      (match kind
       case PositiveLookAhead => "(?:" + Render(matched) + "(?=" + Render(lookup) + "))"
       case NegativeLookAhead => "(?:" + Render(matched) + "(?!" + Render(lookup) + "))"
       case PositiveLookBehind => "(?:(?<=" + Render(lookup) + ")" + Render(matched) + ")"
       case NegativeLookBehind => "(?:(?<!" + Render(lookup) + ")" + Render(matched) + ")")
    case ConditionalMatch(condition, t, f, _) =>
      "(?(" + (match condition
               case OnGroup(name) => name
               case OnExpression(e) => Render(e)) + ")" + Render(t) + "|" + Render(f) + ")"
    case UnicodeCategory(name, negated, _) => (if negated then "\\P{" else "\\p{") + name + "}"
    case InlineOptionGrouping(e, d, inner) => "(?" + RegexOptionFlags.OptionsText(e, d) + ":" + Render(inner) + ")"
    case Comment(text) => "(?#" + text + ")"
  }

  /**
   * Whether a quantifier binds to the node's whole body without a group: a
   * literal when its text is atomic, a concatenation of at most one child,
   * and every node kind whose syntax is already bracketed.
   */
  function IsAtomic(n: Node): bool {
    match n
    case Literal(text, _) => IsAtomicText(text)
    case EscapingLiteral(text, _) => IsAtomicText(Escape(text))
    case Concatenation(children, _) => |children| <= 1
    case _ => true
  }

  /** `ToRegexPattern`. */
  function Render(n: Node): string
    decreases n, 1
  {
    Quantify(Body(n), IsAtomic(n), n.Quant())
  }

  /** The renderings of a sequence of nodes. */
  function RenderAll(ns: seq<Node>): (r: seq<string>)
    ensures |r| == |ns| && forall i :: 0 <= i < |ns| ==> r[i] == Render(ns[i])
  {
    seq(|ns|, i requires 0 <= i < |ns| => Render(ns[i]))
  }

  /** The number of metacharacters in `text`. */
  function MetaCount(text: string): nat {
    if text == [] then 0 else (if IsMetaChar(text[0]) then 1 else 0) + MetaCount(text[1..])
  }

  /**
   * Escaping adds exactly one backslash per metacharacter, yields well-formed
   * escaped text, and reading it back gives the original text.
   */
  lemma {:induction false} EscapeRoundTrip(text: string)
    ensures Unescape(Escape(text)) == text
    ensures IsEscaped(Escape(text))
    ensures |Escape(text)| == |text| + MetaCount(text)
  {
    if text != [] {
      EscapeRoundTrip(text[1..]);
      var e := Escape(text);
      var rest := Escape(text[1..]);
      if IsMetaChar(text[0]) {
        assert e == ['\\', text[0]] + rest;
        assert e[2..] == rest;
      } else {
        assert e == [text[0]] + rest;
        assert e[1..] == rest;
        assert text[0] != '\\';
      }
      assert text == [text[0]] + text[1..];
    }
  }

  /** Escaping works character by character: the escaping of a concatenation is the concatenation of the escapings. */
  lemma {:induction false} EscapeConcat(a: string, b: string)
    ensures Escape(a + b) == Escape(a) + Escape(b)
  {
    if a != [] {
      assert (a + b)[0] == a[0];
      assert (a + b)[1..] == a[1..] + b;
      EscapeConcat(a[1..], b);
    } else {
      assert a + b == b;
    }
  }

  /** Text without metacharacters is written unchanged. */
  lemma {:induction false} EscapeNoMeta(text: string)
    requires forall i :: 0 <= i < |text| ==> !IsMetaChar(text[i])
    ensures Escape(text) == text
  {
    if text != [] {
      EscapeNoMeta(text[1..]);
      assert text == [text[0]] + text[1..];
    }
  }

  /** Conversely, every well-formed escaped text is the escaping of its reading back. */
  lemma {:induction false} UnescapeRoundTrip(s: string)
    requires IsEscaped(s)
    ensures Escape(Unescape(s)) == s
    decreases |s|
  {
    if s != [] {
      if s[0] == '\\' {
        UnescapeRoundTrip(s[2..]);
        assert Unescape(s) == [s[1]] + Unescape(s[2..]);
        assert ([s[1]] + Unescape(s[2..]))[1..] == Unescape(s[2..]);
        assert s == ['\\', s[1]] + s[2..];
      } else {
        UnescapeRoundTrip(s[1..]);
        assert Unescape(s) == [s[0]] + Unescape(s[1..]);
        assert ([s[0]] + Unescape(s[1..]))[1..] == Unescape(s[1..]);
        assert s == [s[0]] + s[1..];
      }
    }
  }

  /**
   * An escaping literal is atomic exactly when its text is one character:
   * a single character escapes to itself or to a backslash pair, and longer
   * text escapes to at least two characters that are not one escape.
   */
  lemma EscapedLiteralAtomic(text: string)
    ensures IsAtomicText(Escape(text)) <==> |text| == 1
  {
    if |text| >= 2 {
      var e := Escape(text);
      if IsMetaChar(text[0]) {
        assert e == ['\\', text[0]] + Escape(text[1..]);
        assert |Escape(text[1..])| >= 1;
      } else {
        assert e == [text[0]] + Escape(text[1..]);
        assert |Escape(text[1..])| >= 1;
        assert text[0] != '\\';
      }
    } else if |text| == 1 {
      assert text[1..] == [];
    }
  }

  /** Reading back the bracket escapes of a character array gives the characters. */
  lemma {:induction false} SetCharsRoundTrip(cs: seq<char>)
    ensures Unescape(SetChars(cs)) == cs
    ensures |SetChars(cs)| >= |cs|
  {
    if cs != [] {
      SetCharsRoundTrip(cs[1..]);
      var r := SetChars(cs);
      var rest := SetChars(cs[1..]);
      if cs[0] == ']' || cs[0] == '^' || cs[0] == '\\' {
        assert r == ['\\', cs[0]] + rest;
        assert r[2..] == rest;
      } else {
        assert r == [cs[0]] + rest;
        assert r[1..] == rest;
      }
      assert cs == [cs[0]] + cs[1..];
    }
  }

  /**
   * A code escape of a UTF-16 unit is `\u` and exactly four hexadecimal
   * digits that denote the character's code.
   */
  lemma CodeEscapeSpec(c: char)
    requires (c as int) < 0x10000
    ensures |CodeEscape(c)| == 6 && CodeEscape(c)[..2] == "\\u"
    ensures TextFormat.FromBase(CodeEscape(c)[2..], 16) == c as int
    ensures forall i :: 2 <= i < 6 ==> TextFormat.IsDigitOf(CodeEscape(c)[i], 16)
  {
    var h := TextFormat.Hex(c as int, 4);
    assert TextFormat.Pow(16, 4) == 0x10000 by {
      assert TextFormat.Pow(16, 1) == 16;
      assert TextFormat.Pow(16, 2) == 256;
      assert TextFormat.Pow(16, 3) == 4096;
    }
    TextFormat.HexSpec(c as int, 4);
    assert CodeEscape(c)[2..] == h;
    forall i | 2 <= i < 6
      ensures TextFormat.IsDigitOf(CodeEscape(c)[i], 16)
    {
      assert CodeEscape(c)[i] == h[i - 2];
    }
  }

  /** The renderings of two node lists, one after the other. */
  lemma RenderAllAppend(xs: seq<Node>, ys: seq<Node>)
    ensures RenderAll(xs + ys) == RenderAll(xs) + RenderAll(ys)
  {
  }

  /**
   * An unquantified concatenation renders as its children's renderings in
   * order, so splitting its children splits its rendering.
   */
  lemma ConcatenationSplit(xs: seq<Node>, ys: seq<Node>)
    ensures Render(Concatenation(xs + ys, NoQuantifier))
         == Render(Concatenation(xs, NoQuantifier)) + Render(Concatenation(ys, NoQuantifier))
  {
    assert Body(Concatenation(xs + ys, NoQuantifier)) == TextFormat.Concat(RenderAll(xs + ys));
    assert Body(Concatenation(xs, NoQuantifier)) == TextFormat.Concat(RenderAll(xs));
    assert Body(Concatenation(ys, NoQuantifier)) == TextFormat.Concat(RenderAll(ys));
    RenderAllAppend(xs, ys);
    TextFormat.ConcatAppend(RenderAll(xs), RenderAll(ys));
  }

  /** A concatenation of one node renders as that node. */
  lemma ConcatenationSingleton(n: Node)
    ensures Render(Concatenation([n], NoQuantifier)) == Render(n)
  {
    assert RenderAll([n]) == [Render(n)];
    assert TextFormat.Concat([Render(n)]) == Render(n) + TextFormat.Concat([]);
  }

  /**
   * Setting a node's quantifier changes only the end of its rendering: with
   * no quantifier it renders its body; with one it appends the quantifier's
   * text, first wrapping the body in `(?:...)` exactly when the body is not a
   * single unit. Nodes that allow no quantifier ignore it.
   */
  lemma QuantifierPlacement(n: Node, q: Quantifier)
    ensures !n.AllowQuantifier() ==> Render(n.WithQuantifier(q)) == Render(n) == Body(n)
    ensures n.AllowQuantifier() && !q.HasQuantifier() ==>
              Render(n.WithQuantifier(q)) == Render(n.WithQuantifier(NoQuantifier))
    ensures n.AllowQuantifier() && q.HasQuantifier() && IsAtomic(n) ==>
              Render(n.WithQuantifier(q)) == Render(n.WithQuantifier(NoQuantifier)) + Text(q)
    ensures n.AllowQuantifier() && q.HasQuantifier() && !IsAtomic(n) ==>
              Render(n.WithQuantifier(q)) == "(?:" + Render(n.WithQuantifier(NoQuantifier)) + ")" + Text(q)
  {
    if n.AllowQuantifier() {
      var m, z := n.WithQuantifier(q), n.WithQuantifier(NoQuantifier);
      assert Body(m) == Body(n) == Body(z);
      assert IsAtomic(m) == IsAtomic(n) == IsAtomic(z);
    }
  }

  /**
   * A quantified literal is grouped exactly when its rendered text is more
   * than one unit: `a?` and `\w?` stay bare, `(?:abc)?` is wrapped; an
   * escaping literal is grouped exactly when its text has more than one
   * character.
   */
  lemma LiteralGrouping(text: string, q: Quantifier)
    requires q.HasQuantifier()
    ensures Render(Literal(text, q)) == (if IsAtomicText(text) then text + Text(q) else "(?:" + text + ")" + Text(q))
    ensures |text| == 1 ==> Render(EscapingLiteral(text, q)) == Escape(text) + Text(q)
    ensures |text| != 1 ==> Render(EscapingLiteral(text, q)) == "(?:" + Escape(text) + ")" + Text(q)
  {
    EscapedLiteralAtomic(text);
  }

  /** Example literal renderings: bare under a quantifier when one unit, escaped metacharacters. */
  lemma LiteralExamples()
    ensures Render(Literal("\\w", ZeroOrOne(false))) == "\\w?"
    ensures Render(Literal("a", ZeroOrMore(false))) == "a*"
    ensures Render(EscapingLiteral("\\", ZeroOrOne(false))) == "\\\\?"
    ensures Render(EscapingLiteral("a.b", NoQuantifier)) == "a\\.b"
  {
    assert IsAtomicText("\\w") && IsAtomicText("a");
    assert Escape("\\") == "\\\\" by {
      assert Escape("") == "";
    }
    assert IsAtomicText("\\\\");
    assert Escape("a.b") == "a\\.b" by {
      assert Escape("b") == "b";
      assert Escape(".b") == "\\.b";
    }
  }

  /** An alternation is always wrapped, its quantifier after the wrapper: `(?:\w*|\d+)*`. */
  lemma AlternationExample()
    ensures Render(Alternation([Literal("\\w*", NoQuantifier), Literal("\\d+", NoQuantifier)], ZeroOrMore(false)))
         == "(?:\\w*|\\d+)*"
  {
    var alt := [Literal("\\w*", NoQuantifier), Literal("\\d+", NoQuantifier)];
    assert RenderAll(alt) == ["\\w*", "\\d+"];
    assert Join(["\\w*", "\\d+"], "|") == "\\w*|\\d+";
  }

  /** A quantified concatenation of two nodes is grouped: `(?:\w*\d+)?`. */
  lemma ConcatenationExample()
    ensures Render(Concatenation([Literal("\\w*", NoQuantifier), Literal("\\d+", NoQuantifier)], ZeroOrOne(false)))
         == "(?:\\w*\\d+)?"
  {
    var cs := [Literal("\\w*", NoQuantifier), Literal("\\d+", NoQuantifier)];
    assert RenderAll(cs) == ["\\w*", "\\d+"];
    assert TextFormat.Concat(["\\w*", "\\d+"]) == "\\w*\\d+";
  }

  /** A named group takes its quantifier bare: `(?<SomeGroup>abc)*`. */
  lemma NamedGroupExample()
    ensures Render(Group(Named("SomeGroup"), Literal("abc", NoQuantifier), ZeroOrMore(false))) == "(?<SomeGroup>abc)*"
  {
    assert Render(Literal("abc", NoQuantifier)) == "abc";
    assert Body(Group(Named("SomeGroup"), Literal("abc", NoQuantifier), ZeroOrMore(false))) == "(?<SomeGroup>abc)";
  }

  /** A look-behind puts the assertion before the match, inside one group. */
  lemma LookBehindExample()
    ensures Render(LookAround(PositiveLookBehind, Literal("a", NoQuantifier), Literal("b", NoQuantifier), NoQuantifier))
         == "(?:(?<=a)b)"
  {
    assert Render(Literal("a", NoQuantifier)) == "a";
    assert Render(Literal("b", NoQuantifier)) == "b";
  }

  /** In a character array, `]` and `^` are escaped: `[a\]\^]`. */
  lemma CharacterArrayExample()
    ensures Render(CharacterSet(FromChars("a]^"), false, false, NoQuantifier)) == "[a\\]\\^]"
  {
    assert SetChars("a]^") == "a\\]\\^" by {
      assert SetChars("^") == "\\^";
      assert SetChars("]^") == "\\]\\^";
    }
    assert Body(CharacterSet(FromChars("a]^"), false, false, NoQuantifier)) == "[a\\]\\^]";
  }

  /** A named back-reference keeps its quantifier bare: `\k<SomeGroup>{2}`. */
  lemma BackReferenceExample()
    ensures Render(GroupReference(ByName("SomeGroup"), Exactly(2, false))) == "\\k<SomeGroup>{2}"
  {
    CountedTexts(2, 2);
    assert Decimal(2) == "2";
    assert Text(Exactly(2, false)) == "{2}";
    assert Body(GroupReference(ByName("SomeGroup"), Exactly(2, false))) == "\\k<SomeGroup>";
  }
}
