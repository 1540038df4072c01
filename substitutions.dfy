/**
 * The substitution (replacement pattern) nodes: literal text with `$`
 * doubled, references to a captured group by number (`$1`) or name
 * (`${name}`), the six special references (`$&`, `` $` ``, `$'`, `$+`, `$_`,
 * `$$`), and the concatenation of other substitution nodes.
 */
module Substitutions {
  import opened Common
  import TextFormat

  /** `SubstitutionType`: the special references. */
  datatype SubstitutionType = WholeMatch | BeforeMatch | AfterMatch | LastGroup | EntireInput | LiteralDollar

  /**
   * `SubstitutionNode` and its four kinds. A group reference stores either a
   * number or a name; the constructors below set exactly one of them.
   */
  datatype Substitution =
    | Literal(text: string)
    | GroupReference(groupNumber: Option<int32>, groupName: Option<string>)
    | SpecialReference(kind: SubstitutionType)
    | Concatenation(childNodes: seq<Substitution>)

  /** Reads a special reference back from its token. */
  function TokenType(token: string): Option<SubstitutionType> {
    if token == "$&" then Some(WholeMatch)
    else if token == "$`" then Some(BeforeMatch)
    else if token == "$'" then Some(AfterMatch)
    else if token == "$+" then Some(LastGroup)
    else if token == "$_" then Some(EntireInput)
    else if token == "$$" then Some(LiteralDollar)
    else None
  }

  /**
   * The special reference's token: two characters, the first `$`, and
   * `TokenType` reads it back, so distinct types give distinct tokens. The
   * match is exhaustive: the source's unknown-type arm is unreachable.
   */
  function Token(t: SubstitutionType): (r: string)
    ensures |r| == 2 && r[0] == '$'
    ensures TokenType(r) == Some(t)
  {
    match t
    case WholeMatch => "$&"
    case BeforeMatch => "$`"
    case AfterMatch => "$'"
    case LastGroup => "$+"
    case EntireInput => "$_"
    case LiteralDollar => "$$"
  }

  /** The number of `$` characters in `s`. */
  function DollarCount(s: string): nat {
    if s == [] then 0 else (if s[0] == '$' then 1 else 0) + DollarCount(s[1..])
  }

  /** Collapses each `$$` pair to one `$`; the reading back of `Double`. */
  function Undouble(t: string): string {
    if t == [] then []
    else if |t| >= 2 && t[0] == '$' && t[1] == '$' then "$" + Undouble(t[2..])
    else [t[0]] + Undouble(t[1..])
  }

  /**
   * `Text.Replace("$", "$$")`: one more character per `$`, and collapsing the
   * pairs again gives back the text.
   */
  function Double(s: string): (r: string)
    ensures |r| == |s| + DollarCount(s)
    ensures Undouble(r) == s
  {
    if s == [] then []
    else
      var rest := Double(s[1..]);
      if s[0] == '$' then
        assert ("$$" + rest)[2..] == rest;
        "$$" + rest
      else
        assert ([s[0]] + rest)[1..] == rest;
        [s[0]] + rest
  }

  /** Doubling appends: it works character by character. */
  lemma {:induction false} DoubleAppend(a: string, b: string)
    ensures Double(a + b) == Double(a) + Double(b)
  {
    if a != [] {
      assert (a + b)[0] == a[0] && (a + b)[1..] == a[1..] + b;
      DoubleAppend(a[1..], b);
    } else {
      assert a + b == b;
    }
  }

  /** Text without `$` is written unchanged, and only such text is. */
  lemma {:induction false} DoubleUnchanged(s: string)
    ensures Double(s) == s <==> '$' !in s
  {
    if s != [] {
      DoubleUnchanged(s[1..]);
      if s[0] != '$' {
        assert s == [s[0]] + s[1..];
        assert '$' in s <==> '$' in s[1..];
      }
    }
  }

  /** The maximal run of `$` in `t` from `i` up to (not including) `j`. */
  predicate IsDollarRun(t: string, i: int, j: int) {
    0 <= i < j <= |t|
    && (forall k :: i <= k < j ==> t[k] == '$')
    && (i == 0 || t[i - 1] != '$')
    && (j == |t| || t[j] != '$')
  }

  /** Every maximal run of `$` in a doubled text has even length. */
  lemma {:induction false} DollarRunsEven(s: string)
    ensures forall i, j :: IsDollarRun(Double(s), i, j) ==> (j - i) % 2 == 0
  {
    if s != [] {
      var t := Double(s);
      var rest := Double(s[1..]);
      DollarRunsEven(s[1..]);
      if s[0] == '$' {
        assert t == "$$" + rest;
        forall i, j | IsDollarRun(t, i, j) ensures (j - i) % 2 == 0 {
          if i == 0 {
            if j > 2 {
              assert IsDollarRun(rest, 0, j - 2);
            } else {
              assert j == 2;
            }
          } else {
            assert i >= 2;
            assert IsDollarRun(rest, i - 2, j - 2);
          }
        }
      } else {
        assert t == [s[0]] + rest;
        forall i, j | IsDollarRun(t, i, j) ensures (j - i) % 2 == 0 {
          assert i >= 1;
          assert IsDollarRun(rest, i - 1, j - 1);
        }
      }
    }
  }

  /** `ToSubstitutionPattern`. */
  function Render(s: Substitution): string
    decreases s
  {
    match s
    case Literal(text) => Double(text)
    case GroupReference(number, name) =>
      if number.Some? then "$" + TextFormat.DecimalInt(number.value as int) else "${" + OrEmpty(name) + "}"
    case SpecialReference(kind) => Token(kind)
    case Concatenation(children) => TextFormat.Concat(seq(|children|, i requires 0 <= i < |children| => Render(children[i])))
  }

  /** The renderings of a sequence of substitution nodes. */
  function RenderAll(ns: seq<Substitution>): (r: seq<string>)
    ensures |r| == |ns| && forall i :: 0 <= i < |ns| ==> r[i] == Render(ns[i])
  {
    seq(|ns|, i requires 0 <= i < |ns| => Render(ns[i]))
  }

  /** The sum of the rendered lengths. */
  function TotalLength(ns: seq<Substitution>): nat {
    if ns == [] then 0 else TotalLength(ns[..|ns| - 1]) + |Render(ns[|ns| - 1])|
  }

  /** The `SubstitutionLiteral` constructor: the text must not be null. */
  function NewLiteral(text: Option<string>): (r: Result<Substitution>)
    ensures text.None? <==> r == Err(ArgumentNull("text"))
    ensures text.Some? ==> r.Ok? && r.value.Literal? && r.value.text == text.value
  {
    if text.None? then Err(ArgumentNull("text")) else Ok(Literal(text.value))
  }

  /**
   * The numbered `SubstitutionGroupReference` constructor: a negative number
   * is out of range (zero is allowed). The reference holds only the number and
   * renders as `$` and its decimal digits, from which the number reads back.
   */
  function NewGroupNumber(groupNumber: int32): (r: Result<Substitution>)
    ensures groupNumber < 0 <==> r == Err(ArgumentOutOfRange("groupNumber"))
    ensures r.Ok? ==> r.value.GroupReference? && r.value.groupNumber == Some(groupNumber) && r.value.groupName.None?
    ensures r.Ok? ==> var p := Render(r.value);
                      |p| >= 2 && p[0] == '$'
                      && (forall k :: 1 <= k < |p| ==> '0' <= p[k] <= '9')
                      && TextFormat.FromBase(p[1..], 10) == groupNumber as int
  {
    if groupNumber < 0 then Err(ArgumentOutOfRange("groupNumber"))
    else
      var n: nat := groupNumber as int;
      TextFormat.ToBaseDigits(n, 10);
      TextFormat.ToBaseRoundTrip(n, 10);
      var r := GroupReference(Some(groupNumber), None);
      assert Render(r)[1..] == TextFormat.ToBase(n, 10);
      Ok(r)
  }

  /**
   * The named `SubstitutionGroupReference` constructor: a null, empty or
   * all-whitespace name is refused. The reference holds only the name and
   * renders as `${name}`, the name read back between the braces.
   */
  function NewGroupName(groupName: Option<string>): (r: Result<Substitution>)
    ensures IsNullOrWhiteSpace(groupName) <==> r == Err(Argument("Group name cannot be null or whitespace."))
    ensures r.Ok? ==> r.value.GroupReference? && r.value.groupNumber.None? && r.value.groupName == groupName
    ensures r.Ok? ==> var p := Render(r.value);
                      |p| == |groupName.value| + 3 && p[..2] == "${" && p[2..|p| - 1] == groupName.value
                      && p[|p| - 1] == '}'
  {
    if IsNullOrWhiteSpace(groupName) then Err(Argument("Group name cannot be null or whitespace."))
    else Ok(GroupReference(None, groupName))
  }

  /** No null element. */
  predicate NoNulls<T>(xs: seq<Option<T>>) {
    forall i :: 0 <= i < |xs| ==> xs[i].Some?
  }

  /** The elements of a null-free array. */
  function Unwrap<T>(xs: seq<Option<T>>): (r: seq<T>)
    requires NoNulls(xs)
    ensures |r| == |xs| && forall i :: 0 <= i < |xs| ==> r[i] == xs[i].value
  {
    seq(|xs|, i requires 0 <= i < |xs| => xs[i].value)
  }

  /**
   * The `SubstitutionConcatenation` constructors (array and enumerable): a
   * null argument, then an empty one, then a null element are refused; the
   * children keep the argument's order.
   */
  function NewConcatenation(childNodes: Option<seq<Option<Substitution>>>): (r: Result<Substitution>)
    ensures childNodes.None? ==> r == Err(ArgumentNull("childNodes"))
    ensures childNodes.Some? && |childNodes.value| == 0 ==> r == Err(Argument("At least one child node is required."))
    ensures childNodes.Some? && |childNodes.value| > 0 && !NoNulls(childNodes.value) ==>
              r == Err(Argument("Child nodes cannot contain null elements."))
    ensures r.Ok? <==> childNodes.Some? && |childNodes.value| > 0 && NoNulls(childNodes.value)
    ensures r.Ok? ==> r.value.Concatenation? && |r.value.childNodes| == |childNodes.value|
                      && forall i :: 0 <= i < |childNodes.value| ==> r.value.childNodes[i] == childNodes.value[i].value
  {
    if childNodes.None? then Err(ArgumentNull("childNodes"))
    else if |childNodes.value| == 0 then Err(Argument("At least one child node is required."))
    else if !NoNulls(childNodes.value) then Err(Argument("Child nodes cannot contain null elements."))
    else Ok(Concatenation(Unwrap(childNodes.value)))
  }

  /**
   * The concatenation's `ToSubstitutionPattern`: each child's rendering
   * appended in order, so the result is their concatenation and its length
   * is the sum of their lengths.
   */
  method RenderConcatenation(children: seq<Substitution>) returns (r: string)
    ensures r == Render(Concatenation(children))
    ensures |r| == TotalLength(children)
  {
    var builder := "";
    var i := 0;
    while i < |children|
      invariant 0 <= i <= |children|
      invariant builder == TextFormat.Concat(RenderAll(children[..i]))
      invariant |builder| == TotalLength(children[..i])
    {
      RenderStep(children, i);
      builder := builder + Render(children[i]);
      i := i + 1;
    }
    assert children[..i] == children;
    r := builder;
  }

  /** One more child: its rendering is appended and its length added. */
  lemma RenderStep(children: seq<Substitution>, i: nat)
    requires i < |children|
    ensures TextFormat.Concat(RenderAll(children[..i + 1])) == TextFormat.Concat(RenderAll(children[..i])) + Render(children[i])
    ensures TotalLength(children[..i + 1]) == TotalLength(children[..i]) + |Render(children[i])|
  {
    assert children[..i + 1][..i] == children[..i];
    assert RenderAll(children[..i + 1]) == RenderAll(children[..i]) + [Render(children[i])];
    TextFormat.ConcatAppend(RenderAll(children[..i]), [Render(children[i])]);
    assert TextFormat.Concat([Render(children[i])]) == Render(children[i]) + TextFormat.Concat([]);
  }

  /** A concatenation split in two renders as the two halves one after the other. */
  lemma ConcatenationSplit(xs: seq<Substitution>, ys: seq<Substitution>)
    ensures Render(Concatenation(xs + ys)) == Render(Concatenation(xs)) + Render(Concatenation(ys))
  {
    assert RenderAll(xs + ys) == RenderAll(xs) + RenderAll(ys);
    TextFormat.ConcatAppend(RenderAll(xs), RenderAll(ys));
  }

  /** A concatenation renders literally adjacent text the same as one literal of the joined text. */
  lemma LiteralsMerge(a: string, b: string)
    ensures Render(Concatenation([Literal(a), Literal(b)])) == Render(Literal(a + b))
  {
    DoubleAppend(a, b);
    var parts := RenderAll([Literal(a), Literal(b)]);
    assert parts == [Double(a), Double(b)];
    assert Render(Concatenation([Literal(a), Literal(b)])) == TextFormat.Concat(parts);
    TextFormat.ConcatOfTwo(Double(a), Double(b));
  }

  /** One `$` between two runs of `$`-free text becomes `$$`, the text around it kept. */
  lemma DoubleAround(a: string, b: string)
    requires '$' !in a && '$' !in b
    ensures Double(a + "$" + b) == a + "$$" + b
  {
    DoubleAppend(a + "$", b);
    DoubleAppend(a, "$");
    DoubleUnchanged(a);
    DoubleUnchanged(b);
  }

  /** A price in a literal: `Price: $100` is written `Price: $$100`. */
  lemma DoublePriceExample(price: string, prefix: string, digits: string)
    requires prefix == "Price: " && digits == "100" && price == prefix + "$" + digits
    ensures Double(price) == "Price: $$100"
  {
    assert '$' !in prefix && '$' !in digits;
    DoubleAround(prefix, digits);
  }

  /** Dollars already doubled are doubled again: `$$ means $` is written `$$$$ means $$`. */
  lemma DoubleDollarsExample(means: string, words: string)
    requires words == " means " && means == "$$" + words + "$"
    ensures Double(means) == "$$$$ means $$"
  {
    var d := "$";
    assert '$' !in words;
    assert means == d + d + words + d;
    assert Double(d) == "$$" by {
      DoubleAround("", "");
    }
    DoubledTwiceAround(d, words);
  }

  /** Around `$`-free text `w`, the doubling of `d d w d` is the doubling of each `d` with `w` kept. */
  lemma DoubledTwiceAround(d: string, w: string)
    requires '$' !in w
    ensures Double(d + d + w + d) == Double(d) + Double(d) + w + Double(d)
  {
    DoubleAppend(d + d + w, d);
    DoubleAppend(d + d, w);
    DoubleAppend(d, d);
    DoubleUnchanged(w);
  }

  /** Numbered references render as `$` and the decimal number: 0, 1 and 123. */
  lemma GroupNumberExamples()
    ensures Render(GroupReference(Some(0), None)) == "$0"
    ensures Render(GroupReference(Some(1), None)) == "$1"
    ensures Render(GroupReference(Some(123), None)) == "$123"
  {
    assert TextFormat.DigitChar(0) == '0' && TextFormat.DigitChar(1) == '1';
    assert TextFormat.DigitChar(2) == '2' && TextFormat.DigitChar(3) == '3';
    assert TextFormat.ToBase(12, 10) == TextFormat.ToBase(1, 10) + ['2'];
    assert TextFormat.ToBase(123, 10) == TextFormat.ToBase(12, 10) + ['3'];
  }
}
