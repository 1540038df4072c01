/**
 * The repetition suffix a node may carry (`RegexQuantifier`): none, the three
 * one-symbol shapes, or a counted range, each greedy or lazy.
 */
module Quantifiers {
  import opened Common
  import TextFormat

  /**
   * `Counted(min, max, lazy)` is `{min}`, `{min,}` or `{min,max}`; a missing
   * maximum means unbounded. A missing minimum is stored as 0.
   */
  datatype Quantifier =
    | NoQuantifier
    | ZeroOrMore(lazy: bool)
    | OneOrMore(lazy: bool)
    | ZeroOrOne(lazy: bool)
    | Counted(min: nat, max: Option<nat>, lazy: bool)
  {
    /** `HasQuantifier`: anything but the no-op quantifier. */
    predicate HasQuantifier() {
      !NoQuantifier?
    }

    /** True of a quantifier that matches as few repetitions as it can. */
    predicate IsLazy() {
      !NoQuantifier? && lazy
    }

    /** The same quantifier made greedy. */
    function Greedy(): Quantifier {
      match this
      case NoQuantifier => NoQuantifier
      case ZeroOrMore(_) => ZeroOrMore(false)
      case OneOrMore(_) => OneOrMore(false)
      case ZeroOrOne(_) => ZeroOrOne(false)
      case Counted(a, b, _) => Counted(a, b, false)
    }
  }

  /** `Exactly(n)`: `{n}`. */
  function Exactly(n: nat, lazy: bool): Quantifier {
    Counted(n, Some(n), lazy)
  }

  /** `AtLeast(n)`: `{n,}`. */
  function AtLeast(n: nat, lazy: bool): Quantifier {
    Counted(n, None, lazy)
  }

  /** `Custom(min, max, lazy)`: `{min,max}`, or `{min}` when the two agree. */
  function Custom(min: nat, max: nat, lazy: bool): Quantifier {
    Counted(min, Some(max), lazy)
  }

  /** Decimal digits of a natural number. */
  function Decimal(n: nat): string {
    TextFormat.ToBase(n, 10)
  }

  /** The braces of a counted quantifier. */
  function Bounds(min: nat, max: Option<nat>): string {
    match max
    case None => "{" + Decimal(min) + ",}"
    case Some(m) => if m == min then "{" + Decimal(min) + "}" else "{" + Decimal(min) + "," + Decimal(m) + "}"
  }

  /** The quantifier's pattern text (`ToRegexPattern`). */
  function Text(q: Quantifier): string {
    match q
    case NoQuantifier => ""
    case ZeroOrMore(l) => "*" + (if l then "?" else "")
    case OneOrMore(l) => "+" + (if l then "?" else "")
    case ZeroOrOne(l) => "?" + (if l then "?" else "")
    case Counted(a, b, l) => Bounds(a, b) + (if l then "?" else "")
  }

  /** Only the no-op quantifier renders as nothing. */
  lemma TextEmptyIff(q: Quantifier)
    ensures Text(q) == "" <==> !q.HasQuantifier()
  {
    if q.Counted? {
      assert Text(q)[0] == '{';
    }
  }

  /** A lazy quantifier is the greedy one followed by `?`; a greedy one does not end in `?` unless it is `?` itself. */
  lemma LazySuffix(q: Quantifier)
    ensures q.IsLazy() ==> Text(q) == Text(q.Greedy()) + "?"
    ensures !q.IsLazy() ==> Text(q.Greedy()) == Text(q)
    ensures !q.IsLazy() && q.HasQuantifier() && !q.ZeroOrOne? ==> Text(q)[|Text(q)| - 1] != '?'
  {
    if q.Counted? && !q.lazy {
      match q.max
      case None =>
      case Some(m) =>
    }
  }

  /** The counted shapes of the quantifier tests: `{n}`, `{n,}` and `{n,m}`. */
  lemma CountedTexts(n: nat, m: nat)
    ensures Text(Exactly(n, false)) == "{" + Decimal(n) + "}"
    ensures Text(AtLeast(n, false)) == "{" + Decimal(n) + ",}"
    ensures n != m ==> Text(Custom(n, m, false)) == "{" + Decimal(n) + "," + Decimal(m) + "}"
    ensures Text(Custom(n, n, false)) == Text(Exactly(n, false))
    ensures Text(AtLeast(2, true)) == "{2,}?" && Text(Exactly(3, false)) == "{3}"
    ensures Text(Custom(1, 5, false)) == "{1,5}" && Text(Custom(1, 4, true)) == "{1,4}?"
  {
    assert Decimal(2) == "2" && Decimal(3) == "3" && Decimal(1) == "1";
    assert Decimal(5) == "5" && Decimal(4) == "4";
  }
}
