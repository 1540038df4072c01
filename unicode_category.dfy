/**
 * `RegexNodeUnicodeCategory`: a mutable node for a Unicode category or named
 * block escape, `\p{name}` or, negated, `\P{name}`. The name is not checked
 * against the known categories; only the constructor refuses a missing or
 * empty one.
 */
module UnicodeCategories {
  import opened Common
  import opened Quantifiers
  import RegexNodes

  /** The constructor's check of the category name. */
  function CategoryNameError(categoryName: Option<string>): (r: Option<Error>)
    ensures r.Some? <==> IsNullOrEmpty(categoryName)
    ensures r.Some? ==> r.value == Argument("Category name cannot be null or empty.")
  {
    if IsNullOrEmpty(categoryName) then Some(Argument("Category name cannot be null or empty.")) else None
  }

  /** The pattern text of a category escape with the given property values. */
  function Format(categoryName: Option<string>, isNegated: bool, q: Quantifier): string {
    var marker := if isNegated then 'P' else 'p';
    var result := ['\\', marker] + "{" + OrEmpty(categoryName) + "}";
    if q.HasQuantifier() then result + Text(q) else result
  }

  class UnicodeCategory {
    var categoryName: Option<string>
    var isNegated: bool
    var quantifier: Quantifier

    /** The state the constructor leaves once its check passes. */
    constructor Init(name: string, negated: bool)
      ensures categoryName == Some(name) && isNegated == negated && quantifier == NoQuantifier
    {
      categoryName := Some(name);
      isNegated := negated;
      quantifier := NoQuantifier;
    }

    /** The node value this object currently stands for. */
    function ToNode(): RegexNodes.Node
      reads this
    {
      RegexNodes.UnicodeCategory(OrEmpty(categoryName), isNegated, quantifier)
    }

    /** `ToRegexPattern`: agrees with the rendering of the node value. */
    function ToRegexPattern(): (r: string)
      reads this
      ensures r == RegexNodes.Render(ToNode())
    {
      Format(categoryName, isNegated, quantifier)
    }

    /** The `CategoryName` setter (no check: a later null renders as `\p{}`). */
    method SetCategoryName(value: Option<string>)
      modifies this
      ensures categoryName == value && isNegated == old(isNegated) && quantifier == old(quantifier)
    {
      categoryName := value;
    }

    /** The `IsNegated` setter. */
    method SetIsNegated(value: bool)
      modifies this
      ensures isNegated == value && categoryName == old(categoryName) && quantifier == old(quantifier)
    {
      isNegated := value;
    }

    /** The inherited `Quantifier` setter. */
    method SetQuantifier(value: Quantifier)
      modifies this
      ensures quantifier == value && categoryName == old(categoryName) && isNegated == old(isNegated)
    {
      quantifier := value;
    }
  }

  /** The constructor `(categoryName, isNegated)`; the one-argument form passes `false`. */
  method NewUnicodeCategory(categoryName: Option<string>, isNegated: bool) returns (r: Result<UnicodeCategory>)
    ensures CategoryNameError(categoryName).Some? ==> r == Err(CategoryNameError(categoryName).value)
    ensures CategoryNameError(categoryName).None? ==>
              r.Ok? && fresh(r.value) && r.value.categoryName == categoryName
              && r.value.isNegated == isNegated && r.value.quantifier == NoQuantifier
  {
    var e := CategoryNameError(categoryName);
    if e.Some? {
      return Err(e.value);
    }
    var c := new UnicodeCategory.Init(categoryName.value, isNegated);
    return Ok(c);
  }

  /**
   * The name is written verbatim between `\p{` (or `\P{`) and `}`, so it can
   * be read back from the rendering without its quantifier; negation changes
   * only the marker letter.
   */
  lemma NameReadBack(name: string, isNegated: bool)
    ensures var r := Format(Some(name), isNegated, NoQuantifier);
            |r| == |name| + 4 && r[..3] == ['\\', if isNegated then 'P' else 'p', '{']
            && r[3..|r| - 1] == name && r[|r| - 1] == '}'
    ensures forall i :: 0 <= i < |name| + 4 && i != 1 ==>
              Format(Some(name), true, NoQuantifier)[i] == Format(Some(name), false, NoQuantifier)[i]
  {
  }

  /** A category escape is never wrapped: its quantifier's text follows the closing brace. */
  lemma QuantifierAppended(name: Option<string>, isNegated: bool, q: Quantifier)
    ensures Format(name, isNegated, q) == Format(name, isNegated, NoQuantifier) + Text(q)
  {
    TextEmptyIff(q);
  }

  /** Example renderings: `\p{L}+`, `\P{N}+`, `\p{Nd}{3}`, `\P{L}{2,}?`. */
  lemma CategoryExamples()
    ensures Format(Some("L"), false, OneOrMore(false)) == "\\p{L}+"
    ensures Format(Some("N"), true, OneOrMore(false)) == "\\P{N}+"
    ensures Format(Some("Nd"), false, Exactly(3, false)) == "\\p{Nd}{3}"
    ensures Format(Some("L"), true, AtLeast(2, true)) == "\\P{L}{2,}?"
  {
    CountedTexts(3, 3);
  }
}
