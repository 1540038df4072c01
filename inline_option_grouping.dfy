/**
 * `RegexNodeInlineOptionGrouping`: a mutable node `(?E-D:inner)` that turns
 * the options `E` on and `D` off for its inner expression. Both option sets
 * are checked whenever they are assigned, and the inner expression may not
 * be null. The node takes no quantifier.
 */
module InlineOptionGroupings {
  import opened Common
  import opened RegexOptionFlags
  import RegexNodes

  /**
   * The constructor's checks in the order its assignments run: the enabled
   * options, then the disabled options, then the inner expression.
   */
  function ConstructorError(enabled: RegexOptions, disabled: RegexOptions, inner: Option<RegexNodes.Node>): (r: Option<Error>)
    ensures ValidateOptions(enabled).Some? ==> r == ValidateOptions(enabled)
    ensures ValidateOptions(enabled).None? && ValidateOptions(disabled).Some? ==> r == ValidateOptions(disabled)
    ensures ValidateOptions(enabled).None? && ValidateOptions(disabled).None? && inner.None? ==>
              r == Some(ArgumentNull("value"))
    ensures r.None? <==> !HasInvalidFlag(enabled) && !HasInvalidFlag(disabled) && inner.Some?
  {
    ValidateOptionsIff(enabled);
    ValidateOptionsIff(disabled);
    if ValidateOptions(enabled).Some? then ValidateOptions(enabled)
    else if ValidateOptions(disabled).Some? then ValidateOptions(disabled)
    else if inner.None? then Some(ArgumentNull("value"))
    else None
  }

  /** The pattern text of an inline option group with the given property values. */
  function Format(enabled: RegexOptions, disabled: RegexOptions, inner: RegexNodes.Node): string {
    var enabledPart := FormatOptions(enabled);
    var disabledPart := FormatOptions(disabled);
    var optionsString :=
      if disabledPart == "" then enabledPart
      else if enabledPart == "" then "-" + disabledPart
      else enabledPart + "-" + disabledPart;
    "(?" + optionsString + ":" + RegexNodes.Render(inner) + ")"
  }

  class InlineOptionGrouping {
    var enabledOptions: RegexOptions
    var disabledOptions: RegexOptions
    var innerExpression: RegexNodes.Node

    /** Neither option set holds a flag an inline group cannot express. */
    predicate Valid()
      reads this
    {
      !HasInvalidFlag(enabledOptions) && !HasInvalidFlag(disabledOptions)
    }

    /** The state the constructor leaves once its checks pass. */
    constructor Init(enabled: RegexOptions, disabled: RegexOptions, inner: RegexNodes.Node)
      requires !HasInvalidFlag(enabled) && !HasInvalidFlag(disabled)
      ensures Valid()
      ensures enabledOptions == enabled && disabledOptions == disabled && innerExpression == inner
    {
      enabledOptions := enabled;
      disabledOptions := disabled;
      innerExpression := inner;
    }

    /** The node value this object currently stands for. */
    function ToNode(): RegexNodes.Node
      reads this
    {
      RegexNodes.InlineOptionGrouping(enabledOptions, disabledOptions, innerExpression)
    }

    /** `ToRegexPattern`: agrees with the rendering of the node value. */
    function ToRegexPattern(): (r: string)
      reads this
      ensures r == RegexNodes.Render(ToNode())
    {
      Format(enabledOptions, disabledOptions, innerExpression)
    }

    /** The `EnabledOptions` setter: a rejected value raises and leaves the object as it was. */
    method SetEnabledOptions(value: RegexOptions) returns (o: Outcome)
      requires Valid()
      modifies this
      ensures ValidateOptions(value).Some? ==> o == Fail(ValidateOptions(value).value) && enabledOptions == old(enabledOptions)
      ensures ValidateOptions(value).None? ==> o == Pass && enabledOptions == value
      ensures disabledOptions == old(disabledOptions) && innerExpression == old(innerExpression)
      ensures Valid()
    {
      ValidateOptionsIff(value);
      var e := ValidateOptions(value);
      if e.Some? {
        return Fail(e.value);
      }
      enabledOptions := value;
      return Pass;
    }

    /** The `DisabledOptions` setter: a rejected value raises and leaves the object as it was. */
    method SetDisabledOptions(value: RegexOptions) returns (o: Outcome)
      requires Valid()
      modifies this
      ensures ValidateOptions(value).Some? ==> o == Fail(ValidateOptions(value).value) && disabledOptions == old(disabledOptions)
      ensures ValidateOptions(value).None? ==> o == Pass && disabledOptions == value
      ensures enabledOptions == old(enabledOptions) && innerExpression == old(innerExpression)
      ensures Valid()
    {
      ValidateOptionsIff(value);
      var e := ValidateOptions(value);
      if e.Some? {
        return Fail(e.value);
      }
      disabledOptions := value;
      return Pass;
    }

    /** The `InnerExpression` setter: null is rejected and nothing changes. */
    method SetInnerExpression(value: Option<RegexNodes.Node>) returns (o: Outcome)
      requires Valid()
      modifies this
      ensures value.None? ==> o == Fail(ArgumentNull("value")) && innerExpression == old(innerExpression)
      ensures value.Some? ==> o == Pass && innerExpression == value.value
      ensures enabledOptions == old(enabledOptions) && disabledOptions == old(disabledOptions)
      ensures Valid()
    {
      if value.None? {
        return Fail(ArgumentNull("value"));
      }
      innerExpression := value.value;
      return Pass;
    }
  }

  /**
   * The constructor `(enabled, disabled, inner)`; the two-argument form passes
   * no disabled options. A group it creates is valid.
   */
  method NewInlineOptionGrouping(enabled: RegexOptions, disabled: RegexOptions, inner: Option<RegexNodes.Node>)
    returns (r: Result<InlineOptionGrouping>)
    ensures ConstructorError(enabled, disabled, inner).Some? ==> r == Err(ConstructorError(enabled, disabled, inner).value)
    ensures ConstructorError(enabled, disabled, inner).None? ==>
              r.Ok? && fresh(r.value) && r.value.Valid() && r.value.enabledOptions == enabled
              && r.value.disabledOptions == disabled && r.value.innerExpression == inner.value
  {
    var e := ConstructorError(enabled, disabled, inner);
    if e.Some? {
      return Err(e.value);
    }
    var g := new InlineOptionGrouping.Init(enabled, disabled, inner.value);
    return Ok(g);
  }

  /**
   * The rendering is `(?`, the option prefix, `:`, the inner pattern and `)`.
   * The prefix holds no `:`, so the first `:` after `(?` ends it; it holds the
   * letter of each inline flag set in the enabled options, and a `-` exactly
   * when some disabled flag has a letter.
   */
  lemma FormatShape(enabled: RegexOptions, disabled: RegexOptions, inner: RegexNodes.Node)
    ensures var p := OptionsText(enabled, disabled);
            Format(enabled, disabled, inner) == "(?" + p + ":" + RegexNodes.Render(inner) + ")"
            && ':' !in p
            && ('-' in p <==> FormatOptions(disabled) != "")
            && forall k :: 0 <= k < |InlineFlags| && Has(enabled, InlineFlags[k].0) ==> InlineFlags[k].1 in p
  {
    OptionsTextSpec(enabled, disabled);
    FormatOptionsLetters(enabled);
    FormatOptionsLetters(disabled);
    FormatOptionsSpec(enabled);
  }

  /** Example renderings: `(?im:...)` and `(?is-mn:...)`. */
  lemma EnabledExamples(inner: RegexNodes.Node)
    ensures Format(IgnoreCase | Multiline, NoOptions, inner) == "(?im:" + RegexNodes.Render(inner) + ")"
    ensures Format(IgnoreCase | Singleline, Multiline | ExplicitCapture, inner) == "(?is-mn:" + RegexNodes.Render(inner) + ")"
  {
    OptionsTextExamples();
    assert "(?" + "im" + ":" == "(?im:" && "(?" + "is-mn" + ":" == "(?is-mn:";
    FormatWithOpening(IgnoreCase | Multiline, NoOptions, inner, "(?im:");
    FormatWithOpening(IgnoreCase | Singleline, Multiline | ExplicitCapture, inner, "(?is-mn:");
  }

  /** Example renderings: `(?i-m:...)` and `(?-i:...)`. */
  lemma DisabledExamples(inner: RegexNodes.Node)
    ensures Format(IgnoreCase, Multiline, inner) == "(?i-m:" + RegexNodes.Render(inner) + ")"
    ensures Format(NoOptions, IgnoreCase, inner) == "(?-i:" + RegexNodes.Render(inner) + ")"
  {
    OptionsTextExamples();
    assert "(?" + "i-m" + ":" == "(?i-m:" && "(?" + "-i" + ":" == "(?-i:";
    FormatWithOpening(IgnoreCase, Multiline, inner, "(?i-m:");
    FormatWithOpening(NoOptions, IgnoreCase, inner, "(?-i:");
  }

  /** Once the opening `(?E-D:` is known, the rendering is that opening, the inner pattern and `)`. */
  lemma FormatWithOpening(enabled: RegexOptions, disabled: RegexOptions, inner: RegexNodes.Node, opening: string)
    requires "(?" + OptionsText(enabled, disabled) + ":" == opening
    ensures Format(enabled, disabled, inner) == opening + RegexNodes.Render(inner) + ")"
  {
  }
}
