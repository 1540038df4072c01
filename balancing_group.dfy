/**
 * `RegexNodeBalancingGroup`: a mutable node whose push name, pop name,
 * inner expression and quantifier can be reassigned after construction.
 * A group without a pop name is "simple" and renders `(?<push>-inner)`;
 * otherwise it renders `(?<push-pop>inner)`.
 */
module BalancingGroups {
  import opened Common
  import opened Quantifiers
  import RegexNodes

  /** The two-name constructor's message for a null or empty push name. */
  const PushNameMessage := "Push group name cannot be null or empty."

  /** The single-name constructor's message for a null or empty group name. */
  const GroupNameMessage := "Group name cannot be null or empty."

  /**
   * Both constructors' checks, in order: the group name (push name), then the
   * inner expression. They differ only in the message for a missing name.
   */
  function ConstructorError(groupName: Option<string>, nameMessage: string, innerExpression: Option<RegexNodes.Node>): (r: Option<Error>)
    ensures IsNullOrEmpty(groupName) ==> r == Some(Argument(nameMessage))
    ensures !IsNullOrEmpty(groupName) && innerExpression.None? ==> r == Some(ArgumentNull("innerExpression"))
    ensures r.None? <==> !IsNullOrEmpty(groupName) && innerExpression.Some?
  {
    if IsNullOrEmpty(groupName) then Some(Argument(nameMessage))
    else if innerExpression.None? then Some(ArgumentNull("innerExpression"))
    else None
  }

  /** The pattern text of a balancing group with the given property values. */
  function Format(push: Option<string>, pop: Option<string>, inner: RegexNodes.Node, q: Quantifier): string {
    var body :=
      if IsNullOrEmpty(pop) then "(?<" + OrEmpty(push) + ">-" + RegexNodes.Render(inner) + ")"
      else "(?<" + OrEmpty(push) + "-" + OrEmpty(pop) + ">" + RegexNodes.Render(inner) + ")";
    if q.HasQuantifier() then body + Text(q) else body
  }

  class BalancingGroup {
    var pushGroupName: Option<string>
    var popGroupName: Option<string>
    var innerExpression: RegexNodes.Node
    var quantifier: Quantifier

    /** The state both constructors leave once their checks pass. */
    constructor Init(push: string, pop: Option<string>, inner: RegexNodes.Node)
      ensures pushGroupName == Some(push) && popGroupName == pop
      ensures innerExpression == inner && quantifier == NoQuantifier
    {
      pushGroupName := Some(push);
      popGroupName := pop;
      innerExpression := inner;
      quantifier := NoQuantifier;
    }

    /** `IsSimpleBalancing`: no pop name. */
    predicate IsSimpleBalancing()
      reads this
    {
      IsNullOrEmpty(popGroupName)
    }

    /** The node value this object currently stands for. */
    function ToNode(): RegexNodes.Node
      reads this
    {
      RegexNodes.BalancingGroup(OrEmpty(pushGroupName), OrEmpty(popGroupName), innerExpression, quantifier)
    }

    /** `ToRegexPattern`: agrees with the rendering of the node value. */
    function ToRegexPattern(): (r: string)
      reads this
      ensures r == RegexNodes.Render(ToNode())
    {
      Format(pushGroupName, popGroupName, innerExpression, quantifier)
    }

    /** The `InnerExpression` setter: null is rejected and nothing changes. */
    method SetInnerExpression(value: Option<RegexNodes.Node>) returns (o: Outcome)
      modifies this
      ensures value.None? ==> o == Fail(ArgumentNull("value")) && innerExpression == old(innerExpression)
      ensures value.Some? ==> o == Pass && innerExpression == value.value
      ensures pushGroupName == old(pushGroupName) && popGroupName == old(popGroupName)
      ensures quantifier == old(quantifier)
    {
      if value.None? {
        return Fail(ArgumentNull("value"));
      }
      innerExpression := value.value;
      return Pass;
    }

    /** The `PushGroupName` setter (no check). */
    method SetPushGroupName(value: Option<string>)
      modifies this
      ensures pushGroupName == value && popGroupName == old(popGroupName)
      ensures innerExpression == old(innerExpression) && quantifier == old(quantifier)
    {
      pushGroupName := value;
    }

    /** The `PopGroupName` setter (no check). */
    method SetPopGroupName(value: Option<string>)
      modifies this
      ensures popGroupName == value && pushGroupName == old(pushGroupName)
      ensures innerExpression == old(innerExpression) && quantifier == old(quantifier)
    {
      popGroupName := value;
    }

    /** The inherited `Quantifier` setter. */
    method SetQuantifier(value: Quantifier)
      modifies this
      ensures quantifier == value && pushGroupName == old(pushGroupName) && popGroupName == old(popGroupName)
      ensures innerExpression == old(innerExpression)
    {
      quantifier := value;
    }
  }

  /** The two-name constructor `(push, pop, inner)`. */
  method NewBalancingGroup(push: Option<string>, pop: Option<string>, inner: Option<RegexNodes.Node>)
    returns (r: Result<BalancingGroup>)
    ensures ConstructorError(push, PushNameMessage, inner).Some? ==> r == Err(ConstructorError(push, PushNameMessage, inner).value)
    ensures ConstructorError(push, PushNameMessage, inner).None? ==>
              r.Ok? && fresh(r.value) && r.value.pushGroupName == push && r.value.popGroupName == pop
              && r.value.innerExpression == inner.value && r.value.quantifier == NoQuantifier
  {
    var e := ConstructorError(push, PushNameMessage, inner);
    if e.Some? {
      return Err(e.value);
    }
    var g := new BalancingGroup.Init(push.value, pop, inner.value);
    return Ok(g);
  }

  /** The single-name constructor `(name, inner)`: always a simple group. */
  method NewSimpleBalancingGroup(name: Option<string>, inner: Option<RegexNodes.Node>)
    returns (r: Result<BalancingGroup>)
    ensures ConstructorError(name, GroupNameMessage, inner).Some? ==> r == Err(ConstructorError(name, GroupNameMessage, inner).value)
    ensures ConstructorError(name, GroupNameMessage, inner).None? ==>
              r.Ok? && fresh(r.value) && r.value.pushGroupName == name && r.value.popGroupName == None
              && r.value.innerExpression == inner.value && r.value.quantifier == NoQuantifier
              && r.value.IsSimpleBalancing()
  {
    var e := ConstructorError(name, GroupNameMessage, inner);
    if e.Some? {
      return Err(e.value);
    }
    var g := new BalancingGroup.Init(name.value, None, inner.value);
    return Ok(g);
  }

  /**
   * A balancing group is never wrapped: its quantifier's text follows the
   * closing parenthesis, and no quantifier adds nothing.
   */
  lemma QuantifierAppended(push: Option<string>, pop: Option<string>, inner: RegexNodes.Node, q: Quantifier)
    ensures Format(push, pop, inner, q) == Format(push, pop, inner, NoQuantifier) + Text(q)
  {
    TextEmptyIff(q);
  }

  /**
   * The two forms: without a pop name the `-` comes after `>`, before the
   * inner text; with one, it separates the names. An empty pop name renders
   * exactly like a missing one.
   */
  lemma FormatForms(push: string, pop: string, inner: RegexNodes.Node)
    ensures Format(Some(push), None, inner, NoQuantifier) == "(?<" + push + ">-" + RegexNodes.Render(inner) + ")"
    ensures Format(Some(push), Some(""), inner, NoQuantifier) == Format(Some(push), None, inner, NoQuantifier)
    ensures pop != "" ==>
              Format(Some(push), Some(pop), inner, NoQuantifier) == "(?<" + push + "-" + pop + ">" + RegexNodes.Render(inner) + ")"
  {
  }

  /**
   * Reassigning the inner expression changes only the inner text: two
   * renderings differ only in the part between a fixed prefix and suffix.
   */
  lemma InnerOnlyChangesInnerText(push: Option<string>, pop: Option<string>, a: RegexNodes.Node, b: RegexNodes.Node, q: Quantifier)
    ensures exists pre: string, post: string ::
              Format(push, pop, a, q) == pre + RegexNodes.Render(a) + post
              && Format(push, pop, b, q) == pre + RegexNodes.Render(b) + post
  {
    FormatSplit(push, pop, a, q);
    FormatSplit(push, pop, b, q);
    var pre, post := Prefix(push, pop), Suffix(q);
    assert Format(push, pop, a, q) == pre + RegexNodes.Render(a) + post
           && Format(push, pop, b, q) == pre + RegexNodes.Render(b) + post;
  }

  /** The text before the inner expression. */
  function Prefix(push: Option<string>, pop: Option<string>): string {
    if IsNullOrEmpty(pop) then "(?<" + OrEmpty(push) + ">-" else "(?<" + OrEmpty(push) + "-" + OrEmpty(pop) + ">"
  }

  /** The text after the inner expression. */
  function Suffix(q: Quantifier): string {
    ")" + (if q.HasQuantifier() then Text(q) else "")
  }

  /** `Format` around a given inner expression, cut into the parts that do not depend on it. */
  lemma FormatSplit(push: Option<string>, pop: Option<string>, inner: RegexNodes.Node, q: Quantifier)
    ensures Format(push, pop, inner, q) == Prefix(push, pop) + RegexNodes.Render(inner) + Suffix(q)
  {
    var pre, r := Prefix(push, pop), RegexNodes.Render(inner);
    var t := if q.HasQuantifier() then Text(q) else "";
    assert Format(push, pop, inner, q) == if q.HasQuantifier() then pre + r + ")" + t else pre + r + ")";
    CloseThen(pre, r, t);
  }

  /** A closing paren and then `t`, regrouped. */
  lemma CloseThen(pre: string, r: string, t: string)
    ensures pre + r + ")" + t == pre + r + (")" + t)
    ensures t == "" ==> pre + r + ")" == pre + r + (")" + t)
  {
  }

  /** The test vector of the simple form: `("push", "", test)` renders `(?<push>-test)`. */
  lemma SimpleFormExample()
    ensures Format(Some("push"), Some(""), RegexNodes.Literal("test", NoQuantifier), NoQuantifier) == "(?<push>-test)"
  {
    assert RegexNodes.Render(RegexNodes.Literal("test", NoQuantifier)) == "test";
  }
}
