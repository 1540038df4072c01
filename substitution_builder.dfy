/**
 * `SubstitutionBuilder`: the static entry points that create substitution
 * nodes and turn them into replacement pattern text.
 */
module SubstitutionFacade {
  import opened Common
  import TextFormat
  import S = Substitutions

  /** `Build(node)`: a null node is refused; otherwise the node's rendering. */
  function BuildNode(node: Option<S.Substitution>): (r: Result<string>)
    ensures node.None? <==> r == Err(ArgumentNull("node"))
    ensures node.Some? ==> r == Ok(S.Render(node.value))
  {
    if node.None? then Err(ArgumentNull("node")) else Ok(S.Render(node.value))
  }

  /**
   * `Build(params nodes)`: a null or empty array is an argument error (not a
   * null-argument error); the nodes then go through the concatenation's
   * checks, so a null element is refused too; otherwise the renderings of
   * the nodes one after another.
   */
  function Build(nodes: Option<seq<Option<S.Substitution>>>): (r: Result<string>)
    ensures nodes.None? || |nodes.value| == 0 ==> r == Err(Argument("At least one substitution node is required."))
    ensures nodes.Some? && |nodes.value| > 0 && !S.NoNulls(nodes.value) ==>
              r == Err(Argument("Child nodes cannot contain null elements."))
    ensures r.Ok? <==> nodes.Some? && |nodes.value| > 0 && S.NoNulls(nodes.value)
    ensures r.Ok? ==> r.value == TextFormat.Concat(S.RenderAll(S.Unwrap(nodes.value)))
  {
    if nodes.None? || |nodes.value| == 0 then Err(Argument("At least one substitution node is required."))
    else
      match S.NewConcatenation(nodes)
      case Err(e) => Err(e)
      case Ok(concatenation) =>
        assert concatenation.childNodes == S.Unwrap(nodes.value);
        assert S.Render(concatenation) == TextFormat.Concat(S.RenderAll(concatenation.childNodes));
        Ok(S.Render(concatenation))
  }

  /** `Literal(text)`: renders the text with every `$` doubled; null is refused. */
  function Literal(text: Option<string>): (r: Result<S.Substitution>)
    ensures text.None? <==> r == Err(ArgumentNull("text"))
    ensures text.Some? ==> r.Ok? && S.Undouble(S.Render(r.value)) == text.value
                           && |S.Render(r.value)| == |text.value| + S.DollarCount(text.value)
  {
    S.NewLiteral(text)
  }

  /** `Group(number)`: `$number`; a negative number is out of range. */
  function Group(groupNumber: int32): (r: Result<S.Substitution>)
    ensures groupNumber < 0 <==> r.Err?
    ensures r.Err? ==> r.error == ArgumentOutOfRange("groupNumber")
    ensures r.Ok? ==> S.Render(r.value) == "$" + TextFormat.ToBase(groupNumber as int, 10)
  {
    S.NewGroupNumber(groupNumber)
  }

  /** `Group(name)`: `${name}`; a null or blank name is refused. */
  function GroupByName(groupName: Option<string>): (r: Result<S.Substitution>)
    ensures IsNullOrWhiteSpace(groupName) <==> r.Err?
    ensures r.Err? ==> r.error == Argument("Group name cannot be null or whitespace.")
    ensures r.Ok? ==> S.Render(r.value) == "${" + groupName.value + "}"
  {
    S.NewGroupName(groupName)
  }

  /** `WholeMatch()`: `$&`. */
  function WholeMatch(): (r: S.Substitution)
    ensures S.Render(r) == "$&"
  {
    S.SpecialReference(S.WholeMatch)
  }

  /** `BeforeMatch()`: `` $` ``. */
  function BeforeMatch(): (r: S.Substitution)
    ensures S.Render(r) == "$`"
  {
    S.SpecialReference(S.BeforeMatch)
  }

  /** `AfterMatch()`: `$'`. */
  function AfterMatch(): (r: S.Substitution)
    ensures S.Render(r) == "$'"
  {
    S.SpecialReference(S.AfterMatch)
  }

  /** `LastCapturedGroup()`: `$+`. */
  function LastCapturedGroup(): (r: S.Substitution)
    ensures S.Render(r) == "$+"
  {
    S.SpecialReference(S.LastGroup)
  }

  /** `EntireInput()`: `$_`. */
  function EntireInput(): (r: S.Substitution)
    ensures S.Render(r) == "$_"
  {
    S.SpecialReference(S.EntireInput)
  }

  /** `LiteralDollar()`: `$$`, a literal dollar sign in the replacement. */
  function LiteralDollar(): (r: S.Substitution)
    ensures S.Render(r) == "$$"
    ensures S.Render(r) == S.Render(S.Literal("$"))
  {
    S.SpecialReference(S.LiteralDollar)
  }

  /** `Concatenate(params nodes)`: the concatenation constructor. */
  function Concatenate(nodes: Option<seq<Option<S.Substitution>>>): (r: Result<S.Substitution>)
    ensures r.Ok? <==> nodes.Some? && |nodes.value| > 0 && S.NoNulls(nodes.value)
    ensures r.Ok? ==> r.value.Concatenation? && r.value.childNodes == S.Unwrap(nodes.value)
  {
    S.NewConcatenation(nodes)
  }

  /**
   * `Concatenate(nodes)` renders exactly as `Build(nodes)` whenever either
   * succeeds, and the two refuse the same arrays with the same error, except
   * that a null array is a null-argument error only for `Concatenate` and an
   * empty array is reported with different messages.
   */
  lemma ConcatenateAgreesWithBuild(nodes: Option<seq<Option<S.Substitution>>>)
    ensures Concatenate(nodes).Ok? <==> Build(nodes).Ok?
    ensures Concatenate(nodes).Ok? ==> Build(nodes) == Ok(S.Render(Concatenate(nodes).value))
    ensures nodes.Some? && |nodes.value| > 0 && Concatenate(nodes).Err? ==>
              Build(nodes).Err? && Concatenate(nodes).error == Build(nodes).error
    ensures nodes.Some? && |nodes.value| == 0 ==>
              Concatenate(nodes) == Err(Argument("At least one child node is required."))
              && Build(nodes) == Err(Argument("At least one substitution node is required."))
    ensures nodes.None? ==> Concatenate(nodes) == Err(ArgumentNull("childNodes"))
                            && Build(nodes) == Err(Argument("At least one substitution node is required."))
  {
    if nodes.Some? && |nodes.value| > 0 && S.NoNulls(nodes.value) {
      var c := Concatenate(nodes).value;
      assert S.Render(c) == TextFormat.Concat(S.RenderAll(c.childNodes));
    }
  }

  /** Swapping two words: `Group(2)`, `Literal(" ")`, `Group(1)` give `$2 $1`. */
  lemma SwapExample()
    ensures Build(Some([Some(S.GroupReference(Some(2), None)), Some(S.Literal(" ")),
                        Some(S.GroupReference(Some(1), None))])) == Ok("$2 $1")
  {
    var xs := [S.GroupReference(Some(2), None), S.Literal(" "), S.GroupReference(Some(1), None)];
    var nodes := [Some(xs[0]), Some(xs[1]), Some(xs[2])];
    assert S.Unwrap(nodes) == xs;
    assert TextFormat.DigitChar(2) == '2' && TextFormat.DigitChar(1) == '1';
    assert S.Render(xs[0]) == "$2";
    assert S.Render(xs[2]) == "$1";
    assert S.Render(xs[1]) == " " by {
      assert S.Double([]) == [];
    }
    var parts := S.RenderAll(xs);
    assert parts == ["$2", " ", "$1"];
    assert TextFormat.Concat(["$1"]) == "$1" + TextFormat.Concat([]);
    assert TextFormat.Concat([" ", "$1"]) == " " + TextFormat.Concat(["$1"]);
    assert TextFormat.Concat(parts) == "$2" + TextFormat.Concat([" ", "$1"]);
    assert S.NoNulls(nodes);
    assert TextFormat.Concat(parts) == "$2 $1";
    assert Build(Some(nodes)) == Ok("$2 $1");
  }
}
