/**
 * `PatternBuilder`: the fluent builder. Calls append nodes to the current
 * branch; `Or` freezes the current branch as one alternative and starts a
 * new one; `Build` turns the branches into a single node (or null when there
 * is nothing to build).
 *
 * The callbacks of `Group`, `NonCapturingGroup`, `Optional` and `Or` run on a
 * fresh builder; here the caller passes that fresh builder after the callback
 * has run (`None` stands for a null callback), and the method builds it.
 */
module PatternBuilding {
  import opened Common
  import opened Quantifiers
  import TextFormat
  import N = RegexNodes
  import F = RegexFacade

  /**
   * `ApplyQuantifier`: no bounds means no quantifier; otherwise the bounds are
   * checked in order (minimum, maximum, then their relation) and become a
   * greedy counted quantifier. A missing minimum counts from zero.
   */
  function QuantifierFor(min: Option<int32>, max: Option<int32>): (r: Result<Quantifier>)
    ensures min.None? && max.None? ==> r == Ok(NoQuantifier)
    ensures (min.Some? || max.Some?) && min.Some? && min.value < 0 ==>
              r == Err(Argument("Minimum quantifier cannot be negative."))
    ensures (min.None? || min.value >= 0) && max.Some? && max.value < 0 ==>
              r == Err(Argument("Maximum quantifier cannot be negative."))
    ensures (min.None? || min.value >= 0) && (max.None? || max.value >= 0) && min.Some? && max.Some?
            && max.value < min.value ==>
              r == Err(Argument("Maximum quantifier cannot be less than minimum."))
    ensures r.Ok? && (min.Some? || max.Some?) ==>
              r.value.Counted? && !r.value.lazy
              && r.value.min as int == (if min.Some? then min.value as int else 0)
              && (r.value.max.Some? <==> max.Some?)
              && (max.Some? ==> r.value.max.value as int == max.value as int)
              && (r.value.max.Some? ==> r.value.min <= r.value.max.value)
    ensures r.Ok? <==> (min.None? || min.value >= 0) && (max.None? || max.value >= 0)
                       && (min.Some? && max.Some? ==> min.value <= max.value)
  {
    if min.None? && max.None? then Ok(NoQuantifier)
    else if min.Some? && min.value < 0 then Err(Argument("Minimum quantifier cannot be negative."))
    else if max.Some? && max.value < 0 then Err(Argument("Maximum quantifier cannot be negative."))
    else if min.Some? && max.Some? && max.value < min.value then
      Err(Argument("Maximum quantifier cannot be less than minimum."))
    else
      var lo: nat := if min.Some? then min.value as int else 0;
      var hi: Option<nat> := if max.Some? then Some(max.value as int) else None;
      Ok(Counted(lo, hi, false))
  }

  /** The nodes of all branches, frozen ones first, in the order they were added. */
  function Flatten(branches: seq<seq<N.Node>>): seq<N.Node> {
    if branches == [] then [] else Flatten(branches[..|branches| - 1]) + branches[|branches| - 1]
  }

  lemma FlattenAppend(branches: seq<seq<N.Node>>, b: seq<N.Node>)
    ensures Flatten(branches + [b]) == Flatten(branches) + b
  {
    assert (branches + [b])[..|branches|] == branches;
  }

  /** The node a non-empty branch stands for: its only node, or their concatenation. */
  function BranchNode(branch: seq<N.Node>): (r: N.Node)
    requires |branch| > 0
    ensures N.Render(r) == TextFormat.Concat(N.RenderAll(branch))
    ensures |branch| == 1 ==> r == branch[0]
  {
    if |branch| == 1 then
      assert N.RenderAll(branch) == [N.Render(branch[0])];
      assert TextFormat.Concat([N.Render(branch[0])]) == N.Render(branch[0]) + TextFormat.Concat([]);
      branch[0]
    else
      var r := N.Concatenation(branch, NoQuantifier);
      assert N.Body(r) == TextFormat.Concat(N.RenderAll(branch));
      r
  }

  /** The query over the alternation branches: drop the empty ones, collapse the others. */
  function BranchNodes(branches: seq<seq<N.Node>>): seq<N.Node> {
    if branches == [] then []
    else
      var last := branches[|branches| - 1];
      BranchNodes(branches[..|branches| - 1]) + (if |last| > 0 then [BranchNode(last)] else [])
  }

  /** Appending a non-empty branch appends its node. */
  lemma BranchNodesAppend(branches: seq<seq<N.Node>>, b: seq<N.Node>)
    requires |b| > 0
    ensures BranchNodes(branches + [b]) == BranchNodes(branches) + [BranchNode(b)]
  {
    assert (branches + [b])[..|branches|] == branches;
  }

  /** Every branch holds at least one node. */
  predicate AllNonEmpty(branches: seq<seq<N.Node>>) {
    forall i :: 0 <= i < |branches| ==> |branches[i]| > 0
  }

  /**
   * Over non-empty branches the query keeps every branch, in order, and each
   * result renders as its branch's nodes in sequence.
   */
  lemma {:induction false} BranchNodesSpec(branches: seq<seq<N.Node>>)
    requires AllNonEmpty(branches)
    ensures |BranchNodes(branches)| == |branches|
    ensures forall i :: 0 <= i < |branches| ==> BranchNodes(branches)[i] == BranchNode(branches[i])
  {
    if branches != [] {
      var init := branches[..|branches| - 1];
      assert AllNonEmpty(init) by {
        forall i | 0 <= i < |init| ensures |init[i]| > 0 {
          assert init[i] == branches[i];
        }
      }
      BranchNodesSpec(init);
    }
  }

  /** `BuildInternal`'s result for the given state. */
  function Collapse(current: seq<N.Node>, frozen: seq<seq<N.Node>>, hasAlternation: bool): Option<N.Node> {
    if |current| == 0 && |frozen| == 0 then None
    else if hasAlternation then
      var nodes := BranchNodes(if |current| > 0 then frozen + [current] else frozen);
      if |nodes| == 0 then None
      else if |nodes| == 1 then Some(nodes[0])
      else Some(F.Alternate(nodes, NoQuantifier))
    else if |current| == 0 then None
    else Some(BranchNode(current))
  }

  /** `BuildInternal`'s effect on the frozen branches: the current branch is frozen once more. */
  function FrozenAfterBuild(current: seq<N.Node>, frozen: seq<seq<N.Node>>, hasAlternation: bool): seq<seq<N.Node>> {
    if hasAlternation && |current| > 0 then frozen + [current] else frozen
  }

  class PatternBuilder {
    var currentBranch: seq<N.Node>
    var alternationBranches: seq<seq<N.Node>>
    var hasAlternation: bool
    var startAnchorAdded: bool
    var endAnchorAdded: bool

    /** Every node added so far, in order. */
    function Contents(): seq<N.Node>
      reads this
    {
      Flatten(alternationBranches) + currentBranch
    }

    /**
     * Branches are frozen only once an alternation has begun, a frozen branch
     * is never empty, and a set anchor flag means its anchor is among the nodes.
     */
    predicate Valid()
      reads this
    {
      (!hasAlternation ==> alternationBranches == [])
      && AllNonEmpty(alternationBranches)
      && (startAnchorAdded ==> F.AnchorNode(F.LineStart) in Contents())
      && (endAnchorAdded ==> F.AnchorNode(F.LineEnd) in Contents())
    }

    /** What `BuildInternal` returns now. */
    function Result(): Option<N.Node>
      reads this
    {
      Collapse(currentBranch, alternationBranches, hasAlternation)
    }

    /** `new PatternBuilder()`: empty, no alternation, no anchors. */
    constructor ()
      ensures Valid()
      ensures currentBranch == [] && alternationBranches == []
      ensures !hasAlternation && !startAnchorAdded && !endAnchorAdded
    {
      currentBranch := [];
      alternationBranches := [];
      hasAlternation := false;
      startAnchorAdded := false;
      endAnchorAdded := false;
    }

    /** The call appended `n` to the current branch and changed nothing else. */
    twostate predicate Appended(n: N.Node)
      reads this
    {
      currentBranch == old(currentBranch) + [n]
      && alternationBranches == old(alternationBranches)
      && hasAlternation == old(hasAlternation)
      && startAnchorAdded == old(startAnchorAdded)
      && endAnchorAdded == old(endAnchorAdded)
    }

    /** Appends `n`; the invariant survives because nodes are only ever added. */
    method Append(n: N.Node)
      requires Valid()
      modifies this
      ensures Appended(n) && Valid()
      ensures Contents() == old(Contents()) + [n]
    {
      currentBranch := currentBranch + [n];
    }

    /** `Start`: the `^` anchor, at most once. */
    method Start() returns (o: Outcome)
      requires Valid()
      modifies this
      ensures Valid()
      ensures old(startAnchorAdded) ==> o == Fail(InvalidOperation("Start anchor has already been added.")) && unchanged(this)
      ensures !old(startAnchorAdded) ==>
                o == Pass && startAnchorAdded && currentBranch == old(currentBranch) + [F.AnchorNode(F.LineStart)]
                && alternationBranches == old(alternationBranches) && hasAlternation == old(hasAlternation)
                && endAnchorAdded == old(endAnchorAdded)
    {
      if startAnchorAdded {
        return Fail(InvalidOperation("Start anchor has already been added."));
      }
      Append(F.AnchorNode(F.LineStart));
      startAnchorAdded := true;
      return Pass;
    }

    /** `End`: the `$` anchor, at most once. */
    method End() returns (o: Outcome)
      requires Valid()
      modifies this
      ensures Valid()
      ensures old(endAnchorAdded) ==> o == Fail(InvalidOperation("End anchor has already been added.")) && unchanged(this)
      ensures !old(endAnchorAdded) ==>
                o == Pass && endAnchorAdded && currentBranch == old(currentBranch) + [F.AnchorNode(F.LineEnd)]
                && alternationBranches == old(alternationBranches) && hasAlternation == old(hasAlternation)
                && startAnchorAdded == old(startAnchorAdded)
    {
      if endAnchorAdded {
        return Fail(InvalidOperation("End anchor has already been added."));
      }
      Append(F.AnchorNode(F.LineEnd));
      endAnchorAdded := true;
      return Pass;
    }

    /** `Literal(text)`: escaped literal text, which must not be null or empty. */
    method Literal(text: Option<string>) returns (o: Outcome)
      requires Valid()
      modifies this
      ensures Valid()
      ensures IsNullOrEmpty(text) ==> o == Fail(Argument("Literal text cannot be null or empty.")) && unchanged(this)
      ensures !IsNullOrEmpty(text) ==> o == Pass && Appended(F.Literal(text.value, NoQuantifier))
    {
      if IsNullOrEmpty(text) {
        return Fail(Argument("Literal text cannot be null or empty."));
      }
      Append(F.Literal(text.value, NoQuantifier));
      return Pass;
    }

    /** Appends `node` with the quantifier the bounds give, or fails with the bounds' error. */
    method AppendQuantified(node: N.Node, min: Option<int32>, max: Option<int32>) returns (o: Outcome)
      requires Valid()
      modifies this
      ensures Valid()
      ensures QuantifierFor(min, max).Err? ==> o == Fail(QuantifierFor(min, max).error) && unchanged(this)
      ensures QuantifierFor(min, max).Ok? ==>
                o == Pass && Appended(node.WithQuantifier(QuantifierFor(min, max).value))
    {
      var q := QuantifierFor(min, max);
      if q.Err? {
        return Fail(q.error);
      }
      Append(node.WithQuantifier(q.value));
      return Pass;
    }

    /** `Digits(min, max)`: `\d` with the given bounds. */
    method Digits(min: Option<int32>, max: Option<int32>) returns (o: Outcome)
      requires Valid()
      modifies this
      ensures Valid()
      ensures QuantifierFor(min, max).Err? ==> o == Fail(QuantifierFor(min, max).error) && unchanged(this)
      ensures QuantifierFor(min, max).Ok? ==>
                o == Pass && Appended(F.Shortcut(F.Digit, QuantifierFor(min, max).value))
    {
      o := AppendQuantified(F.Shortcut(F.Digit, NoQuantifier), min, max);
    }

    /** `Letters(min, max)`: `[a-zA-Z]` with the given bounds. */
    method Letters(min: Option<int32>, max: Option<int32>) returns (o: Outcome)
      requires Valid()
      modifies this
      ensures Valid()
      ensures QuantifierFor(min, max).Err? ==> o == Fail(QuantifierFor(min, max).error) && unchanged(this)
      ensures QuantifierFor(min, max).Ok? ==>
                o == Pass && Appended(F.CharacterSet("a-zA-Z", false, QuantifierFor(min, max).value))
    {
      o := AppendQuantified(F.CharacterSet("a-zA-Z", false, NoQuantifier), min, max);
    }

    /** `Whitespace(min, max)`: `\s` with the given bounds. */
    method Whitespace(min: Option<int32>, max: Option<int32>) returns (o: Outcome)
      requires Valid()
      modifies this
      ensures Valid()
      ensures QuantifierFor(min, max).Err? ==> o == Fail(QuantifierFor(min, max).error) && unchanged(this)
      ensures QuantifierFor(min, max).Ok? ==>
                o == Pass && Appended(F.Shortcut(F.Whitespace, QuantifierFor(min, max).value))
    {
      o := AppendQuantified(F.Shortcut(F.Whitespace, NoQuantifier), min, max);
    }

    /** `WordCharacter(min, max)`: `\w` with the given bounds. */
    method WordCharacter(min: Option<int32>, max: Option<int32>) returns (o: Outcome)
      requires Valid()
      modifies this
      ensures Valid()
      ensures QuantifierFor(min, max).Err? ==> o == Fail(QuantifierFor(min, max).error) && unchanged(this)
      ensures QuantifierFor(min, max).Ok? ==>
                o == Pass && Appended(F.Shortcut(F.WordCharacter, QuantifierFor(min, max).value))
    {
      o := AppendQuantified(F.Shortcut(F.WordCharacter, NoQuantifier), min, max);
    }

    /** `AnyCharacter(min, max)`: `.` with the given bounds. */
    method AnyCharacter(min: Option<int32>, max: Option<int32>) returns (o: Outcome)
      requires Valid()
      modifies this
      ensures Valid()
      ensures QuantifierFor(min, max).Err? ==> o == Fail(QuantifierFor(min, max).error) && unchanged(this)
      ensures QuantifierFor(min, max).Ok? ==>
                o == Pass && Appended(F.MetaCharacter(".", QuantifierFor(min, max).value))
    {
      o := AppendQuantified(F.MetaCharacter(".", NoQuantifier), min, max);
    }

    /** `CharacterSet(set, min, max)`: the set is checked before the bounds. */
    method CharacterSet(characterSet: Option<string>, min: Option<int32>, max: Option<int32>) returns (o: Outcome)
      requires Valid()
      modifies this
      ensures Valid()
      ensures IsNullOrEmpty(characterSet) ==>
                o == Fail(Argument("Character set cannot be null or empty.")) && unchanged(this)
      ensures !IsNullOrEmpty(characterSet) && QuantifierFor(min, max).Err? ==>
                o == Fail(QuantifierFor(min, max).error) && unchanged(this)
      ensures !IsNullOrEmpty(characterSet) && QuantifierFor(min, max).Ok? ==>
                o == Pass && Appended(F.CharacterSet(characterSet.value, false, QuantifierFor(min, max).value))
    {
      if IsNullOrEmpty(characterSet) {
        return Fail(Argument("Character set cannot be null or empty."));
      }
      o := AppendQuantified(F.CharacterSet(characterSet.value, false, NoQuantifier), min, max);
    }

    /** `Pattern(node)`: any node, which must not be null. */
    method Pattern(node: Option<N.Node>) returns (o: Outcome)
      requires Valid()
      modifies this
      ensures Valid()
      ensures node.None? ==> o == Fail(ArgumentNull("node")) && unchanged(this)
      ensures node.Some? ==> o == Pass && Appended(node.value)
    {
      if node.None? {
        return Fail(ArgumentNull("node"));
      }
      Append(node.value);
      return Pass;
    }

    /**
     * `Group(action)`: the nested builder's result, wrapped in a capturing
     * group; nothing is added when the nested builder builds nothing.
     */
    method Group(builderAction: Option<PatternBuilder>) returns (o: Outcome)
      requires Valid()
      requires builderAction.Some? ==> builderAction.value != this && builderAction.value.Valid()
      modifies this, if builderAction.Some? then {builderAction.value} else {}
      ensures Valid()
      ensures builderAction.None? ==> o == Fail(ArgumentNull("builderAction")) && unchanged(this)
      ensures builderAction.Some? && old(builderAction.value.Result()).None? ==> o == Pass && unchanged(this)
      ensures builderAction.Some? && old(builderAction.value.Result()).Some? ==>
                o == Pass && Appended(F.Group(old(builderAction.value.Result()).value, NoQuantifier))
    {
      if builderAction.None? {
        return Fail(ArgumentNull("builderAction"));
      }
      var content := builderAction.value.BuildInternal();
      if content.Some? {
        Append(F.Group(content.value, NoQuantifier));
      }
      return Pass;
    }

    /** `NonCapturingGroup(action)`: as `Group`, with `(?:...)`. */
    method NonCapturingGroup(builderAction: Option<PatternBuilder>) returns (o: Outcome)
      requires Valid()
      requires builderAction.Some? ==> builderAction.value != this && builderAction.value.Valid()
      modifies this, if builderAction.Some? then {builderAction.value} else {}
      ensures Valid()
      ensures builderAction.None? ==> o == Fail(ArgumentNull("builderAction")) && unchanged(this)
      ensures builderAction.Some? && old(builderAction.value.Result()).None? ==> o == Pass && unchanged(this)
      ensures builderAction.Some? && old(builderAction.value.Result()).Some? ==>
                o == Pass && Appended(F.NonCapturingGroup(old(builderAction.value.Result()).value, NoQuantifier))
    {
      if builderAction.None? {
        return Fail(ArgumentNull("builderAction"));
      }
      var content := builderAction.value.BuildInternal();
      if content.Some? {
        Append(F.NonCapturingGroup(content.value, NoQuantifier));
      }
      return Pass;
    }

    /** `Optional(action)`: the nested result in `(?:...)` followed by a greedy `?`. */
    method Optional(builderAction: Option<PatternBuilder>) returns (o: Outcome)
      requires Valid()
      requires builderAction.Some? ==> builderAction.value != this && builderAction.value.Valid()
      modifies this, if builderAction.Some? then {builderAction.value} else {}
      ensures Valid()
      ensures builderAction.None? ==> o == Fail(ArgumentNull("builderAction")) && unchanged(this)
      ensures builderAction.Some? && old(builderAction.value.Result()).None? ==> o == Pass && unchanged(this)
      ensures builderAction.Some? && old(builderAction.value.Result()).Some? ==>
                o == Pass && Appended(F.NonCapturingGroup(old(builderAction.value.Result()).value, ZeroOrOne(false)))
    {
      if builderAction.None? {
        return Fail(ArgumentNull("builderAction"));
      }
      var content := builderAction.value.BuildInternal();
      if content.Some? {
        var grouped := F.NonCapturingGroup(content.value, NoQuantifier);
        Append(grouped.WithQuantifier(ZeroOrOne(false)));
      }
      return Pass;
    }

    /** Freezes a non-empty current branch as an alternative and clears it. */
    method FreezeCurrent()
      requires Valid()
      modifies this
      ensures currentBranch == []
      ensures alternationBranches == old(if |currentBranch| > 0 then alternationBranches + [currentBranch] else alternationBranches)
      ensures hasAlternation == old(hasAlternation) && startAnchorAdded == old(startAnchorAdded)
      ensures endAnchorAdded == old(endAnchorAdded)
      ensures Contents() == old(Contents())
      ensures AllNonEmpty(alternationBranches)
      ensures startAnchorAdded ==> F.AnchorNode(F.LineStart) in Contents()
      ensures endAnchorAdded ==> F.AnchorNode(F.LineEnd) in Contents()
    {
      if |currentBranch| > 0 {
        FlattenAppend(alternationBranches, currentBranch);
        alternationBranches := alternationBranches + [currentBranch];
        currentBranch := [];
      }
    }

    /**
     * `Or(action)`: the current branch, if any, becomes an alternative; the
     * nested builder's result, if any, starts the new branch.
     */
    method OrBuilder(builderAction: Option<PatternBuilder>) returns (o: Outcome)
      requires Valid()
      requires builderAction.Some? ==> builderAction.value != this && builderAction.value.Valid()
      modifies this, if builderAction.Some? then {builderAction.value} else {}
      ensures Valid()
      ensures builderAction.None? ==> o == Fail(ArgumentNull("builderAction")) && unchanged(this)
      ensures builderAction.Some? ==>
                o == Pass && hasAlternation
                && alternationBranches == old(if |currentBranch| > 0 then alternationBranches + [currentBranch] else alternationBranches)
                && currentBranch == (match old(builderAction.value.Result())
                                     case None => []
                                     case Some(n) => [n])
                && startAnchorAdded == old(startAnchorAdded) && endAnchorAdded == old(endAnchorAdded)
    {
      if builderAction.None? {
        return Fail(ArgumentNull("builderAction"));
      }
      FreezeCurrent();
      var alternative := builderAction.value.BuildInternal();
      hasAlternation := true;
      if alternative.Some? {
        Append(alternative.value);
      }
      return Pass;
    }

    /** `Or(node)`: the current branch, if any, becomes an alternative; `node` starts the new branch. */
    method OrNode(node: Option<N.Node>) returns (o: Outcome)
      requires Valid()
      modifies this
      ensures Valid()
      ensures node.None? ==> o == Fail(ArgumentNull("node")) && unchanged(this)
      ensures node.Some? ==>
                o == Pass && hasAlternation && currentBranch == [node.value]
                && alternationBranches == old(if |currentBranch| > 0 then alternationBranches + [currentBranch] else alternationBranches)
                && startAnchorAdded == old(startAnchorAdded) && endAnchorAdded == old(endAnchorAdded)
      ensures node.Some? ==> Contents() == old(Contents()) + [node.value]
    {
      if node.None? {
        return Fail(ArgumentNull("node"));
      }
      FreezeCurrent();
      hasAlternation := true;
      assert Valid();
      Append(node.value);
      return Pass;
    }

    /** `Build`: see `BuildInternal`. */
    method Build() returns (r: Option<N.Node>)
      requires Valid()
      modifies this
      ensures Valid()
      ensures r == old(Result())
      ensures alternationBranches == old(FrozenAfterBuild(currentBranch, alternationBranches, hasAlternation))
      ensures currentBranch == old(currentBranch) && hasAlternation == old(hasAlternation)
      ensures startAnchorAdded == old(startAnchorAdded) && endAnchorAdded == old(endAnchorAdded)
    {
      r := BuildInternal();
    }

    /**
     * `BuildInternal`: the single node the builder stands for. With an
     * alternation the current branch is frozen as the last alternative (and
     * stays current, so a second build freezes it again).
     */
    method BuildInternal() returns (r: Option<N.Node>)
      requires Valid()
      modifies this
      ensures Valid()
      ensures r == old(Result())
      ensures alternationBranches == old(FrozenAfterBuild(currentBranch, alternationBranches, hasAlternation))
      ensures currentBranch == old(currentBranch) && hasAlternation == old(hasAlternation)
      ensures startAnchorAdded == old(startAnchorAdded) && endAnchorAdded == old(endAnchorAdded)
    {
      if |currentBranch| == 0 && |alternationBranches| == 0 {
        return None;
      }
      if hasAlternation {
        if |currentBranch| > 0 {
          FlattenAppend(alternationBranches, currentBranch);
          alternationBranches := alternationBranches + [currentBranch];
        }
        var branchNodes := BranchNodes(alternationBranches);
        if |branchNodes| == 0 {
          return None;
        }
        if |branchNodes| == 1 {
          return Some(branchNodes[0]);
        }
        return Some(F.Alternate(branchNodes, NoQuantifier));
      }
      if |currentBranch| == 0 {
        return None;
      }
      if |currentBranch| == 1 {
        return Some(currentBranch[0]);
      }
      return Some(N.Concatenation(currentBranch, NoQuantifier));
    }
  }

  /** `RegexBuilder.Pattern()`: a fresh, empty builder. */
  method NewPattern() returns (b: PatternBuilder)
    ensures fresh(b) && b.Valid() && b.Contents() == [] && b.Result().None?
  {
    b := new PatternBuilder();
  }

  /**
   * Without an alternation the build is the current branch in sequence:
   * nothing for an empty branch, the node itself for a single one, and
   * otherwise a node rendering as the nodes' renderings one after another.
   */
  lemma SequenceBuild(current: seq<N.Node>)
    ensures Collapse(current, [], false).Some? <==> |current| > 0
    ensures |current| == 1 ==> Collapse(current, [], false) == Some(current[0])
    ensures |current| > 0 ==> N.Render(Collapse(current, [], false).value) == TextFormat.Concat(N.RenderAll(current))
  {
  }

  /**
   * With an alternation and non-empty frozen branches, every branch (the
   * current one last) becomes one alternative, in order; two or more
   * alternatives render as `(?:a|b|...)`, each alternative as its nodes in
   * sequence; a single one is built as if there were no alternation.
   */
  lemma AlternationBuild(current: seq<N.Node>, frozen: seq<seq<N.Node>>)
    requires AllNonEmpty(frozen)
    ensures var all := if |current| > 0 then frozen + [current] else frozen;
            var nodes := BranchNodes(all);
            |nodes| == |all|
            && (forall i :: 0 <= i < |all| ==> N.Render(nodes[i]) == TextFormat.Concat(N.RenderAll(all[i])))
            && (|all| == 0 ==> Collapse(current, frozen, true).None?)
            && (|all| == 1 ==> Collapse(current, frozen, true) == Some(BranchNode(all[0])))
            && (|all| >= 2 ==>
                  Collapse(current, frozen, true).Some?
                  && N.Render(Collapse(current, frozen, true).value) == "(?:" + N.Join(N.RenderAll(nodes), "|") + ")")
  {
    var all := if |current| > 0 then frozen + [current] else frozen;
    assert AllNonEmpty(all) by {
      if |current| > 0 {
        forall i | 0 <= i < |all| ensures |all[i]| > 0 {
          if i < |frozen| { assert all[i] == frozen[i]; }
        }
      }
    }
    BranchNodesSpec(all);
  }

  /**
   * Building is not idempotent once an alternation has begun: each build
   * freezes the current branch again, so a second build ends with the
   * current branch as two identical alternatives.
   */
  lemma RebuildRepeatsLastBranch(current: seq<N.Node>, frozen: seq<seq<N.Node>>)
    requires AllNonEmpty(frozen) && |current| > 0
    ensures var once := FrozenAfterBuild(current, frozen, true);
            Collapse(current, once, true)
            == Some(F.Alternate(BranchNodes(frozen) + [BranchNode(current), BranchNode(current)], NoQuantifier))
  {
    var once := frozen + [current];
    BranchNodesAppend(frozen, current);
    BranchNodesAppend(once, current);
    var nodes := BranchNodes(once + [current]);
    assert nodes == BranchNodes(frozen) + [BranchNode(current), BranchNode(current)];
    assert |nodes| >= 2;
  }

  /** `Pattern(a).Or(b)`, built twice: the second build repeats the last alternative. */
  method AlternationBuiltTwice(a: N.Node, b: N.Node) returns (first: Option<N.Node>, second: Option<N.Node>)
    ensures first == Some(F.Alternate([a, b], NoQuantifier))
    ensures second == Some(F.Alternate([a, b, b], NoQuantifier))
  {
    TwoBranchCollapse(a, b);
    var builder := PatternOr(a, b);
    first := builder.Build();
    assert builder.alternationBranches == [[a], [b]];
    second := builder.Build();
  }

  /** A fresh builder after `Pattern(a).Or(b)`: `a` frozen, `b` current. */
  method PatternOr(a: N.Node, b: N.Node) returns (builder: PatternBuilder)
    ensures fresh(builder) && builder.Valid()
    ensures builder.alternationBranches == [[a]] && builder.currentBranch == [b] && builder.hasAlternation
  {
    builder := new PatternBuilder();
    var o1 := builder.Pattern(Some(a));
    assert builder.currentBranch == [a] && builder.alternationBranches == [];
    var o2 := builder.OrNode(Some(b));
  }

  /** The two collapses `AlternationBuiltTwice` goes through. */
  lemma TwoBranchCollapse(a: N.Node, b: N.Node)
    ensures Collapse([b], [[a]], true) == Some(F.Alternate([a, b], NoQuantifier))
    ensures Collapse([b], [[a], [b]], true) == Some(F.Alternate([a, b, b], NoQuantifier))
  {
    BranchNodesAppend([], [a]);
    assert [] + [[a]] == [[a]];
    BranchNodesAppend([[a]], [b]);
    assert [[a]] + [[b]] == [[a], [b]];
    assert BranchNodes([[a], [b]]) == [a, b];
    BranchNodesAppend([[a], [b]], [b]);
    assert [[a], [b]] + [[b]] == [[a], [b], [b]];
    assert BranchNodes([[a], [b], [b]]) == [a, b, b];
  }

  /** Anchors go in once each: a second `Start` fails and changes nothing. */
  method StartTwice() returns (first: Outcome, second: Outcome, pattern: Option<N.Node>)
    ensures first == Pass
    ensures second == Fail(InvalidOperation("Start anchor has already been added."))
    ensures pattern == Some(F.AnchorNode(F.LineStart))
  {
    var b := new PatternBuilder();
    first := b.Start();
    second := b.Start();
    pattern := b.Build();
  }
}
