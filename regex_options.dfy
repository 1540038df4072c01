/**
 * `RegexOptions` flag sets and the two helpers of the inline option grouping
 * that read them: the `imsnx` letters and the check that rejects the flags an
 * inline group cannot express.
 */
module RegexOptionFlags {
  import opened Common

  /** A `RegexOptions` value: a set of bit flags. */
  type RegexOptions = bv32

  const NoOptions: RegexOptions := 0
  const IgnoreCase: RegexOptions := 1
  const Multiline: RegexOptions := 2
  const ExplicitCapture: RegexOptions := 4
  const Compiled: RegexOptions := 8
  const Singleline: RegexOptions := 16
  const IgnorePatternWhitespace: RegexOptions := 32
  const RightToLeft: RegexOptions := 64
  const ECMAScript: RegexOptions := 256
  const CultureInvariant: RegexOptions := 512

  /** `(options & flag) == flag`. */
  predicate Has(options: RegexOptions, flag: RegexOptions) {
    options & flag == flag
  }

  /** `flag`'s letter when it is set in `options`, else nothing. */
  function Letter(options: RegexOptions, flag: RegexOptions, c: char): string {
    if Has(options, flag) then [c] else ""
  }

  /** `FormatOptions`: the letters of the inline-expressible flags, in the order `imsnx`. */
  function FormatOptions(options: RegexOptions): string {
    Select(options, InlineFlags)
  }

  /** The option prefix of an inline group: `E`, `-D` or `E-D`. */
  function OptionsText(enabled: RegexOptions, disabled: RegexOptions): string {
    var e := FormatOptions(enabled);
    var d := FormatOptions(disabled);
    if d == "" then e else if e == "" then "-" + d else e + "-" + d
  }

  /** True of the flags an inline group rejects. */
  predicate HasInvalidFlag(options: RegexOptions) {
    Has(options, Compiled) || Has(options, RightToLeft) || Has(options, ECMAScript) || Has(options, CultureInvariant)
  }

  /**
   * `ValidateOptions`: `None` when the options may appear in an inline group,
   * otherwise the exception naming the last rejected flag checked
   * (Compiled, RightToLeft, ECMAScript, CultureInvariant in that order).
   */
  function ValidateOptions(options: RegexOptions): Option<Error> {
    if options == NoOptions then None
    else
      var name: Option<string> := None;
      var name := if Has(options, Compiled) then Some("Compiled") else name;
      var name := if Has(options, RightToLeft) then Some("RightToLeft") else name;
      var name := if Has(options, ECMAScript) then Some("ECMAScript") else name;
      var name := if Has(options, CultureInvariant) then Some("CultureInvariant") else name;
      if name.Some? then Some(InlineModeError(name.value)) else None
  }

  /** The exception naming a flag an inline group cannot express. */
  function InlineModeError(flagName: string): Error {
    Argument(flagName + " option is not available in inline mode")
  }

  /** The inline-expressible flags and their letters, in output order. */
  const InlineFlags: seq<(RegexOptions, char)> :=
    [(IgnoreCase, 'i'), (Multiline, 'm'), (Singleline, 's'), (ExplicitCapture, 'n'), (IgnorePatternWhitespace, 'x')]

  /** The letters of `flags`, in order. */
  function Letters(flags: seq<(RegexOptions, char)>): string {
    if flags == [] then "" else [flags[0].1] + Letters(flags[1..])
  }

  /** The letters of those `flags` that are set in `options`, in order. */
  function Select(options: RegexOptions, flags: seq<(RegexOptions, char)>): string {
    if flags == [] then "" else Letter(options, flags[0].0, flags[0].1) + Select(options, flags[1..])
  }

  /** `s` keeps some of the characters of `t`, in the same order. */
  predicate IsSubsequence(s: string, t: string)
    decreases |t|
  {
    if s == [] then true
    else if t == [] then false
    else if s[0] == t[0] then IsSubsequence(s[1..], t[1..])
    else IsSubsequence(s, t[1..])
  }

  /** The letters of the inline flags spell `imsnx`. */
  lemma InlineLetters()
    ensures Letters(InlineFlags) == "imsnx"
    ensures forall i, j :: 0 <= i < j < |InlineFlags| ==> InlineFlags[i].1 != InlineFlags[j].1
  {
    var f1 := [(Multiline, 'm'), (Singleline, 's'), (ExplicitCapture, 'n'), (IgnorePatternWhitespace, 'x')];
    var f2 := [(Singleline, 's'), (ExplicitCapture, 'n'), (IgnorePatternWhitespace, 'x')];
    var f3 := [(ExplicitCapture, 'n'), (IgnorePatternWhitespace, 'x')];
    var f4 := [(IgnorePatternWhitespace, 'x')];
    assert InlineFlags[1..] == f1 && f1[1..] == f2 && f2[1..] == f3 && f3[1..] == f4 && f4[1..] == [];
    assert Letters(f4) == "x";
    assert Letters(f3) == "nx";
    assert Letters(f2) == "snx";
    assert Letters(f1) == "msnx";
  }

  /** `FormatOptions` is the concatenation of the five optional letters, in the order `imsnx`. */
  lemma FormatOptionsUnfold(options: RegexOptions)
    ensures FormatOptions(options) ==
              Letter(options, IgnoreCase, 'i') + Letter(options, Multiline, 'm') + Letter(options, Singleline, 's')
              + Letter(options, ExplicitCapture, 'n') + Letter(options, IgnorePatternWhitespace, 'x')
  {
    var a, b, c, d, e := InlineFlags[0], InlineFlags[1], InlineFlags[2], InlineFlags[3], InlineFlags[4];
    assert InlineFlags == [a, b, c, d, e];
    SelectFive(options, a, b, c, d, e);
    AppendFive(Letter(options, a.0, a.1), Letter(options, b.0, b.1), Letter(options, c.0, c.1),
               Letter(options, d.0, d.1), Letter(options, e.0, e.1));
  }

  /** The option letters of the flag combinations the inline-grouping tests use. */
  lemma FormatOptionsExamples()
    ensures FormatOptions(NoOptions) == "" && FormatOptions(IgnoreCase) == "i" && FormatOptions(Multiline) == "m"
    ensures FormatOptions(IgnoreCase | Multiline) == "im" && FormatOptions(IgnoreCase | Singleline) == "is"
    ensures FormatOptions(Multiline | ExplicitCapture) == "mn"
  {
    FormatOptionsUnfold(NoOptions);
    FormatOptionsUnfold(IgnoreCase);
    FormatOptionsUnfold(Multiline);
    FormatOptionsUnfold(IgnoreCase | Multiline);
    FormatOptionsUnfold(IgnoreCase | Singleline);
    FormatOptionsUnfold(Multiline | ExplicitCapture);
  }

  /** The option prefixes of the inline-grouping tests. */
  lemma OptionsTextExamples()
    ensures OptionsText(IgnoreCase | Multiline, NoOptions) == "im"
    ensures OptionsText(IgnoreCase | Singleline, Multiline | ExplicitCapture) == "is-mn"
    ensures OptionsText(IgnoreCase, Multiline) == "i-m"
    ensures OptionsText(NoOptions, IgnoreCase) == "-i"
  {
    FormatOptionsExamples();
  }

  /** `Select` over five flags, one letter at a time. */
  lemma SelectFive(options: RegexOptions, a: (RegexOptions, char), b: (RegexOptions, char), c: (RegexOptions, char),
                   d: (RegexOptions, char), e: (RegexOptions, char))
    ensures Select(options, [a, b, c, d, e]) ==
              Letter(options, a.0, a.1) + (Letter(options, b.0, b.1) + (Letter(options, c.0, c.1)
              + (Letter(options, d.0, d.1) + (Letter(options, e.0, e.1) + ""))))
  {
    assert [e][1..] == [];
    assert Select(options, [e]) == Letter(options, e.0, e.1) + "";
    assert [d, e][1..] == [e];
    assert Select(options, [d, e]) == Letter(options, d.0, d.1) + Select(options, [e]);
    assert [c, d, e][1..] == [d, e];
    assert Select(options, [c, d, e]) == Letter(options, c.0, c.1) + Select(options, [d, e]);
    assert [b, c, d, e][1..] == [c, d, e];
    assert Select(options, [b, c, d, e]) == Letter(options, b.0, b.1) + Select(options, [c, d, e]);
    assert [a, b, c, d, e][1..] == [b, c, d, e];
  }

  /** Five strings joined from the right equal the same five joined from the left. */
  lemma AppendFive(a: string, b: string, c: string, d: string, e: string)
    ensures a + (b + (c + (d + (e + "")))) == a + b + c + d + e
  {
    calc {
      a + (b + (c + (d + (e + ""))));
      { assert e + "" == e; }
      a + (b + (c + (d + e)));
      (a + b) + (c + (d + e));
      ((a + b) + c) + (d + e);
      (((a + b) + c) + d) + e;
    }
  }

  /** The selected letters form a subsequence of all the letters. */
  lemma {:induction false} SelectSubsequence(options: RegexOptions, flags: seq<(RegexOptions, char)>)
    ensures IsSubsequence(Select(options, flags), Letters(flags))
  {
    if flags != [] {
      SelectSubsequence(options, flags[1..]);
      SubsequenceStep(Letter(options, flags[0].0, flags[0].1), flags[0].1,
        Select(options, flags[1..]), Letters(flags[1..]));
    }
  }

  /** With letters all distinct, a letter is selected exactly when its flag is set. */
  lemma {:induction false} SelectMembership(options: RegexOptions, flags: seq<(RegexOptions, char)>, k: nat)
    requires k < |flags|
    requires forall i, j :: 0 <= i < j < |flags| ==> flags[i].1 != flags[j].1
    ensures flags[k].1 in Select(options, flags) <==> Has(options, flags[k].0)
  {
    var rest := Select(options, flags[1..]);
    assert Select(options, flags) == Letter(options, flags[0].0, flags[0].1) + rest;
    if k == 0 {
      SelectLetters(options, flags[1..]);
      assert flags[0].1 !in Letters(flags[1..]) by {
        LettersIndex(flags[1..]);
      }
    } else {
      SelectMembership(options, flags[1..], k - 1);
    }
  }

  /** Every selected letter is one of the letters. */
  lemma {:induction false} SelectLetters(options: RegexOptions, flags: seq<(RegexOptions, char)>)
    ensures forall c :: c in Select(options, flags) ==> c in Letters(flags)
  {
    if flags != [] {
      SelectLetters(options, flags[1..]);
    }
  }

  /** The letters are those of the flags, position by position. */
  lemma {:induction false} LettersIndex(flags: seq<(RegexOptions, char)>)
    ensures |Letters(flags)| == |flags|
    ensures forall i :: 0 <= i < |flags| ==> Letters(flags)[i] == flags[i].1
  {
    if flags != [] {
      LettersIndex(flags[1..]);
    }
  }

  /**
   * The letters `FormatOptions` writes form a subsequence of `imsnx`, and each
   * letter appears exactly when its flag is set.
   */
  lemma FormatOptionsSpec(options: RegexOptions)
    ensures IsSubsequence(FormatOptions(options), "imsnx")
    ensures forall k :: 0 <= k < |InlineFlags| ==>
              (InlineFlags[k].1 in FormatOptions(options) <==> Has(options, InlineFlags[k].0))
  {
    InlineLetters();
    SelectSubsequence(options, InlineFlags);
    forall k | 0 <= k < |InlineFlags|
      ensures InlineFlags[k].1 in FormatOptions(options) <==> Has(options, InlineFlags[k].0)
    {
      SelectMembership(options, InlineFlags, k);
    }
  }

  /** Prefixing an optional letter to both sides keeps the subsequence relation. */
  lemma SubsequenceStep(a: string, c: char, rest: string, t: string)
    requires a == "" || a == [c]
    requires IsSubsequence(rest, t)
    ensures IsSubsequence(a + rest, [c] + t)
  {
    if a == "" {
      assert a + rest == rest;
      SubsequenceWeaken(rest, c, t);
    } else {
      assert (a + rest)[1..] == rest;
      assert ([c] + t)[1..] == t;
    }
  }

  /** A subsequence of `t` is a subsequence of `t` with a character put in front. */
  lemma SubsequenceWeaken(s: string, c: char, t: string)
    requires IsSubsequence(s, t)
    ensures IsSubsequence(s, [c] + t)
    decreases |t|, 1
  {
    if s != [] {
      assert ([c] + t)[1..] == t;
      if s[0] == c {
        SubsequenceDrop(s, t);
      }
    }
  }

  /** Dropping the first character of a subsequence keeps it a subsequence. */
  lemma SubsequenceDrop(s: string, t: string)
    requires s != [] && IsSubsequence(s, t)
    ensures IsSubsequence(s[1..], t)
    decreases |t|, 0
  {
    if t != [] {
      if s[0] == t[0] {
        if s[1..] != [] {
          SubsequenceWeaken(s[1..], t[0], t[1..]);
          assert [t[0]] + t[1..] == t;
        }
      } else {
        SubsequenceDrop(s, t[1..]);
        if s[1..] != [] {
          SubsequenceWeaken(s[1..], t[0], t[1..]);
          assert [t[0]] + t[1..] == t;
        }
      }
    }
  }

  /**
   * The check fails exactly when one of the four rejected flags is set; `None`
   * (no flags) always passes.
   */
  lemma ValidateOptionsIff(options: RegexOptions)
    ensures ValidateOptions(options).Some? <==> HasInvalidFlag(options)
    ensures ValidateOptions(NoOptions).None?
  {
    if options == NoOptions {
      assert !HasInvalidFlag(options) by {
        assert NoOptions & Compiled == 0;
      }
    }
  }

  /** With several rejected flags, the message names the one checked last. */
  lemma ValidateOptionsPriority(options: RegexOptions)
    ensures Has(options, CultureInvariant) ==>
              ValidateOptions(options) == Some(InlineModeError("CultureInvariant"))
    ensures !Has(options, CultureInvariant) && Has(options, ECMAScript) ==>
              ValidateOptions(options) == Some(InlineModeError("ECMAScript"))
    ensures !Has(options, CultureInvariant) && !Has(options, ECMAScript) && Has(options, RightToLeft) ==>
              ValidateOptions(options) == Some(InlineModeError("RightToLeft"))
    ensures !Has(options, CultureInvariant) && !Has(options, ECMAScript) && !Has(options, RightToLeft)
            && Has(options, Compiled) ==>
              ValidateOptions(options) == Some(InlineModeError("Compiled"))
  {
    if Has(options, CultureInvariant) {
      assert options != NoOptions;
    } else if Has(options, ECMAScript) {
      assert options != NoOptions;
    } else if Has(options, RightToLeft) {
      assert options != NoOptions;
    } else if Has(options, Compiled) {
      assert options != NoOptions;
    }
  }


  /**
   * The option prefix: both parts empty gives nothing; the `-` appears exactly
   * when some disabled flag has a letter, and it separates the two lists.
   */
  lemma OptionsTextSpec(enabled: RegexOptions, disabled: RegexOptions)
    ensures FormatOptions(disabled) == "" ==> OptionsText(enabled, disabled) == FormatOptions(enabled)
    ensures FormatOptions(disabled) != "" ==>
              OptionsText(enabled, disabled) == FormatOptions(enabled) + "-" + FormatOptions(disabled)
    ensures '-' in OptionsText(enabled, disabled) <==> FormatOptions(disabled) != ""
  {
    FormatOptionsLetters(enabled);
    FormatOptionsLetters(disabled);
  }

  /** `FormatOptions` writes letters only, never `-` or `:`. */
  lemma FormatOptionsLetters(options: RegexOptions)
    ensures '-' !in FormatOptions(options) && ':' !in FormatOptions(options)
  {
    InlineLetters();
    SelectLetters(options, InlineFlags);
  }
}
