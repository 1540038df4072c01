/**
 * The number-to-text conversions the library performs with
 * `CultureInfo.InvariantCulture`: lower-case hexadecimal (`{0:x2}`, `{0:x4}`),
 * octal (`Convert.ToString(v, 8)`), decimal, and `PadLeft`.
 * Digits are ASCII, most significant first, with no sign.
 */
module TextFormat {

  /** The character of a digit value below 16: `0`-`9`, then lower-case `a`-`f`. */
  function DigitChar(d: nat): char
    requires d < 16
  {
    if d < 10 then (('0' as int) + d) as char else (('a' as int) + d - 10) as char
  }

  /** True of a character that is a digit of base `b`. */
  predicate IsDigitOf(c: char, b: nat) {
    ('0' <= c <= '9' && (c as int) - ('0' as int) < b)
    || ('a' <= c <= 'f' && (c as int) - ('a' as int) + 10 < b)
  }

  /** The value of a digit character; 0 for anything else. */
  function DigitValue(c: char): nat {
    if '0' <= c <= '9' then (c as int) - ('0' as int)
    else if 'a' <= c <= 'f' then (c as int) - ('a' as int) + 10
    else 0
  }

  /** The digits of `n` in base `b`, without leading zeros ("0" for zero). */
  function ToBase(n: nat, b: nat): (r: string)
    requires 2 <= b <= 16
    decreases n
  {
    if n < b then [DigitChar(n)] else ToBase(n / b, b) + [DigitChar(n % b)]
  }

  /** The number a string of base-`b` digits denotes (the reading back of `ToBase`). */
  function FromBase(s: string, b: nat): nat
    decreases |s|
  {
    if s == [] then 0 else FromBase(s[..|s| - 1], b) * b + DigitValue(s[|s| - 1])
  }

  /** `DigitValue` reads back the digit `DigitChar` writes. */
  lemma DigitCharValue(d: nat)
    requires d < 16
    ensures DigitValue(DigitChar(d)) == d
  {
  }

  /** Euclidean division: `n` is recovered from its quotient and remainder. */
  lemma DivMod(n: nat, b: nat)
    requires b > 0
    ensures n == (n / b) * b + n % b
  {
  }

  /** Dividing by a base shrinks a number that is at least the base. */
  lemma DivShrinks(n: nat, b: nat)
    requires 2 <= b <= n
    ensures n / b < n
  {
    DivMod(n, b);
  }

  /** `b` to the power `k`. */
  function Pow(b: nat, k: nat): nat {
    if k == 0 then 1 else b * Pow(b, k - 1)
  }

  /** `k` copies of `c`. */
  function Repeat(c: char, k: nat): (r: string)
    ensures |r| == k && forall i :: 0 <= i < k ==> r[i] == c
  {
    if k == 0 then [] else [c] + Repeat(c, k - 1)
  }

  /** `s.PadLeft(width, c)`: `s` preceded by enough copies of `c` to make it `width` long. */
  function PadLeft(s: string, width: nat, c: char): (r: string)
    ensures |s| >= width ==> r == s
    ensures |s| < width ==> |r| == width
    ensures exists k: nat :: r == Repeat(c, k) + s
  {
    if |s| >= width then (assert s == Repeat(c, 0) + s; s) else Repeat(c, width - |s|) + s
  }

  /** The format `{0:xW}`: lower-case hexadecimal, zero-padded to at least `width` digits. */
  function Hex(n: nat, width: nat): string {
    PadLeft(ToBase(n, 16), width, '0')
  }

  /** Every character of `ToBase(n, b)` is a digit of base `b`. */
  lemma {:induction false} ToBaseDigits(n: nat, b: nat)
    requires 2 <= b <= 16
    ensures |ToBase(n, b)| >= 1
    ensures forall i :: 0 <= i < |ToBase(n, b)| ==> IsDigitOf(ToBase(n, b)[i], b)
    decreases n
  {
    if n >= b {
      DivShrinks(n, b);
      ToBaseDigits(n / b, b);
    }
  }

  /** Reading back the digits `ToBase` writes gives the number: the two are inverse. */
  lemma {:induction false} ToBaseRoundTrip(n: nat, b: nat)
    requires 2 <= b <= 16
    ensures FromBase(ToBase(n, b), b) == n
    decreases n
  {
    if n >= b {
      DivShrinks(n, b);
      ToBaseRoundTrip(n / b, b);
      FromBaseLast(ToBase(n / b, b), n % b, b);
      DivMod(n, b);
    } else {
      DigitCharValue(n);
    }
  }

  /** Appending a digit multiplies the value so far by the base and adds the digit. */
  lemma FromBaseLast(p: string, d: nat, b: nat)
    requires d < 16
    ensures FromBase(p + [DigitChar(d)], b) == FromBase(p, b) * b + d
  {
    var s := p + [DigitChar(d)];
    assert s[..|s| - 1] == p;
    DigitCharValue(d);
  }

  /** A number below `b^k` (k at least one) needs at most `k` digits. */
  lemma {:induction false} ToBaseLength(n: nat, b: nat, k: nat)
    requires 2 <= b <= 16 && 1 <= k && n < Pow(b, k)
    ensures |ToBase(n, b)| <= k
    decreases k
  {
    if n >= b {
      assert k != 1;
      assert n / b < Pow(b, k - 1);
      ToBaseLength(n / b, b, k - 1);
    }
  }

  /** Leading zeros do not change the value a digit string denotes. */
  lemma {:induction false} LeadingZerosValue(s: string, k: nat, b: nat)
    ensures FromBase(Repeat('0', k) + s, b) == FromBase(s, b)
    decreases |s|
  {
    if s == [] {
      assert Repeat('0', k) + s == Repeat('0', k);
      ZerosValue(k, b);
    } else {
      var t := Repeat('0', k) + s;
      assert t[..|t| - 1] == Repeat('0', k) + s[..|s| - 1];
      LeadingZerosValue(s[..|s| - 1], k, b);
    }
  }

  /** A string of zeros denotes zero. */
  lemma {:induction false} ZerosValue(k: nat, b: nat)
    ensures FromBase(Repeat('0', k), b) == 0
  {
    if k > 0 {
      var z := Repeat('0', k);
      assert z[..k - 1] == Repeat('0', k - 1);
      ZerosValue(k - 1, b);
    }
  }

  /**
   * `Hex(n, width)` denotes `n`, consists of hexadecimal digits only, and is
   * exactly `width` long when `n` fits in `width` digits.
   */
  lemma HexSpec(n: nat, width: nat)
    ensures FromBase(Hex(n, width), 16) == n
    ensures forall i :: 0 <= i < |Hex(n, width)| ==> IsDigitOf(Hex(n, width)[i], 16)
    ensures |Hex(n, width)| >= width
    ensures 1 <= width && n < Pow(16, width) ==> |Hex(n, width)| == width
  {
    var s := ToBase(n, 16);
    ToBaseRoundTrip(n, 16);
    ToBaseDigits(n, 16);
    var k: nat :| Hex(n, width) == Repeat('0', k) + s;
    LeadingZerosValue(s, k, 16);
    if 1 <= width && n < Pow(16, width) {
      ToBaseLength(n, 16, width);
    }
  }

  /** The strings one after the other. */
  function Concat(parts: seq<string>): string {
    if parts == [] then "" else parts[0] + Concat(parts[1..])
  }

  /** The digit strings of a few concrete numbers. */
  lemma DigitExamples()
    ensures ToBase(0x30, 16) == "30" && ToBase(0x7f, 16) == "7f"
    ensures ToBase(255, 8) == "377" && ToBase(10, 8) == "12" && ToBase(65, 8) == "101"
    ensures PadLeft("12", 3, '0') == "012"
  {
    assert ToBase(10, 8) == "12";
    assert PadLeft("12", 3, '0') == "0" + "12";
  }

  /** Two strings concatenated: one after the other. */
  lemma ConcatOfTwo(a: string, b: string)
    ensures Concat([a, b]) == a + b
  {
    assert [a, b][1..] == [b] && [b][1..] == [];
    assert Concat([b]) == b;
  }

  /** Three strings concatenated: one after another. */
  lemma ConcatOfThree(a: string, b: string, c: string)
    ensures Concat([a, b, c]) == a + b + c
  {
    assert [a, b, c][1..] == [b, c] && [b, c][1..] == [c] && [c][1..] == [];
    assert Concat([c]) == c;
  }

  /** `Concat` distributes over sequence concatenation. */
  lemma {:induction false} ConcatAppend(a: seq<string>, b: seq<string>)
    ensures Concat(a + b) == Concat(a) + Concat(b)
  {
    if a != [] {
      ConcatAppend(a[1..], b);
      assert (a + b)[1..] == a[1..] + b;
    } else {
      assert a + b == b;
    }
  }

  /** A signed decimal number, as `int.ToString()` writes it. */
  function DecimalInt(i: int): string {
    if i < 0 then "-" + ToBase(-i, 10) else ToBase(i, 10)
  }
}
