/** The JavaScript built-ins the engine's arithmetic and text formatting rely
    on: the remainder operator `%`, `Number.prototype.toString(radix)` on
    integers, and `String.prototype.padStart` with a one-character filler.
    `Math.floor(a / b)` with a positive divisor is Dafny's own `/`. */
module JsBuiltins {

  import Arithmetic

  /** `a % b` for a positive divisor: the remainder of truncating division,
      which takes the sign of `a` (unlike Dafny's `%`). */
  function Remainder(a: int, b: int): (r: int)
    requires b > 0
    ensures a >= 0 ==> 0 <= r < b && r == a % b
    ensures a < 0 ==> -b < r <= 0 && r == -((-a) % b)
  {
    if a >= 0 then a % b else -((-a) % b)
  }

  /** The numeric value of a lower-case digit character; 16 for any other character. */
  function DigitValue(c: char): nat
  {
    if '0' <= c <= '9' then c as int - '0' as int
    else if 'a' <= c <= 'f' then c as int - 'a' as int + 10
    else 16
  }

  /** `c` is a digit of the given radix, as `toString(radix)` writes it. */
  predicate IsDigitChar(c: char, radix: nat)
  {
    DigitValue(c) < radix
  }

  /** The character `toString` writes for digit `d` (lower-case letters above 9). */
  function DigitChar(d: nat): (c: char)
    requires d < 16
    ensures DigitValue(c) == d
  {
    if d < 10 then ('0' as int + d) as char else ('a' as int + d - 10) as char
  }

  /** The value of a string of digits in the given radix, most significant first. */
  function ParseNat(s: string, radix: nat): nat
  {
    if s == [] then 0 else ParseNat(s[..|s| - 1], radix) * radix + DigitValue(s[|s| - 1])
  }

  /** `n.toString(radix)` for a non-negative integer. */
  function NatToString(n: nat, radix: nat): string
    requires 2 <= radix <= 16
    decreases n
  {
    if n < radix then [DigitChar(n)]
    else
      QuotientFacts(n, radix);
      NatToString(n / radix, radix) + [DigitChar(n % radix)]
  }

  /** Appending a digit multiplies the value read so far by the radix and adds the digit. */
  lemma ParseNatAppend(s: string, c: char, radix: nat)
    ensures ParseNat(s + [c], radix) == ParseNat(s, radix) * radix + DigitValue(c)
  {
    assert (s + [c])[..|s + [c]| - 1] == s;
  }

  /** What `toString(radix)` produces: at least one digit of the radix, no
      leading zero unless the number is zero, and text that reads back as `n`. */
  lemma {:induction false} NatToStringDigits(n: nat, radix: nat)
    requires 2 <= radix <= 16
    ensures |NatToString(n, radix)| >= 1
    ensures forall i :: 0 <= i < |NatToString(n, radix)| ==> IsDigitChar(NatToString(n, radix)[i], radix)
    ensures DigitValue(NatToString(n, radix)[0]) == 0 ==> n == 0
    ensures ParseNat(NatToString(n, radix), radix) == n
    decreases n
  {
    if n >= radix {
      QuotientFacts(n, radix);
      var front := NatToString(n / radix, radix);
      var c := DigitChar(n % radix);
      NatToStringDigits(n / radix, radix);
      assert NatToString(n, radix) == front + [c];
      ParseNatAppend(front, c, radix);
    }
  }

  /** Digit-splitting facts about `n` in a radix. */
  lemma QuotientFacts(n: nat, radix: nat)
    requires 2 <= radix && n >= radix
    ensures 1 <= n / radix < n && 0 <= n % radix < radix
    ensures n == (n / radix) * radix + n % radix
  {
    Arithmetic.DivLowerBound(n, radix, 1);
    Arithmetic.DivUpperBound(n, radix, n);
  }

  /** The value of the text `toString()` gives for an integer: an optional minus sign, then decimal digits. */
  function ParseInt(s: string): int
  {
    if |s| > 0 && s[0] == '-' then -(ParseNat(s[1..], 10) as int) else ParseNat(s, 10)
  }

  /** `n.toString()` for an integer `n`. */
  function IntToString(n: int): (s: string)
    ensures |s| >= 1
    ensures ParseInt(s) == n
  {
    if n < 0 then
      var s := "-" + NatToString(-n, 10);
      NatToStringDigits(-n, 10);
      assert s[1..] == NatToString(-n, 10);
      s
    else
      var s := NatToString(n, 10);
      NatToStringDigits(n, 10);
      assert IsDigitChar(s[0], 10);
      s
  }

  /** Distinct integers have distinct texts, since the text reads back to the integer. */
  lemma IntToStringInjective(a: int, b: int)
    ensures IntToString(a) == IntToString(b) <==> a == b
  {
    assert ParseInt(IntToString(a)) == a && ParseInt(IntToString(b)) == b;
  }

  /** `s.padStart(targetLength, fill)` for a one-character `fill`. */
  function PadStart(s: string, targetLength: nat, fill: char): string
  {
    if |s| < targetLength then seq(targetLength - |s|, _ => fill) + s else s
  }

  /** `padStart` keeps the text as its suffix, fills the front with the
      filler, and reaches the target length unless the text is already longer. */
  lemma PadStartShape(s: string, targetLength: nat, fill: char)
    ensures var r := PadStart(s, targetLength, fill);
      |r| == (if |s| < targetLength then targetLength else |s|) &&
      r[|r| - |s|..] == s &&
      forall i :: 0 <= i < |r| - |s| ==> r[i] == fill
  {
  }

  /** A number below the radix is written as its single digit. */
  lemma NatToStringOneDigit(n: nat, radix: nat)
    requires 2 <= radix <= 16 && n < radix
    ensures NatToString(n, radix) == [DigitChar(n)]
  {
  }

  /** A number whose quotient by the radix is below the radix is written as two digits. */
  lemma NatToStringTwoDigits(n: nat, radix: nat)
    requires 2 <= radix <= 16 && radix <= n && n / radix < radix
    ensures NatToString(n, radix) == [DigitChar(n / radix), DigitChar(n % radix)]
  {
    QuotientFacts(n, radix);
    NatToStringOneDigit(n / radix, radix);
  }

  /** Padding one character to two puts the filler in front. */
  lemma PadStartOne(c: char, fill: char)
    ensures PadStart([c], 2, fill) == [fill, c]
  {
    assert seq(1, _ => fill) == [fill];
  }

  /** A number below 100, written with `toString()` and padded to two
      characters with '0', is exactly its two decimal digits. */
  lemma TwoDecimalDigits(n: nat)
    requires n < 100
    ensures PadStart(NatToString(n, 10), 2, '0') == [DigitChar(n / 10), DigitChar(n % 10)]
  {
    if n < 10 {
      NatToStringOneDigit(n, 10);
      PadStartOne(DigitChar(n), '0');
      assert n / 10 == 0 && n % 10 == n;
    } else {
      assert n / 10 < 10;
      NatToStringTwoDigits(n, 10);
    }
  }

  /** A number below 256, written with `toString(16)` and padded to two
      characters with '0', is exactly its two hex digits. */
  lemma TwoHexDigits(n: nat)
    requires n < 256
    ensures PadStart(NatToString(n, 16), 2, '0') == [DigitChar(n / 16), DigitChar(n % 16)]
  {
    if n < 16 {
      NatToStringOneDigit(n, 16);
      PadStartOne(DigitChar(n), '0');
      assert n / 16 == 0 && n % 16 == n;
    } else {
      assert n / 16 < 16;
      NatToStringTwoDigits(n, 16);
    }
  }

}
