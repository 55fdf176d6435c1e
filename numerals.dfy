/** Positional notation for the numbers in the printer's cycle comment: an address in lower-case
    hexadecimal, as `{:p}` prints a pointer after its `0x`, and a type depth in decimal. */
module Numerals {

  /** The digit for `d` in bases up to sixteen, lower case as `{:p}` prints it. */
  function DigitChar(d: nat): char
    requires d < 16
  {
    "0123456789abcdef"[d]
  }

  /** The value of a digit character, the inverse of `DigitChar`. */
  function DigitValue(c: char): nat
  {
    if '0' <= c <= '9' then (c - '0') as nat
    else if 'a' <= c <= 'f' then (c - 'a') as nat + 10
    else 0
  }

  lemma DigitValueOfChar(d: nat)
    requires d < 16
    ensures DigitValue(DigitChar(d)) == d
  {
    var digits := "0123456789abcdef";
    assert digits[d] == DigitChar(d);
    assert forall k :: 0 <= k < 10 ==> digits[k] == '0' + k as char;
    assert forall k :: 10 <= k < 16 ==> digits[k] == 'a' + (k - 10) as char;
  }

  /** `n` written in base `base` without leading zeros. */
  function Digits(n: nat, base: nat): (s: string)
    requires 2 <= base <= 16
    ensures |s| >= 1
    decreases n
  {
    if n < base then [DigitChar(n)] else Digits(n / base, base) + [DigitChar(n % base)]
  }

  /** The number a string of digits denotes in base `base`. */
  function DigitsValue(s: string, base: nat): nat
  {
    if |s| == 0 then 0 else DigitsValue(s[..|s| - 1], base) * base + DigitValue(s[|s| - 1])
  }

  /** Appending a digit multiplies the value read so far by the base and adds the digit. */
  lemma DigitsValueSnoc(s: string, c: char, base: nat)
    ensures DigitsValue(s + [c], base) == DigitsValue(s, base) * base + DigitValue(c)
  {
    assert (s + [c])[..|s + [c]| - 1] == s;
  }

  /** One more digit: if the digits of `n / base` read back as `n / base`, those of `n` read back
      as `n`. */
  lemma DigitsRoundTripStep(n: nat, base: nat)
    requires 2 <= base <= 16 && base <= n
    requires DigitsValue(Digits(n / base, base), base) == n / base
    ensures DigitsValue(Digits(n, base), base) == n
  {
    var q, d := n / base, n % base;
    var prefix := Digits(q, base);
    assert Digits(n, base) == prefix + [DigitChar(d)];
    assert DigitsValue(prefix + [DigitChar(d)], base) == q * base + d by {
      DigitsValueSnoc(prefix, DigitChar(d), base);
      DigitValueOfChar(d);
    }
    DivModSplit(n, base);
  }

  lemma DivModSplit(n: nat, base: nat)
    requires base > 0
    ensures n == (n / base) * base + n % base
  {
  }

  /** Reading the digits back gives the number: the address and the depth in a cycle comment are
      recoverable from its text. */
  lemma {:induction false} DigitsRoundTrip(n: nat, base: nat)
    requires 2 <= base <= 16
    ensures DigitsValue(Digits(n, base), base) == n
    decreases n
  {
    if n < base {
      assert Digits(n, base) == [] + [DigitChar(n)];
      DigitsValueSnoc([], DigitChar(n), base);
      DigitValueOfChar(n);
    } else {
      DigitsRoundTrip(n / base, base);
      DigitsRoundTripStep(n, base);
    }
  }
}
