/** `Number.prototype.toString` on integers, in base 10 (the `padding`
    helper) and base 16 (object ids), together with the value a digit string
    denotes, so that renderings can be read back. */
module Numerals {
  import opened Text

  const Digits: string := "0123456789abcdef"

  /** The digit JavaScript prints for `d`, lower case above 9. */
  function DigitChar(d: nat): char
    requires d < 16
  {
    Digits[d]
  }

  /** The value of one digit character; 0 for anything that is not one. */
  function DigitValue(c: char): nat {
    if '0' <= c <= '9' then c as int - '0' as int
    else if 'a' <= c <= 'f' then c as int - 'a' as int + 10
    else 0
  }

  /** `c` is a digit of `base`: one of `[0-9a-f]` with a value below it. */
  predicate IsDigit(c: char, base: nat) {
    ('0' <= c <= '9' || 'a' <= c <= 'f') && DigitValue(c) < base
  }

  /** `n.toString(base)` for a non-negative integer: no leading zeros, and
      `"0"` for zero. */
  function ToBase(n: nat, base: nat): string
    requires 2 <= base <= 16
    decreases n
  {
    if n < base then [DigitChar(n)]
    else ToBase(n / base, base) + [DigitChar(n % base)]
  }

  /** `n.toString()` for an integer: the decimal digits, after a minus sign
      when `n` is negative. */
  function IntToString(n: int): string {
    if n < 0 then "-" + ToBase(-n, 10) else ToBase(n, 10)
  }

  /** The number a digit string denotes in `base`, most significant digit first. */
  function ValueOf(s: string, base: nat): nat
    decreases |s|
  {
    if |s| == 0 then 0
    else ValueOf(s[..|s| - 1], base) * base + DigitValue(s[|s| - 1])
  }

  function Pow(base: nat, k: nat): nat {
    if k == 0 then 1 else base * Pow(base, k - 1)
  }

  lemma DigitCharValue(d: nat)
    requires d < 16
    ensures DigitValue(DigitChar(d)) == d
  {
  }

  lemma DigitCharIsDigit(d: nat, base: nat)
    requires d < base <= 16
    ensures IsDigit(DigitChar(d), base)
  {
  }

  /** Appending a digit multiplies the value by the base and adds the digit. */
  lemma ValueOfAppend(t: string, c: char, base: nat)
    ensures ValueOf(t + [c], base) == ValueOf(t, base) * base + DigitValue(c)
  {
    assert (t + [c])[..|t|] == t;
  }

  /** Reading back `n.toString(base)` gives `n`. */
  lemma {:induction false} ValueOfToBase(n: nat, base: nat)
    requires 2 <= base <= 16
    ensures ValueOf(ToBase(n, base), base) == n
    decreases n
  {
    if n < base {
      ValueOfOneDigit(n, base);
    } else {
      DivMod(n, base);
      ValueOfToBase(n / base, base);
      ValueOfLastDigit(n, base);
    }
  }

  lemma ValueOfOneDigit(n: nat, base: nat)
    requires 2 <= base <= 16
    requires n < base
    ensures ValueOf(ToBase(n, base), base) == n
  {
    DigitCharValue(n);
    ValueOfAppend("", DigitChar(n), base);
    assert ToBase(n, base) == "" + [DigitChar(n)];
    assert ValueOf("", base) * base == 0;
  }

  lemma ValueOfLastDigit(n: nat, base: nat)
    requires 2 <= base <= n
    requires base <= 16
    requires ValueOf(ToBase(n / base, base), base) == n / base
    ensures ValueOf(ToBase(n, base), base) == n
  {
    var q, d := n / base, n % base;
    var t := ToBase(q, base);
    assert ToBase(n, base) == t + [DigitChar(d)];
    DigitCharValue(d);
    ValueOfAppend(t, DigitChar(d), base);
    assert ValueOf(ToBase(n, base), base) == ValueOf(t, base) * base + d;
    DivMod(n, base);
    MulSubst(ValueOf(t, base), q, base);
  }

  lemma MulSubst(a: nat, b: nat, c: nat)
    requires a == b
    ensures a * c == b * c
  {
  }

  lemma DivMod(n: nat, base: nat)
    requires base >= 2
    ensures n == (n / base) * base + n % base
    ensures n >= base ==> n / base < n
  {
  }

  /** Every character of `n.toString(base)` is a digit of that base. */
  lemma {:induction false} ToBaseDigits(n: nat, base: nat)
    requires 2 <= base <= 16
    ensures |ToBase(n, base)| >= 1
    ensures forall i :: 0 <= i < |ToBase(n, base)| ==> IsDigit(ToBase(n, base)[i], base)
    decreases n
  {
    if n < base {
      DigitCharIsDigit(n, base);
    } else {
      DigitCharIsDigit(n % base, base);
      ToBaseDigits(n / base, base);
    }
  }

  /** A number below `base^k` has at most `k` digits. */
  lemma {:induction false} ToBaseLength(n: nat, base: nat, k: nat)
    requires 2 <= base <= 16
    requires 1 <= k
    requires n < Pow(base, k)
    ensures |ToBase(n, base)| <= k
    decreases k
  {
    if n >= base {
      assert k >= 2;
      assert n / base < Pow(base, k - 1);
      ToBaseLength(n / base, base, k - 1);
    }
  }

  /** Leading zeros do not change the value of a digit string. */
  lemma {:induction false} ValueOfLeadingZeros(k: nat, s: string, base: nat)
    ensures ValueOf(Zeros(k) + s, base) == ValueOf(s, base)
    decreases |s|
  {
    if |s| == 0 {
      ValueOfZeros(k, base);
      assert Zeros(k) + s == Zeros(k);
    } else {
      var z := Zeros(k) + s;
      assert z[..|z| - 1] == Zeros(k) + s[..|s| - 1];
      ValueOfLeadingZeros(k, s[..|s| - 1], base);
    }
  }

  lemma {:induction false} ValueOfZeros(k: nat, base: nat)
    ensures ValueOf(Zeros(k), base) == 0
    decreases k
  {
    if k > 0 {
      assert Zeros(k)[..k - 1] == Zeros(k - 1);
      ValueOfZeros(k - 1, base);
    }
  }
}
