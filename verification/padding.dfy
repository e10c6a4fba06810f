/** The left zero-padding loop shared by `padding` (inside `log` of warp.js)
    and `createObjectId` (warp.js and utils.js). */
module Padding {
  import opened Text
  import opened Numerals

  function Max(a: int, b: int): int {
    if a >= b then a else b
  }

  /** Prepends `'0'` while `len - |s|` is positive, counting down. */
  method PadLeft(s: string, len: int) returns (r: string)
    ensures |r| == Max(|s|, len)
    ensures |r| >= |s| && r[|r| - |s|..] == s
    ensures forall i :: 0 <= i < |r| - |s| ==> r[i] == '0'
  {
    r := s;
    var p := len - |s|;
    while p > 0
      invariant p == len - |r|
      invariant |r| == |s| || p >= 0
      invariant |r| >= |s| && r[|r| - |s|..] == s
      invariant forall i :: 0 <= i < |r| - |s| ==> r[i] == '0'
      decreases p
    {
      r := "0" + r;
      p := p - 1;
    }
  }

  /** `padding(n, len)` of `log`: `n.toString()` widened with leading zeros
      to at least `len` characters. For a non-negative `n` the result is all
      decimal digits and still denotes `n`. */
  method PadNumber(n: int, len: int) returns (r: string)
    ensures |r| == Max(|IntToString(n)|, len)
    ensures |r| >= |IntToString(n)| && r[|r| - |IntToString(n)|..] == IntToString(n)
    ensures forall i :: 0 <= i < |r| - |IntToString(n)| ==> r[i] == '0'
    ensures n >= 0 ==> (forall i :: 0 <= i < |r| ==> IsDigit(r[i], 10)) && ValueOf(r, 10) == n
  {
    var s := IntToString(n);
    r := PadLeft(s, len);
    if n >= 0 {
      assert r == Zeros(|r| - |s|) + s;
      ValueOfLeadingZeros(|r| - |s|, s, 10);
      ValueOfToBase(n, 10);
      ToBaseDigits(n, 10);
      forall i | 0 <= i < |r|
        ensures IsDigit(r[i], 10)
      {
        if i >= |r| - |s| {
          assert r[i] == s[i - (|r| - |s|)];
        }
      }
    }
  }

  /** `createObjectId` with its random source as a parameter: `random`
      stands for `Math.floor(Math.random() * 0xffffffff)`. The id is always
      eight lower-case hex digits and reads back as `random`. */
  method CreateObjectId(random: nat) returns (id: string)
    requires random < 0xffffffff
    ensures |id| == 8
    ensures forall i :: 0 <= i < 8 ==> IsDigit(id[i], 16)
    ensures ValueOf(id, 16) == random
  {
    var s := ToBase(random, 16);
    assert Pow(16, 8) == 0x1_0000_0000;
    ToBaseLength(random, 16, 8);
    ToBaseDigits(random, 16);
    ValueOfToBase(random, 16);
    id := PadLeft(s, 8);
    assert id == Zeros(8 - |s|) + s;
    ValueOfLeadingZeros(8 - |s|, s, 16);
    forall i | 0 <= i < 8
      ensures IsDigit(id[i], 16)
    {
      if i >= 8 - |s| {
        assert id[i] == s[i - (8 - |s|)];
      }
    }
  }
}
