/** `createPlaceholders` of utils.js: the `?, ?, ?` parameter list of a
    prepared statement. */
module Placeholders {

  /** The character at position `i` of any placeholder list: a `?` every
      third character, separated by `", "`. */
  function PlaceholderChar(i: nat): char {
    if i % 3 == 0 then '?' else if i % 3 == 1 then ',' else ' '
  }

  /** `s` is a placeholder list with `k` placeholders. */
  predicate IsPlaceholderList(s: string, k: nat) {
    && k >= 1
    && |s| == 3 * k - 2
    && forall i :: 0 <= i < |s| ==> s[i] == PlaceholderChar(i)
  }

  /** `t` written `m` times. */
  function Repeat(t: string, m: nat): string {
    if m == 0 then "" else Repeat(t, m - 1) + t
  }

  /** Occurrences of `c` in `s`. */
  function Count(s: string, c: char): nat
    decreases |s|
  {
    if |s| == 0 then 0
    else Count(s[..|s| - 1], c) + (if s[|s| - 1] == c then 1 else 0)
  }

  /** Builds the list by appending `", ?"` while the counter is above one.
      A length below one (zero, negative) still gives one placeholder. */
  method CreatePlaceholders(length: int) returns (s: string)
    ensures IsPlaceholderList(s, if length > 1 then length else 1)
  {
    s := "?";
    var n := length;
    if n > 1 {
      while n > 1
        invariant 1 <= n <= length
        invariant |s| == 3 * (length - n) + 1
        invariant forall i :: 0 <= i < |s| ==> s[i] == PlaceholderChar(i)
        decreases n
      {
        s := s + ", ?";
        n := n - 1;
      }
    }
  }

  /** Dropping the last `", ?"` of a list with `k >= 2` placeholders leaves a
      list with `k - 1`. */
  lemma PlaceholderListPrefix(s: string, k: nat)
    requires IsPlaceholderList(s, k)
    requires k >= 2
    ensures IsPlaceholderList(s[..|s| - 3], k - 1)
    ensures s == s[..|s| - 3] + ", ?"
  {
    var n := |s|;
    assert n - 3 == 3 * (k - 2) + 1;
    assert (n - 3) % 3 == 1;
    assert (n - 2) % 3 == 2;
    assert (n - 1) % 3 == 0;
    assert s[n - 3..] == ", ?";
  }

  /** Removing the last character takes off one question mark or none. */
  lemma CountLast(s: string, c: char)
    requires |s| > 0
    ensures Count(s, c) == Count(s[..|s| - 1], c) + (if s[|s| - 1] == c then 1 else 0)
  {
  }

  /** A placeholder list with `k` placeholders is `"?"` followed by `k - 1`
      copies of `", ?"`, and holds exactly `k` question marks. */
  lemma {:induction false} PlaceholderListShape(s: string, k: nat)
    requires IsPlaceholderList(s, k)
    ensures s == "?" + Repeat(", ?", k - 1)
    ensures Count(s, '?') == k
    decreases k
  {
    if k == 1 {
      assert s == "?";
      assert s[..0] == "";
    } else {
      var p := s[..|s| - 3];
      PlaceholderListPrefix(s, k);
      PlaceholderListShape(p, k - 1);
      var s1 := s[..|s| - 1];
      var s2 := s1[..|s1| - 1];
      assert s2[..|s2| - 1] == p;
      CountLast(s, '?');
      CountLast(s1, '?');
      CountLast(s2, '?');
    }
  }

  /** The lists the unit tests expect for one to four placeholders. */
  lemma PlaceholderExamples()
    ensures forall s :: IsPlaceholderList(s, 1) ==> s == "?"
    ensures forall s :: IsPlaceholderList(s, 2) ==> s == "?, ?"
    ensures forall s :: IsPlaceholderList(s, 3) ==> s == "?, ?, ?"
    ensures forall s :: IsPlaceholderList(s, 4) ==> s == "?, ?, ?, ?"
  {
  }
}
