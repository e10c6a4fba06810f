/** Character classes and string helpers shared by the definition layer of
    mysql-warp. The `validator.matches` regular expressions `^[a-zA-Z0-9_]+$`
    and `^[a-zA-Z0-9$_]+$` are the predicates `IsName` and `IsColumnName`. */
module Text {

  predicate IsAsciiLetterOrDigit(c: char) {
    'a' <= c <= 'z' || 'A' <= c <= 'Z' || '0' <= c <= '9'
  }

  /** One character of the class `[a-zA-Z0-9_]`. */
  predicate IsNameChar(c: char) {
    IsAsciiLetterOrDigit(c) || c == '_'
  }

  /** The whole string matches `^[a-zA-Z0-9_]+$`. */
  predicate IsName(s: string) {
    |s| > 0 && forall i :: 0 <= i < |s| ==> IsNameChar(s[i])
  }

  /** One character of the class `[a-zA-Z0-9$_]`. */
  predicate IsColumnChar(c: char) {
    IsNameChar(c) || c == '$'
  }

  /** The whole string matches `^[a-zA-Z0-9$_]+$`. */
  predicate IsColumnName(s: string) {
    |s| > 0 && forall i :: 0 <= i < |s| ==> IsColumnChar(s[i])
  }

  /** `String.prototype.toLowerCase` on one character, for the ASCII range. */
  function LowerChar(c: char): char {
    if 'A' <= c <= 'Z' then (c as int + 32) as char else c
  }

  predicate IsUpperChar(c: char) {
    'A' <= c <= 'Z'
  }

  /** No ASCII upper-case letter occurs in `s`. */
  predicate IsLowerCase(s: string) {
    forall i :: 0 <= i < |s| ==> !IsUpperChar(s[i])
  }

  /** `s.toLowerCase()` for ASCII letters; every other character is kept. */
  function ToLower(s: string): (r: string)
    ensures |r| == |s|
    ensures IsLowerCase(r)
    ensures forall i :: 0 <= i < |s| && !IsUpperChar(s[i]) ==> r[i] == s[i]
    ensures forall i :: 0 <= i < |s| && IsUpperChar(s[i]) ==> r[i] as int == s[i] as int + 32
  {
    seq(|s|, i requires 0 <= i < |s| => LowerChar(s[i]))
  }

  /** Lower-casing changes nothing in a string that is already lower case. */
  lemma ToLowerOfLowerCase(s: string)
    requires IsLowerCase(s)
    ensures ToLower(s) == s
  {
  }

  /** `k` copies of the character `'0'`. */
  function Zeros(k: nat): (r: string)
    ensures |r| == k
    ensures forall i :: 0 <= i < k ==> r[i] == '0'
  {
    seq(k, _ => '0')
  }

  /** `'`' + name + '`'`, a MySQL quoted identifier. */
  function Quote(name: string): string {
    "`" + name + "`"
  }

  /** `parts.join(sep)`. */
  function Join(parts: seq<string>, sep: string): string
    decreases |parts|
  {
    if |parts| == 0 then ""
    else if |parts| == 1 then parts[0]
    else parts[0] + sep + Join(parts[1..], sep)
  }
}
