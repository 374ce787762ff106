/** The string operations of ECMAScript that the analysis relies on:
    `trim`, `includes` and `toLowerCase`. */
module Strings {

  /** The ECMAScript WhiteSpace and LineTerminator code points, which are
      exactly what String.prototype.trim strips from both ends. */
  predicate IsWhitespace(c: char) {
    || c == '\t' || c == '\U{000B}' || c == '\U{000C}' || c == ' '
    || c == '\U{00A0}' || c == '\U{FEFF}' || c == '\U{1680}'
    || ('\U{2000}' <= c <= '\U{200A}')
    || c == '\U{202F}' || c == '\U{205F}' || c == '\U{3000}'
    || c == '\n' || c == '\r' || c == '\U{2028}' || c == '\U{2029}'
  }

  predicate AllWhitespace(s: string) {
    forall i :: 0 <= i < |s| ==> IsWhitespace(s[i])
  }

  /** Drops the leading whitespace: what is left is a suffix of `s` that
      does not start with whitespace, and everything dropped was whitespace. */
  function TrimStart(s: string): (r: string)
    ensures |r| <= |s| && r == s[|s| - |r|..]
    ensures forall i :: 0 <= i < |s| - |r| ==> IsWhitespace(s[i])
    ensures |r| > 0 ==> !IsWhitespace(r[0])
  {
    if |s| > 0 && IsWhitespace(s[0]) then TrimStart(s[1..]) else s
  }

  /** Drops the trailing whitespace: what is left is a prefix of `s` that
      does not end with whitespace, and everything dropped was whitespace. */
  function TrimEnd(s: string): (r: string)
    ensures |r| <= |s| && r == s[..|r|]
    ensures forall i :: |r| <= i < |s| ==> IsWhitespace(s[i])
    ensures |r| > 0 ==> !IsWhitespace(r[|r| - 1])
  {
    if |s| > 0 && IsWhitespace(s[|s| - 1]) then TrimEnd(s[..|s| - 1]) else s
  }

  /** String.prototype.trim. */
  function Trim(s: string): string {
    TrimEnd(TrimStart(s))
  }

  /** Trimming leaves nothing exactly when the string is all whitespace
      (the empty string included). */
  lemma TrimEmptyIffAllWhitespace(s: string)
    ensures |Trim(s)| == 0 <==> AllWhitespace(s)
  {
  }

  ghost predicate OccursAt(s: string, pat: string, i: int) {
    0 <= i <= |s| - |pat| && s[i..i + |pat|] == pat
  }

  /** String.prototype.includes. */
  function Includes(s: string, pat: string): bool
    decreases |s|
  {
    if |s| < |pat| then false
    else if s[..|pat|] == pat then true
    else Includes(s[1..], pat)
  }

  /** `includes` holds exactly when `pat` occurs at some position of `s`. */
  lemma {:induction false} IncludesIffOccurs(s: string, pat: string)
    ensures Includes(s, pat) <==> exists i :: OccursAt(s, pat, i)
    decreases |s|
  {
    if |s| < |pat| {
    } else if s[..|pat|] == pat {
      assert OccursAt(s, pat, 0);
    } else {
      IncludesIffOccurs(s[1..], pat);
      assert forall i :: OccursAt(s[1..], pat, i) ==> OccursAt(s, pat, i + 1);
      assert forall i :: OccursAt(s, pat, i) ==> i == 0 || OccursAt(s[1..], pat, i - 1);
    }
  }

  /** toLowerCase on one character, for the ASCII letters. */
  function LowerChar(c: char): char {
    if 'A' <= c <= 'Z' then (c as int + 32) as char else c
  }

  /** String.prototype.toLowerCase, restricted to ASCII case mapping. */
  function ToLower(s: string): (r: string)
    ensures |r| == |s|
  {
    seq(|s|, i requires 0 <= i < |s| => LowerChar(s[i]))
  }
}
