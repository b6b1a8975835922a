/** ASCII case folding as Rust's `str` does it: `eq_ignore_ascii_case`
    folds only the letters A-Z / a-z and compares everything else exactly. */
module AsciiCase {

  /** Rust's `to_ascii_lowercase` on one character. */
  function ToAsciiLower(c: char): char
  {
    if 'A' <= c <= 'Z' then (c as int + 32) as char else c
  }

  /** Rust's `to_ascii_uppercase` on one character. */
  function ToAsciiUpper(c: char): char
  {
    if 'a' <= c <= 'z' then (c as int - 32) as char else c
  }

  /** Rust's `eq_ignore_ascii_case`: same length, and equal position by
      position once ASCII letters are lower-cased. */
  predicate EqIgnoreAsciiCase(a: string, b: string)
  {
    |a| == |b| && forall i :: 0 <= i < |a| ==> ToAsciiLower(a[i]) == ToAsciiLower(b[i])
  }

  /** Lower-cases every ASCII letter of a string. */
  function LowerAll(s: string): (r: string)
    ensures |r| == |s|
    ensures forall i :: 0 <= i < |s| ==> r[i] == ToAsciiLower(s[i])
  {
    if s == [] then [] else [ToAsciiLower(s[0])] + LowerAll(s[1..])
  }

  /** True when every character of `s` is ASCII. */
  predicate IsAscii(s: string)
  {
    forall i :: 0 <= i < |s| ==> s[i] < 128 as char
  }

  /** Rust's `to_uppercase` on an ASCII string, where it upper-cases the
      letters a-z and leaves every other character alone. */
  function Uppercase(s: string): (r: string)
    requires IsAscii(s)
    ensures IsAscii(r)
    ensures EqIgnoreAsciiCase(r, s)
    ensures forall i :: 0 <= i < |r| ==> !('a' <= r[i] <= 'z')
  {
    if s == [] then [] else [ToAsciiUpper(s[0])] + Uppercase(s[1..])
  }

  /** Case-insensitive equality is equality of the lower-cased strings. */
  lemma EqIgnoreAsciiCaseIsLowerEquality(a: string, b: string)
    ensures EqIgnoreAsciiCase(a, b) <==> LowerAll(a) == LowerAll(b)
  {
    if LowerAll(a) == LowerAll(b) {
      forall i | 0 <= i < |a|
        ensures ToAsciiLower(a[i]) == ToAsciiLower(b[i])
      {
        assert LowerAll(a)[i] == LowerAll(b)[i];
      }
    }
  }

  /** Case-insensitive equality is an equivalence relation. */
  lemma EqIgnoreAsciiCaseEquivalence(a: string, b: string, c: string)
    ensures EqIgnoreAsciiCase(a, a)
    ensures EqIgnoreAsciiCase(a, b) ==> EqIgnoreAsciiCase(b, a)
    ensures EqIgnoreAsciiCase(a, b) && EqIgnoreAsciiCase(b, c) ==> EqIgnoreAsciiCase(a, c)
  {
  }

  /** Upper-casing one side does not change whether two strings are equal
      up to ASCII case. */
  lemma UppercaseKeepsMatches(pair: string, s: string)
    requires IsAscii(s)
    ensures EqIgnoreAsciiCase(pair, Uppercase(s)) <==> EqIgnoreAsciiCase(pair, s)
  {
    EqIgnoreAsciiCaseEquivalence(pair, Uppercase(s), s);
    EqIgnoreAsciiCaseEquivalence(pair, s, Uppercase(s));
  }
}
