/**
 * Lower-casing as `str.lower()` does it, restricted to ASCII: the letters
 * 'A'..'Z' map to 'a'..'z' and every other character is left alone.
 */
module Ascii {

  predicate IsUpper(c: char) {
    'A' <= c <= 'Z'
  }

  function LowerChar(c: char): (r: char)
    ensures !IsUpper(r)
    ensures IsUpper(c) ==> r as int == c as int + 32
    ensures !IsUpper(c) ==> r == c
  {
    if IsUpper(c) then (c as int + 32) as char else c
  }

  function UpperChar(c: char): (r: char)
    ensures 'a' <= c <= 'z' ==> r as int == c as int - 32 && IsUpper(r)
    ensures !('a' <= c <= 'z') ==> r == c
  {
    if 'a' <= c <= 'z' then (c as int - 32) as char else c
  }

  /** `s.lower()`, one character at a time. */
  function Lower(s: string): (r: string)
    ensures |r| == |s|
    ensures forall i :: 0 <= i < |s| ==> r[i] == LowerChar(s[i])
  {
    if s == [] then [] else [LowerChar(s[0])] + Lower(s[1..])
  }

  /** `s.upper()` over ASCII; used to state what "ignoring case" covers. */
  function Upper(s: string): (r: string)
    ensures |r| == |s|
    ensures forall i :: 0 <= i < |s| ==> r[i] == UpperChar(s[i])
  {
    if s == [] then [] else [UpperChar(s[0])] + Upper(s[1..])
  }

  /** Two characters lower-case alike exactly when they are equal or differ only by ASCII case. */
  lemma LowerCharSame(c: char, d: char)
    ensures LowerChar(c) == LowerChar(d) <==> c == d || UpperChar(c) == d || UpperChar(d) == c
  {
  }

  /**
   * The comparison `hometown.lower() == city.lower()` of concerts.py:164: the two
   * strings have the same length and, position by position, the characters are
   * equal or differ only by ASCII case.
   */
  function SameIgnoringCase(a: string, b: string): (r: bool)
    ensures r <==>
      |a| == |b| && forall i :: 0 <= i < |a| ==> a[i] == b[i] || UpperChar(a[i]) == b[i] || UpperChar(b[i]) == a[i]
  {
    Lower(a) == Lower(b)
  }

  /** A string and its upper-cased form compare equal ignoring case ("LIVERPOOL" vs "liverpool"). */
  lemma SameIgnoringCaseUpper(s: string)
    ensures SameIgnoringCase(Upper(s), s)
  {
    forall i | 0 <= i < |s|
      ensures Lower(Upper(s))[i] == Lower(s)[i]
    {
      LowerCharSame(Upper(s)[i], s[i]);
    }
  }

  /** Comparing ignoring case is an equivalence: reflexive, symmetric and transitive. */
  lemma SameIgnoringCaseEquivalence(a: string, b: string, c: string)
    ensures SameIgnoringCase(a, a)
    ensures SameIgnoringCase(a, b) ==> SameIgnoringCase(b, a)
    ensures SameIgnoringCase(a, b) && SameIgnoringCase(b, c) ==> SameIgnoringCase(a, c)
  {
  }
}
