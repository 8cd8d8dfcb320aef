/**
 * String helpers used by both services: Java's String.trim(), Python's str.strip(),
 * ASCII case folding (Java equalsIgnoreCase, Python lower()) and the size pattern
 * ^(small|medium|large)$ that both services apply.
 */
module Text {

  /** Which notion of white space a trim uses. */
  datatype Spaces =
    | JavaSpaces    // Java's trim(): every character whose code point is at most U+0020
    | PythonSpaces  // Python's str.strip(): the characters str.isspace() accepts

  /** The characters Python's str.isspace() accepts, i.e. those str.strip() removes. */
  const PySpaces: set<char> := {
    '\t', '\n', '\U{B}', '\U{C}', '\r', '\U{1C}', '\U{1D}', '\U{1E}', '\U{1F}', ' ',
    '\U{85}', '\U{A0}', '\U{1680}',
    '\U{2000}', '\U{2001}', '\U{2002}', '\U{2003}', '\U{2004}', '\U{2005}',
    '\U{2006}', '\U{2007}', '\U{2008}', '\U{2009}', '\U{200A}',
    '\U{2028}', '\U{2029}', '\U{202F}', '\U{205F}', '\U{3000}'
  }

  predicate IsSpace(sp: Spaces, c: char) {
    match sp
    case JavaSpaces => c <= ' '
    case PythonSpaces => c in PySpaces
  }

  /** Every character of s is white space in the sense of sp. */
  predicate IsBlank(s: string, sp: Spaces) {
    forall i :: 0 <= i < |s| ==> IsSpace(sp, s[i])
  }

  /** s is not empty and neither starts nor ends with white space. */
  predicate IsTrimmedNonEmpty(s: string, sp: Spaces) {
    s != [] && !IsSpace(sp, s[0]) && !IsSpace(sp, s[|s| - 1])
  }

  /** The first index at or after `from` that does not hold white space, or |s|. */
  function SkipSpaces(s: string, sp: Spaces, from: nat): (i: nat)
    requires from <= |s|
    ensures from <= i <= |s|
    ensures forall k :: from <= k < i ==> IsSpace(sp, s[k])
    ensures i < |s| ==> !IsSpace(sp, s[i])
    decreases |s| - from
  {
    if from < |s| && IsSpace(sp, s[from]) then SkipSpaces(s, sp, from + 1) else from
  }

  /** Counting down from `hi`, the end of the last character at or after `lo` that is
      not white space, or `lo`. */
  function SkipSpacesBack(s: string, sp: Spaces, lo: nat, hi: nat): (j: nat)
    requires lo <= hi <= |s|
    ensures lo <= j <= hi
    ensures forall k :: j <= k < hi ==> IsSpace(sp, s[k])
    ensures j > lo ==> !IsSpace(sp, s[j - 1])
    decreases hi
  {
    if hi > lo && IsSpace(sp, s[hi - 1]) then SkipSpacesBack(s, sp, lo, hi - 1) else hi
  }

  /** s without leading and trailing white space (TrimIsInfix says which infix). */
  function Trim(s: string, sp: Spaces): (r: string)
    ensures |r| <= |s|
    ensures r != [] ==> !IsSpace(sp, r[0]) && !IsSpace(sp, r[|r| - 1])
  {
    var i := SkipSpaces(s, sp, 0);
    s[i..SkipSpacesBack(s, sp, i, |s|)]
  }

  /** Trim cuts only white space, from both ends, and keeps an infix of s. */
  lemma TrimIsInfix(s: string, sp: Spaces)
    ensures exists i, j ::
      && 0 <= i <= j <= |s| && Trim(s, sp) == s[i..j]
      && (forall k :: 0 <= k < i ==> IsSpace(sp, s[k]))
      && (forall k :: j <= k < |s| ==> IsSpace(sp, s[k]))
  {
    var i := SkipSpaces(s, sp, 0);
    var j := SkipSpacesBack(s, sp, i, |s|);
    assert Trim(s, sp) == s[i..j];
  }

  function JavaTrim(s: string): string {
    Trim(s, JavaSpaces)
  }

  function PyStrip(s: string): string {
    Trim(s, PythonSpaces)
  }

  /** Trimming yields the empty string exactly when the input is blank. */
  lemma TrimEmptyIffBlank(s: string, sp: Spaces)
    ensures Trim(s, sp) == [] <==> IsBlank(s, sp)
  {
    var r := Trim(s, sp);
    TrimIsInfix(s, sp);
    var i, j :| 0 <= i <= j <= |s| && r == s[i..j]
      && (forall k :: 0 <= k < i ==> IsSpace(sp, s[k]))
      && (forall k :: j <= k < |s| ==> IsSpace(sp, s[k]));
    if r != [] {
      assert r[0] == s[i] && !IsSpace(sp, r[0]);
    }
  }

  /** Trimming a string that is not blank leaves a non-empty string with no white
      space at either end. */
  lemma TrimOfNonBlank(s: string, sp: Spaces)
    requires !IsBlank(s, sp)
    ensures IsTrimmedNonEmpty(Trim(s, sp), sp)
  {
    TrimEmptyIffBlank(s, sp);
  }

  /** ASCII-only lower-casing of one character. */
  function AsciiLowerChar(c: char): char {
    if 'A' <= c <= 'Z' then (c as int + 32) as char else c
  }

  /** s with every ASCII capital replaced by its small letter. */
  function AsciiLower(s: string): (r: string)
    ensures |r| == |s|
    ensures forall i :: 0 <= i < |s| ==> r[i] == AsciiLowerChar(s[i])
  {
    seq(|s|, i requires 0 <= i < |s| => AsciiLowerChar(s[i]))
  }

  /** Java's a.equalsIgnoreCase(b) on non-null strings, restricted to ASCII case. */
  predicate EqualsIgnoreCase(a: string, b: string) {
    AsciiLower(a) == AsciiLower(b)
  }

  /** The sizes both services accept: exactly small, medium or large. */
  predicate IsValidSize(s: string) {
    s == "small" || s == "medium" || s == "large"
  }
}
