/**
 * The two JavaScript string operations the title filter relies on:
 * `String.prototype.toUpperCase` (restricted to ASCII letters) and
 * `String.prototype.indexOf` (first occurrence, or -1). Strings are sequences
 * of Unicode characters, so positions count characters, not the UTF-16 code
 * units JavaScript counts; whether the result is above -1 is the same either way.
 */
module JsString {

  /** True for the ASCII letters a to z. */
  predicate IsLowerAscii(c: char)
  {
    'a' <= c <= 'z'
  }

  /** The upper-case form of one character: a to z become A to Z, every other character is kept. */
  function UpperChar(c: char): (r: char)
    ensures !IsLowerAscii(r)
    ensures IsLowerAscii(c) ==> r as int == c as int - 32
    ensures !IsLowerAscii(c) ==> r == c
  {
    if IsLowerAscii(c) then (c as int - 32) as char else c
  }

  /** `s.toUpperCase()`, for text whose letters are ASCII. */
  function ToUpperCase(s: string): (r: string)
    ensures |r| == |s|
    ensures forall i :: 0 <= i < |s| ==> r[i] == UpperChar(s[i])
  {
    if s == [] then [] else [UpperChar(s[0])] + ToUpperCase(s[1..])
  }

  /** Upper-casing twice is upper-casing once. */
  lemma ToUpperCaseIdempotent(s: string)
    ensures ToUpperCase(ToUpperCase(s)) == ToUpperCase(s)
  {
    var u := ToUpperCase(s);
    var uu := ToUpperCase(u);
    forall i | 0 <= i < |s|
      ensures uu[i] == u[i]
    {
      assert !IsLowerAscii(u[i]);
    }
  }

  /** `sub` occurs in `s` starting at index `i`. */
  predicate OccursAt(s: string, sub: string, i: int)
  {
    0 <= i && i + |sub| <= |s| && s[i..i + |sub|] == sub
  }

  /** `sub` is a substring of `s`. */
  ghost predicate Includes(s: string, sub: string)
  {
    exists i :: OccursAt(s, sub, i)
  }

  /** The first occurrence of `sub` in `s` at or after `from`, or -1 when there is none: the search behind `IndexOf`. */
  function IndexOfFrom(s: string, sub: string, from: nat): (r: int)
    decreases |s| - from
    ensures r == -1 || (from <= r && OccursAt(s, sub, r))
    ensures r == -1 <==> forall i :: from <= i ==> !OccursAt(s, sub, i)
    ensures forall i :: from <= i < r ==> !OccursAt(s, sub, i)
  {
    if from + |sub| > |s| then -1
    else if s[from..from + |sub|] == sub then from
    else IndexOfFrom(s, sub, from + 1)
  }

  /**
   * `s.indexOf(sub)`: the first character position at which `sub` occurs in `s`,
   * or -1 when it does not occur. The position counts Unicode characters.
   */
  function IndexOf(s: string, sub: string): (r: int)
    ensures r > -1 <==> Includes(s, sub)
    ensures !Includes(s, sub) ==> r == -1
    ensures r > -1 ==> OccursAt(s, sub, r) && forall i :: 0 <= i < r ==> !OccursAt(s, sub, i)
  {
    IndexOfFrom(s, sub, 0)
  }
}
