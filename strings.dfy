/**
 * The string operations the library store validates titles with:
 * `String.prototype.trim` and `String.prototype.toLowerCase`, restricted
 * to the whitespace and letters listed below.
 */
module Strings {

  /** The line terminators and white space that `trim` removes (Unicode space separators other than U+0020 and U+00A0 are not modelled). */
  predicate IsWhitespace(c: char) {
    || c == ' ' || c == '\t' || c == '\n' || c == '\r'
    || c == '\U{000B}' || c == '\U{000C}' || c == '\U{00A0}'
    || c == '\U{FEFF}' || c == '\U{2028}' || c == '\U{2029}'
  }

  /** A string the form shows as empty once trimmed: the falsy `s.trim()` of the source. */
  predicate IsBlank(s: string) {
    forall k :: 0 <= k < |s| ==> IsWhitespace(s[k])
  }

  /** A string with no whitespace at either end. */
  predicate IsTrimmed(s: string) {
    s == [] || (!IsWhitespace(s[0]) && !IsWhitespace(s[|s| - 1]))
  }

  /** Drops the leading whitespace: the result is the longest suffix that does not start with whitespace. */
  function TrimStart(s: string): (r: string)
    ensures |r| <= |s| && r == s[|s| - |r|..]
    ensures r == [] || !IsWhitespace(r[0])
    ensures forall k :: 0 <= k < |s| - |r| ==> IsWhitespace(s[k])
  {
    if s != [] && IsWhitespace(s[0]) then TrimStart(s[1..]) else s
  }

  /** Drops the trailing whitespace: the result is the longest prefix that does not end with whitespace. */
  function TrimEnd(s: string): (r: string)
    ensures |r| <= |s| && r == s[..|r|]
    ensures r == [] || !IsWhitespace(r[|r| - 1])
    ensures forall k :: |r| <= k < |s| ==> IsWhitespace(s[k])
  {
    if s != [] && IsWhitespace(s[|s| - 1]) then TrimEnd(s[..|s| - 1]) else s
  }

  /** `s.trim()`: the slice of `s` left after removing whitespace at both ends. */
  function Trim(s: string): (r: string)
    ensures IsTrimmed(r)
    ensures r == [] <==> IsBlank(s)
    ensures |r| <= |s|
    ensures exists i, j :: 0 <= i <= j <= |s| && r == s[i..j] && IsBlank(s[..i]) && IsBlank(s[j..])
  {
    var u := TrimStart(s);
    var r := TrimEnd(u);
    TrimPieces(s, u, r);
    assert r == s[|s| - |u|..|s| - |u| + |r|];
    r
  }

  /** The two halves of `Trim`: what `TrimStart` and then `TrimEnd` cut off is blank. */
  lemma TrimPieces(s: string, u: string, r: string)
    requires |u| <= |s| && u == s[|s| - |u|..] && (u == [] || !IsWhitespace(u[0]))
    requires forall k :: 0 <= k < |s| - |u| ==> IsWhitespace(s[k])
    requires |r| <= |u| && r == u[..|r|]
    requires forall k :: |r| <= k < |u| ==> IsWhitespace(u[k])
    ensures r == s[|s| - |u|..|s| - |u| + |r|]
    ensures IsBlank(s[..|s| - |u|]) && IsBlank(s[|s| - |u| + |r|..])
    ensures r == [] ==> u == [] && s[..|s| - |u|] == s
  {
    var i := |s| - |u|;
    var j := i + |r|;
    SliceOfSlice(s, i, |r|);
    forall k | j <= k < |s|
      ensures IsWhitespace(s[k])
    {
      assert s[k] == u[k - i];
    }
    BlankPrefix(s, i);
    BlankSuffix(s, j);
  }

  lemma SliceOfSlice(s: string, i: nat, n: nat)
    requires i + n <= |s|
    ensures s[i..][..n] == s[i..i + n]
  {
  }

  lemma BlankPrefix(s: string, i: nat)
    requires i <= |s|
    requires forall k :: 0 <= k < i ==> IsWhitespace(s[k])
    ensures IsBlank(s[..i])
  {
    assert forall k :: 0 <= k < i ==> s[..i][k] == s[k];
  }

  lemma BlankSuffix(s: string, j: nat)
    requires j <= |s|
    requires forall k :: j <= k < |s| ==> IsWhitespace(s[k])
    ensures IsBlank(s[j..])
  {
    assert forall k :: 0 <= k < |s| - j ==> s[j..][k] == s[j + k];
  }

  /** Trimming a string that has no whitespace at its ends changes nothing. */
  lemma TrimTrimmed(s: string)
    requires IsTrimmed(s)
    ensures Trim(s) == s
  {
  }

  /** `trim` is idempotent. */
  lemma TrimIdempotent(s: string)
    ensures Trim(Trim(s)) == Trim(s)
  {
    TrimTrimmed(Trim(s));
  }

  /** `toLowerCase` on one character: ASCII capitals become small letters, everything else is kept. */
  function LowerChar(c: char): (r: char)
    ensures !('A' <= r <= 'Z')
    ensures IsWhitespace(r) <==> IsWhitespace(c)
    ensures !('A' <= c <= 'Z') ==> r == c
    ensures 'A' <= c <= 'Z' ==> 'a' <= r <= 'z' && r as int - 'a' as int == c as int - 'A' as int
  {
    if 'A' <= c <= 'Z' then (c as int + 32) as char else c
  }

  /** `s.toLowerCase()`, character by character. */
  function ToLowerCase(s: string): (r: string)
    ensures |r| == |s|
    ensures forall k :: 0 <= k < |s| ==> r[k] == LowerChar(s[k])
  {
    seq(|s|, k requires 0 <= k < |s| => LowerChar(s[k]))
  }

  /** `a.toLowerCase() === b.toLowerCase()`, the duplicate-title test. */
  predicate EqualsIgnoreCase(a: string, b: string) {
    ToLowerCase(a) == ToLowerCase(b)
  }

  /** Strings equal up to case are both blank or both not. */
  lemma EqualsIgnoreCaseBlank(a: string, b: string)
    requires EqualsIgnoreCase(a, b)
    ensures IsBlank(a) <==> IsBlank(b)
  {
    assert |a| == |ToLowerCase(a)| == |ToLowerCase(b)| == |b|;
    forall k | 0 <= k < |a| ensures IsWhitespace(a[k]) <==> IsWhitespace(b[k]) {
      assert ToLowerCase(a)[k] == ToLowerCase(b)[k];
    }
  }
}
