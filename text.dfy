/** Character and string primitives of the .NET base library that the tool
    relies on, restated over `seq<char>`. */
module Text {

  /** `char.IsWhiteSpace`: the Unicode space, line and paragraph separators,
      U+0009..U+000D and U+0085. */
  predicate IsWhiteSpace(c: char) {
    var n := c as int;
    (0x09 <= n <= 0x0D) || n == 0x20 || n == 0x85 || n == 0xA0 || n == 0x1680
    || (0x2000 <= n <= 0x200A) || n == 0x2028 || n == 0x2029 || n == 0x202F
    || n == 0x205F || n == 0x3000
  }

  /** `string.IsNullOrWhiteSpace` on a non-null string: empty or only white space. */
  predicate IsNullOrWhiteSpace(s: string) {
    forall i :: 0 <= i < |s| ==> IsWhiteSpace(s[i])
  }

  predicate IsAsciiLower(c: char) { 'a' <= c <= 'z' }

  /** `char.IsUpper`, restricted to ASCII. */
  predicate IsUpper(c: char) { 'A' <= c <= 'Z' }

  /** `char.ToUpper`, restricted to ASCII: other characters are unchanged. */
  function ToUpper(c: char): (u: char)
    ensures IsAsciiLower(c) ==> IsUpper(u) && u as int == c as int - 32
    ensures !IsAsciiLower(c) ==> u == c
  {
    if IsAsciiLower(c) then (c as int - 32) as char else c
  }

  /** The first character class of the pattern `[A-Za-z_][A-Za-z0-9_]*`. */
  predicate IsIdentStart(c: char) {
    ('A' <= c <= 'Z') || ('a' <= c <= 'z') || c == '_'
  }

  /** The second character class of the pattern `[A-Za-z_][A-Za-z0-9_]*`. */
  predicate IsIdentPart(c: char) {
    IsIdentStart(c) || ('0' <= c <= '9')
  }

  /** The whole of `s` is a bare identifier: `^[A-Za-z_][A-Za-z0-9_]*$`. */
  predicate IsIdentifier(s: string) {
    |s| > 0 && IsIdentStart(s[0]) && forall i :: 1 <= i < |s| ==> IsIdentPart(s[i])
  }

  /** `Regex.IsMatch(s)` for the unanchored pattern `[A-Za-z_][A-Za-z0-9_]*`:
      some substring of `s` is a bare identifier. */
  ghost predicate PatternOccursIn(s: string) {
    exists i, j :: 0 <= i < j <= |s| && IsIdentifier(s[i..j])
  }

  /** The executable form of the unanchored match: one identifier-start
      character anywhere is enough. */
  predicate ContainsIdentStart(s: string) {
    exists i :: 0 <= i < |s| && IsIdentStart(s[i])
  }

  /** The unanchored regular expression matches exactly when the string holds
      one letter or underscore, so it accepts far more than bare identifiers. */
  lemma UnanchoredMatch(s: string)
    ensures PatternOccursIn(s) <==> ContainsIdentStart(s)
    ensures IsIdentifier(s) ==> ContainsIdentStart(s)
  {
    if ContainsIdentStart(s) {
      var i :| 0 <= i < |s| && IsIdentStart(s[i]);
      assert IsIdentifier(s[i..i + 1]);
    }
    if PatternOccursIn(s) {
      var i, j :| 0 <= i < j <= |s| && IsIdentifier(s[i..j]);
      assert s[i..j][0] == s[i];
    }
    if IsIdentifier(s) {
      assert IsIdentStart(s[0]);
    }
  }

  /** `s.IndexOf(c)`: the first position of `c`, or -1. */
  function IndexOf(s: string, c: char): (i: int)
    ensures -1 <= i < |s|
    ensures i == -1 <==> c !in s
    ensures 0 <= i ==> s[i] == c && c !in s[..i]
  {
    if |s| == 0 then -1
    else if s[0] == c then 0
    else
      var k := IndexOf(s[1..], c);
      if k == -1 then -1
      else
        assert s[..k + 1] == [s[0]] + s[1..][..k];
        k + 1
  }

  /** `s.StartsWith(p)`, compared ordinally. */
  predicate StartsWith(s: string, p: string) {
    |p| <= |s| && s[..|p|] == p
  }

  /** Number of leading white-space characters of `s`. */
  function LeadingSpace(s: string): (n: nat)
    ensures n <= |s|
    ensures forall i :: 0 <= i < n ==> IsWhiteSpace(s[i])
    ensures n < |s| ==> !IsWhiteSpace(s[n])
  {
    if |s| == 0 || !IsWhiteSpace(s[0]) then 0 else 1 + LeadingSpace(s[1..])
  }

  /** Number of trailing white-space characters of `s`. */
  function TrailingSpace(s: string): (n: nat)
    ensures n <= |s|
    ensures forall i :: |s| - n <= i < |s| ==> IsWhiteSpace(s[i])
    ensures n < |s| ==> !IsWhiteSpace(s[|s| - n - 1])
  {
    if |s| == 0 || !IsWhiteSpace(s[|s| - 1]) then 0 else 1 + TrailingSpace(s[..|s| - 1])
  }

  /** `s.Trim()`: `s` without its leading and trailing white space. */
  function Trim(s: string): (t: string)
    ensures LeadingSpace(s) + |t| <= |s|
    ensures |t| > 0 ==> !IsWhiteSpace(t[0]) && !IsWhiteSpace(t[|t| - 1])
    ensures forall k :: 0 <= k < |t| ==> t[k] == s[LeadingSpace(s) + k]
    ensures forall k :: LeadingSpace(s) + |t| <= k < |s| ==> IsWhiteSpace(s[k])
    ensures |t| == 0 <==> IsNullOrWhiteSpace(s)
  {
    var a := LeadingSpace(s);
    var rest := s[a..];
    var t := rest[..|rest| - TrailingSpace(rest)];
    assert a == |s| ==> IsNullOrWhiteSpace(s);
    t
  }

  /** A string with no white space at either end is its own trim. */
  lemma TrimUnpadded(s: string)
    requires |s| > 0 ==> !IsWhiteSpace(s[0]) && !IsWhiteSpace(s[|s| - 1])
    ensures Trim(s) == s
  {
    assert s[0..] == s;
  }
}
