/** The two Python string operations the validators rely on:
    `str.strip()` (through the blank test `not s.strip()`) and
    `str.endswith(suffix)`. */
module PythonStr {

  /** `c.isspace()` in Python: the characters of Unicode bidirectional class
      WS, B or S, or of general category Zs. */
  predicate IsWhitespace(c: char) {
    c == ' ' || ('\t' <= c <= '\r') || ('\U{1C}' <= c <= '\U{1F}')
    || c == '\U{85}' || c == '\U{A0}' || c == '\U{1680}'
    || ('\U{2000}' <= c <= '\U{200A}') || c == '\U{2028}' || c == '\U{2029}'
    || c == '\U{202F}' || c == '\U{205F}' || c == '\U{3000}'
  }

  /** Every character of `s` is whitespace (the empty string included). */
  predicate IsBlank(s: string) {
    forall i :: 0 <= i < |s| ==> IsWhitespace(s[i])
  }

  /** `s.lstrip()`: drop leading whitespace. */
  function StripLeading(s: string): string
    decreases |s|
  {
    if |s| > 0 && IsWhitespace(s[0]) then StripLeading(s[1..]) else s
  }

  /** `s.rstrip()`: drop trailing whitespace. */
  function StripTrailing(s: string): string
    decreases |s|
  {
    if |s| > 0 && IsWhitespace(s[|s| - 1]) then StripTrailing(s[..|s| - 1]) else s
  }

  /** `s.strip()`. */
  function Strip(s: string): string {
    StripTrailing(StripLeading(s))
  }

  /** lstrip leaves a suffix of `s`, after a blank prefix, that does not
      start with whitespace. */
  lemma {:induction false} StripLeadingSuffix(s: string)
    ensures |StripLeading(s)| <= |s| && StripLeading(s) == s[|s| - |StripLeading(s)|..]
    ensures IsBlank(s[..|s| - |StripLeading(s)|])
    ensures StripLeading(s) == [] || !IsWhitespace(StripLeading(s)[0])
    decreases |s|
  {
    if |s| > 0 && IsWhitespace(s[0]) {
      StripLeadingSuffix(s[1..]);
      var t := StripLeading(s[1..]);
      assert s[1..][..|s| - 1 - |t|] == s[1..|s| - |t|];
    }
  }

  /** rstrip leaves a prefix of `s`, before a blank suffix, that does not
      end with whitespace. */
  lemma {:induction false} StripTrailingPrefix(s: string)
    ensures |StripTrailing(s)| <= |s| && StripTrailing(s) == s[..|StripTrailing(s)|]
    ensures IsBlank(s[|StripTrailing(s)|..])
    ensures StripTrailing(s) == [] || !IsWhitespace(StripTrailing(s)[|StripTrailing(s)| - 1])
    decreases |s|
  {
    if |s| > 0 && IsWhitespace(s[|s| - 1]) {
      StripTrailingPrefix(s[..|s| - 1]);
      var t := StripTrailing(s[..|s| - 1]);
      assert s[..|s| - 1][|t|..] + [s[|s| - 1]] == s[|t|..];
    }
  }

  /** `not s.strip()` holds exactly for the blank strings. */
  lemma {:induction false} StripEmptyIffBlank(s: string)
    ensures Strip(s) == [] <==> IsBlank(s)
  {
    StripLeadingSuffix(s);
    var l := StripLeading(s);
    StripTrailingPrefix(l);
    var k := |s| - |l|;
    // what rstrip leaves of l is empty exactly when l is blank, and a blank
    // l is empty because lstrip never leaves leading whitespace
    assert l[0..] == l;
    assert Strip(s) == [] <==> l == [];
    // l is empty exactly when s is blank: s is blank whitespace followed by l
    assert s[..k] + l == s;
    if l != [] {
      assert s[k] == l[0];
    }
  }

  /** `s.endswith(suffix)`. */
  function EndsWith(s: string, suffix: string): (r: bool)
    ensures r <==> exists p :: s == p + suffix
  {
    if |suffix| <= |s| && s[|s| - |suffix|..] == suffix then
      assert s == s[..|s| - |suffix|] + suffix;
      true
    else
      false
  }
}
