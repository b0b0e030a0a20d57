/**
 * The part of JavaScript's `String.prototype.trim` that the composer relies on:
 * removing white space and line terminators from both ends of the draft.
 */
module JsString {

  /** ECMAScript WhiteSpace and LineTerminator code points (the Zs category as of Unicode 15). */
  predicate IsSpace(c: char)
  {
    c == '\t' || c == '\n' || c == '\U{B}' || c == '\U{C}' || c == '\r' || c == ' '
    || c == '\U{A0}' || c == '\U{1680}' || ('\U{2000}' <= c <= '\U{200A}')
    || c == '\U{2028}' || c == '\U{2029}' || c == '\U{202F}' || c == '\U{205F}'
    || c == '\U{3000}' || c == '\U{FEFF}'
  }

  /**
   * The white space `trim` strips includes tab, the line breaks, vertical tab,
   * form feed and space, and excludes every visible ASCII character.
   */
  lemma IsSpaceOnAscii(c: char)
    ensures ('\t' <= c <= '\r' || c == ' ') ==> IsSpace(c)
    ensures ('!' <= c <= '~') ==> !IsSpace(c)
  {
  }

  /** A string made only of white space (the empty string included). */
  predicate IsBlank(s: string) {
    forall i :: 0 <= i < |s| ==> IsSpace(s[i])
  }

  /** `s` with its leading white space removed: a suffix of `s` that starts with a non-space. */
  function TrimStart(s: string): (r: string)
    ensures |r| <= |s| && r == s[|s| - |r|..]
    ensures r == [] || !IsSpace(r[0])
    ensures forall i :: 0 <= i < |s| - |r| ==> IsSpace(s[i])
    decreases |s|
  {
    if s != [] && IsSpace(s[0]) then TrimStart(s[1..]) else s
  }

  /** `s` with its trailing white space removed: a prefix of `s` that ends with a non-space. */
  function TrimEnd(s: string): (r: string)
    ensures |r| <= |s| && r == s[..|r|]
    ensures r == [] || !IsSpace(r[|r| - 1])
    ensures forall i :: |r| <= i < |s| ==> IsSpace(s[i])
    decreases |s|
  {
    if s != [] && IsSpace(s[|s| - 1]) then TrimEnd(s[..|s| - 1]) else s
  }

  /**
   * `s.trim()`: `s` with only its leading and trailing white space removed,
   * so that neither end of the result is white space.
   */
  function Trim(s: string): (r: string)
    ensures var k := |s| - |TrimStart(s)|;
      k + |r| <= |s| && r == s[k..k + |r|] && IsBlank(s[..k]) && IsBlank(s[k + |r|..])
    ensures r == [] || (!IsSpace(r[0]) && !IsSpace(r[|r| - 1]))
  {
    var t := TrimStart(s);
    var r := TrimEnd(t);
    StripBothEnds(s, t, r);
    r
  }

  /**
   * A suffix `t` of `s` that drops only white space, then a prefix `r` of `t`
   * that drops only white space: `r` is a slice of `s` between two blank pieces.
   */
  lemma StripBothEnds(s: string, t: string, r: string)
    requires |t| <= |s| && t == s[|s| - |t|..] && (t == [] || !IsSpace(t[0]))
    requires forall i :: 0 <= i < |s| - |t| ==> IsSpace(s[i])
    requires |r| <= |t| && r == t[..|r|] && (r == [] || !IsSpace(r[|r| - 1]))
    requires forall i :: |r| <= i < |t| ==> IsSpace(t[i])
    ensures var k := |s| - |t|;
      k + |r| <= |s| && r == s[k..k + |r|] && IsBlank(s[..k]) && IsBlank(s[k + |r|..])
      && (r == [] || (!IsSpace(r[0]) && !IsSpace(r[|r| - 1])))
  {
    var k := |s| - |t|;
    forall j | 0 <= j < |t| - |r|
      ensures IsSpace(t[|r|..][j])
    {
      assert t[|r|..][j] == t[|r| + j];
    }
    MiddleSlice(s, t, r, k);
    if r != [] {
      assert r[0] == t[0];
    }
  }

  /** A prefix `r` of the suffix `t = s[k..]`, followed by blank, is a middle slice of `s` followed by blank. */
  lemma MiddleSlice(s: string, t: string, r: string, k: nat)
    requires k <= |s| && t == s[k..] && |r| <= |t| && r == t[..|r|] && IsBlank(t[|r|..])
    ensures k + |r| <= |s| && r == s[k..k + |r|] && IsBlank(s[k + |r|..])
  {
    assert s[k + |r|..] == t[|r|..];
  }

  /** `!s.trim()` holds exactly for the blank strings. */
  lemma TrimEmptyIffBlank(s: string)
    ensures Trim(s) == [] <==> IsBlank(s)
  {
    var t := TrimStart(s);
    if t == [] {
      assert forall i :: 0 <= i < |s| ==> IsSpace(s[i]);
    } else {
      assert !IsSpace(t[0]);
      assert !IsSpace(s[|s| - |t|]);
    }
  }
}
