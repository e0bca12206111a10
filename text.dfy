/**
 * ECMAScript white space and String.prototype.trim, as the contact form's
 * validator uses them.
 *
 * The white-space set of `trim` and of the regular-expression class `\s`
 * is the same: the WhiteSpace production (section 12.2 of ECMA-262) and the
 * LineTerminator production (section 12.3 of ECMA-262).
 */
module Text {

  /** WhiteSpace or LineTerminator of ECMA-262. The `Zs` members are those of
      the Unicode general category "space separator". */
  predicate IsWs(c: char) {
    // WhiteSpace: TAB, VT, FF, ZWNBSP and the Zs category
    || c == '\t' || c == '\U{000B}' || c == '\U{000C}' || c == '\U{FEFF}'
    || c == ' ' || c == '\U{00A0}' || c == '\U{1680}'
    || ('\U{2000}' <= c <= '\U{200A}')
    || c == '\U{202F}' || c == '\U{205F}' || c == '\U{3000}'
    // LineTerminator: LF, CR, LS, PS
    || c == '\n' || c == '\r' || c == '\U{2028}' || c == '\U{2029}'
  }

  /** Every character of `s` is white space (vacuously true of ""). */
  predicate AllWs(s: string) {
    forall k :: 0 <= k < |s| ==> IsWs(s[k])
  }

  /** `s` with its leading white space removed. */
  function TrimStart(s: string): string {
    if s != [] && IsWs(s[0]) then TrimStart(s[1..]) else s
  }

  /** `s` with its trailing white space removed. */
  function TrimEnd(s: string): string {
    if s != [] && IsWs(s[|s| - 1]) then TrimEnd(s[..|s| - 1]) else s
  }

  /** TrimStart keeps the longest suffix reached by dropping white space:
      what it drops is white space, and what it keeps does not start with
      white space. */
  lemma {:induction false} TrimStartSpec(s: string)
    ensures |TrimStart(s)| <= |s|
    ensures TrimStart(s) == s[|s| - |TrimStart(s)|..]
    ensures AllWs(s[..|s| - |TrimStart(s)|])
    ensures TrimStart(s) != [] ==> !IsWs(TrimStart(s)[0])
  {
    if s != [] && IsWs(s[0]) {
      TrimStartSpec(s[1..]);
      var r := TrimStart(s[1..]);
      assert s[..|s| - |r|] == [s[0]] + s[1..][..|s| - 1 - |r|];
    }
  }

  /** TrimEnd keeps the longest prefix reached by dropping white space. */
  lemma {:induction false} TrimEndSpec(s: string)
    ensures |TrimEnd(s)| <= |s|
    ensures TrimEnd(s) == s[..|TrimEnd(s)|]
    ensures AllWs(s[|TrimEnd(s)|..])
    ensures TrimEnd(s) != [] ==> !IsWs(TrimEnd(s)[|TrimEnd(s)| - 1])
  {
    if s != [] && IsWs(s[|s| - 1]) {
      TrimEndSpec(s[..|s| - 1]);
      var r := TrimEnd(s[..|s| - 1]);
      assert s[|r|..] == s[..|s| - 1][|r|..] + [s[|s| - 1]];
    }
  }

  /** String.prototype.trim: both ends stripped of white space. The result
      is the slice of `s` between a white-space prefix and a white-space
      suffix, and neither starts nor ends with white space. */
  function Trim(s: string): (r: string)
    ensures exists lo :: IsStrippedAt(s, r, lo)
    ensures r != [] ==> !IsWs(r[0]) && !IsWs(r[|r| - 1])
  {
    var t := TrimStart(s);
    TrimStartSpec(s);
    TrimEndSpec(t);
    var r := TrimEnd(t);
    var lo := |s| - |t|;
    assert s[lo..lo + |r|] == t[..|r|];
    assert s[lo + |r|..] == t[|r|..];
    assert IsStrippedAt(s, r, lo);
    assert r != [] ==> r[0] == t[0];
    r
  }

  /** `r` sits in `s` at index `lo`, with only white space before and after. */
  predicate IsStrippedAt(s: string, r: string, lo: int) {
    && 0 <= lo <= |s| - |r|
    && r == s[lo..lo + |r|]
    && AllWs(s[..lo])
    && AllWs(s[lo + |r|..])
  }

  /** JavaScript's `!s.trim()`: the trimmed string is the falsy "". A string
      is blank exactly when it consists of white space only. */
  predicate IsBlank(s: string)
    ensures IsBlank(s) <==> AllWs(s)
  {
    TrimEmptyIffAllWs(s);
    Trim(s) == []
  }

  lemma TrimEmptyIffAllWs(s: string)
    ensures Trim(s) == [] <==> AllWs(s)
  {
    var r := Trim(s);
    var lo :| IsStrippedAt(s, r, lo);
    assert r == [] ==> s == s[..lo] + s[lo..];
    assert r != [] ==> r[0] == s[lo];
  }
}
