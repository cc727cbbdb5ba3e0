/**
 * The part of JavaScript's string library the model needs: `String.prototype.trim`,
 * which removes leading and trailing WhiteSpace and LineTerminator code points
 * (section 22.1.3.32 of ECMA-262).
 */
module JsText {

  /** The code points `trim` removes: ECMAScript WhiteSpace (including the Zs category) and LineTerminator. */
  predicate IsTrimmable(c: char) {
    c == '\t' || c == '\n' || c == '\U{B}' || c == '\U{C}' || c == '\r' || c == ' '
    || c == '\U{A0}' || c == '\U{1680}' || ('\U{2000}' <= c <= '\U{200A}')
    || c == '\U{2028}' || c == '\U{2029}' || c == '\U{202F}' || c == '\U{205F}'
    || c == '\U{3000}' || c == '\U{FEFF}'
  }

  /** Neither the first nor the last code point of `s` is trimmable. */
  predicate HasCleanEnds(s: string) {
    s == [] || (!IsTrimmable(s[0]) && !IsTrimmable(s[|s| - 1]))
  }

  // The quantifiers over trimmable code points below are triggered by `IsTrimmable(s[k])`
  // alone, so that indexing into a string does not by itself instantiate them.

  /** Every code point of `s` is trimmable. */
  predicate AllTrimmable(s: string) {
    forall k {:trigger IsTrimmable(s[k])} :: 0 <= k < |s| ==> IsTrimmable(s[k])
  }

  /**
   * `r` is the infix of `s` that starts at index `i`, and every code point of `s` before it
   * and after it is trimmable.
   */
  predicate IsTrimmedInfix(s: string, i: int, r: string) {
    && 0 <= i && i + |r| <= |s| && r == s[i..i + |r|]
    && (forall k {:trigger IsTrimmable(s[k])} :: 0 <= k < i ==> IsTrimmable(s[k]))
    && (forall k {:trigger IsTrimmable(s[k])} :: i + |r| <= k < |s| ==> IsTrimmable(s[k]))
  }

  /** `s` with its leading trimmable code points removed. */
  function TrimStart(s: string): (r: string)
    ensures |r| <= |s| && r == s[|s| - |r|..]
    ensures r == [] || !IsTrimmable(r[0])
    ensures forall k {:trigger IsTrimmable(s[k])} :: 0 <= k < |s| - |r| ==> IsTrimmable(s[k])
  {
    if s != [] && IsTrimmable(s[0]) then TrimStart(s[1..]) else s
  }

  /** `s` with its trailing trimmable code points removed. */
  function TrimEnd(s: string): (r: string)
    ensures |r| <= |s| && r == s[..|r|]
    ensures r == [] || !IsTrimmable(r[|r| - 1])
    ensures forall k {:trigger IsTrimmable(s[k])} :: |r| <= k < |s| ==> IsTrimmable(s[k])
  {
    if s != [] && IsTrimmable(s[|s| - 1]) then TrimEnd(s[..|s| - 1]) else s
  }

  /** `s.trim()`: the longest infix of `s` that neither starts nor ends with a trimmable code point. */
  function Trim(s: string): (r: string)
    ensures IsTrimmedInfix(s, |s| - |TrimStart(s)|, r)
    ensures HasCleanEnds(r)
    ensures r == [] <==> AllTrimmable(s)
    ensures HasCleanEnds(s) ==> r == s
  {
    var t := TrimStart(s);
    var r := TrimEnd(t);
    TrimmedInfix(s, t, r);
    KeepsCleanEnds(s);
    r
  }

  /**
   * Removing trimmable code points from the front of `s` (giving `t`) and then from the back of
   * `t` (giving `r`) leaves an infix of `s` with only trimmable code points around it; it is
   * empty exactly when every code point of `s` is trimmable.
   */
  lemma TrimmedInfix(s: string, t: string, r: string)
    requires |t| <= |s| && t == s[|s| - |t|..]
    requires t == [] || !IsTrimmable(t[0])
    requires forall k {:trigger IsTrimmable(s[k])} :: 0 <= k < |s| - |t| ==> IsTrimmable(s[k])
    requires |r| <= |t| && r == t[..|r|]
    requires forall k {:trigger IsTrimmable(t[k])} :: |r| <= k < |t| ==> IsTrimmable(t[k])
    requires r == [] || !IsTrimmable(r[|r| - 1])
    ensures IsTrimmedInfix(s, |s| - |t|, r)
    ensures HasCleanEnds(r)
    ensures r == [] <==> AllTrimmable(s)
  {
    var i := |s| - |t|;
    forall k | i + |r| <= k < |s|
      ensures IsTrimmable(s[k])
    {
      assert s[k] == t[k - i];
    }
    if r != [] {
      assert r[0] == t[0];
    }
  }

  /** A text that neither starts nor ends with a trimmable code point is left as it is at both ends. */
  lemma KeepsCleanEnds(s: string)
    ensures HasCleanEnds(s) ==> TrimStart(s) == s && TrimEnd(s) == s
  {
  }
}
