/**
 * String facts shared by both handlers: the JavaScript whitespace and
 * line-terminator classes (as used by `String.prototype.trim` and by the
 * regular-expression classes `\s` and `.`), trimming, and substring relations.
 */
module Text {

  /** ECMAScript LineTerminator: the characters `.` does not match. */
  predicate IsLineTerminator(c: char) {
    c == '\n' || c == '\r' || c == '\U{2028}' || c == '\U{2029}'
  }

  /** ECMAScript WhiteSpace or LineTerminator: what `\s` matches and `trim` removes. */
  predicate IsJsSpace(c: char) {
    || IsLineTerminator(c)
    || c == '\t' || c == '\U{000B}' || c == '\U{000C}' || c == ' '
    || c == '\U{00A0}' || c == '\U{1680}' || ('\U{2000}' <= c <= '\U{200A}')
    || c == '\U{202F}' || c == '\U{205F}' || c == '\U{3000}' || c == '\U{FEFF}'
  }

  predicate AllSpace(s: string, lo: nat, hi: nat)
    requires lo <= hi <= |s|
  {
    forall k :: lo <= k < hi ==> IsJsSpace(s[k])
  }

  predicate NoLineTerminator(s: string) {
    forall k :: 0 <= k < |s| ==> !IsLineTerminator(s[k])
  }

  /** `a` occurs in `b` as a contiguous piece. */
  predicate IsInfix(a: string, b: string) {
    exists i :: 0 <= i <= |b| && a <= b[i..]
  }

  predicate IsSuffix(a: string, b: string) {
    |a| <= |b| && b[|b| - |a|..] == a
  }

  /** The end of the run of whitespace that starts at `i`. */
  function SpaceRunEnd(s: string, i: nat): (e: nat)
    requires i <= |s|
    ensures i <= e <= |s|
    ensures AllSpace(s, i, e)
    ensures e < |s| ==> !IsJsSpace(s[e])
    decreases |s| - i
  {
    if i == |s| || !IsJsSpace(s[i]) then i else SpaceRunEnd(s, i + 1)
  }

  /** The first line terminator at or after `i`, or the end of `s`. */
  function LineEnd(s: string, i: nat): (e: nat)
    requires i <= |s|
    ensures i <= e <= |s|
    ensures NoLineTerminator(s[i..e])
    ensures e < |s| ==> IsLineTerminator(s[e])
    decreases |s| - i
  {
    if i == |s| || IsLineTerminator(s[i]) then i
    else
      var e := LineEnd(s, i + 1);
      assert s[i..e] == [s[i]] + s[i + 1..e];
      e
  }

  /** The start of the trailing whitespace of `s[lo..hi]`. */
  function TrailingSpaceStart(s: string, lo: nat, hi: nat): (b: nat)
    requires lo <= hi <= |s|
    ensures lo <= b <= hi
    ensures AllSpace(s, b, hi)
    ensures lo < b ==> !IsJsSpace(s[b - 1])
    decreases hi - lo
  {
    if hi == lo || !IsJsSpace(s[hi - 1]) then hi else TrailingSpaceStart(s, lo, hi - 1)
  }

  /** JavaScript's `String.prototype.trim`. */
  function Trim(s: string): (r: string)
    ensures exists a, b :: 0 <= a <= b <= |s| && r == s[a..b] && AllSpace(s, 0, a) && AllSpace(s, b, |s|)
    ensures |r| > 0 ==> !IsJsSpace(r[0]) && !IsJsSpace(r[|r| - 1])
  {
    var a := SpaceRunEnd(s, 0);
    var b := TrailingSpaceStart(s, a, |s|);
    s[a..b]
  }

  /** Trimming removes only whitespace, so trimming twice changes nothing. */
  lemma TrimIdempotent(s: string)
    ensures Trim(Trim(s)) == Trim(s)
  {
    var t := Trim(s);
    TrimUnchanged(t);
  }

  /** A string with no whitespace at either end is its own trim. */
  lemma TrimUnchanged(t: string)
    requires |t| > 0 ==> !IsJsSpace(t[0]) && !IsJsSpace(t[|t| - 1])
    ensures Trim(t) == t
  {
    var a := SpaceRunEnd(t, 0);
    assert a == 0;
    var b := TrailingSpaceStart(t, a, |t|);
    assert b == |t|;
  }

  /** Trimming a single line leaves a single line. */
  lemma TrimKeepsNoLineTerminator(s: string)
    requires NoLineTerminator(s)
    ensures NoLineTerminator(Trim(s))
  {
    var a := SpaceRunEnd(s, 0);
    var b := TrailingSpaceStart(s, a, |s|);
    assert forall k :: 0 <= k < b - a ==> s[a..b][k] == s[a + k];
  }

  /** Trim is determined by where the non-whitespace content starts and ends. */
  lemma TrimCharacterised(s: string, a: nat, b: nat)
    requires a < b <= |s|
    requires AllSpace(s, 0, a) && AllSpace(s, b, |s|)
    requires !IsJsSpace(s[a]) && !IsJsSpace(s[b - 1])
    ensures Trim(s) == s[a..b]
  {
    var a' := SpaceRunEnd(s, 0);
    var b' := TrailingSpaceStart(s, a', |s|);
  }

  /** `LineEnd` is the one position that ends the line. */
  lemma LineEndAt(s: string, i: nat, e: nat)
    requires i <= e <= |s| && NoLineTerminator(s[i..e])
    requires e == |s| || IsLineTerminator(s[e])
    ensures LineEnd(s, i) == e
  {
    var e' := LineEnd(s, i);
  }
}
