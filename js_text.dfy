/**
 * The two JavaScript string operations the user schema applies as setters:
 * String.prototype.trim (the `trim: true` option on `name`) and
 * String.prototype.toLowerCase (the `lowercase: true` option on `email`).
 */
module JsText {

  /** The code points ECMAScript counts as WhiteSpace or LineTerminator, which trim strips. */
  predicate IsJsWhitespace(c: char) {
    || c == '\t' || c == '\n' || c == '\U{000B}' || c == '\U{000C}' || c == '\r' || c == ' '
    || c == '\U{00A0}' || c == '\U{1680}' || ('\U{2000}' <= c <= '\U{200A}')
    || c == '\U{2028}' || c == '\U{2029}' || c == '\U{202F}' || c == '\U{205F}'
    || c == '\U{3000}' || c == '\U{FEFF}'
  }

  /** Scanning forward from `lo` over whitespace: the index of the first other character, or |s|. */
  function ContentStart(s: string, lo: nat): (i: nat)
    requires lo <= |s|
    requires forall k :: 0 <= k < lo ==> IsJsWhitespace(s[k])
    ensures lo <= i <= |s|
    ensures forall k :: 0 <= k < i ==> IsJsWhitespace(s[k])
    ensures i < |s| ==> !IsJsWhitespace(s[i])
    decreases |s| - lo
  {
    if lo == |s| || !IsJsWhitespace(s[lo]) then lo else ContentStart(s, lo + 1)
  }

  /** Scanning backward from `hi` over whitespace, not below `lo`: the index just past the last other character. */
  function ContentEnd(s: string, lo: nat, hi: nat): (j: nat)
    requires lo <= hi <= |s|
    requires forall k :: hi <= k < |s| ==> IsJsWhitespace(s[k])
    ensures lo <= j <= hi
    ensures forall k :: j <= k < |s| ==> IsJsWhitespace(s[k])
    ensures lo < j ==> !IsJsWhitespace(s[j - 1])
  {
    if hi == lo || !IsJsWhitespace(s[hi - 1]) then hi else ContentEnd(s, lo, hi - 1)
  }

  /** How many whitespace characters open `s`. */
  function LeadingWhitespace(s: string): (n: nat)
    ensures n <= |s|
  {
    ContentStart(s, 0)
  }

  /**
   * String.prototype.trim: the piece of `s` that remains once whitespace is
   * removed from both ends; everything removed was whitespace.
   */
  function Trim(s: string): (r: string)
    ensures r == [] || (!IsJsWhitespace(r[0]) && !IsJsWhitespace(r[|r| - 1]))
    ensures var i := LeadingWhitespace(s);
            && i + |r| <= |s| && r == s[i..i + |r|]
            && (forall k :: 0 <= k < i ==> IsJsWhitespace(s[k]))
            && (forall k :: i + |r| <= k < |s| ==> IsJsWhitespace(s[k]))
  {
    var i := ContentStart(s, 0);
    var j := ContentEnd(s, i, |s|);
    s[i..j]
  }

  /** Neither end of `s` is whitespace. */
  predicate IsTrimmed(s: string) {
    s == [] || (!IsJsWhitespace(s[0]) && !IsJsWhitespace(s[|s| - 1]))
  }

  /**
   * The trimmed strings are exactly those trim leaves alone, so trimming
   * again changes nothing.
   */
  lemma TrimFixedPoints(s: string)
    ensures IsTrimmed(Trim(s))
    ensures IsTrimmed(s) <==> Trim(s) == s
    ensures Trim(Trim(s)) == Trim(s)
  {
    var r := Trim(s);
    if r != [] {
      assert ContentStart(r, 0) == 0;
      assert ContentEnd(r, 0, |r|) == |r|;
    }
    if IsTrimmed(s) && s != [] {
      assert ContentStart(s, 0) == 0;
      assert ContentEnd(s, 0, |s|) == |s|;
    }
  }

  /** String.prototype.toLowerCase on one character; only A to Z have a lower-case form here. */
  function LowerChar(c: char): (d: char)
    ensures 'A' <= c <= 'Z' ==> 'a' <= d <= 'z' && d as int - c as int == 'a' as int - 'A' as int
    ensures !('A' <= c <= 'Z') ==> d == c
  {
    if 'A' <= c <= 'Z' then (c as int - 'A' as int + 'a' as int) as char else c
  }

  /** String.prototype.toLowerCase: the same length, each character mapped by LowerChar. */
  function Lower(s: string): (r: string)
    ensures |r| == |s|
    ensures forall k :: 0 <= k < |s| ==> r[k] == LowerChar(s[k])
  {
    if s == [] then [] else [LowerChar(s[0])] + Lower(s[1..])
  }

  /** A lower-cased string has no upper-case letter left. */
  predicate IsLower(s: string) {
    forall k :: 0 <= k < |s| ==> !('A' <= s[k] <= 'Z')
  }

  /** Lower yields a lower-cased string, and lower-casing one leaves it as it is. */
  lemma {:induction false} LowerNormalises(s: string)
    ensures IsLower(Lower(s))
    ensures Lower(Lower(s)) == Lower(s)
  {
    var r := Lower(s);
    assert forall k :: 0 <= k < |r| ==> Lower(r)[k] == r[k];
  }
}
