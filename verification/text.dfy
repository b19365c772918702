/**
 * The string trimming the product form relies on: ECMAScript's
 * `String.prototype.trim`, which strips WhiteSpace and LineTerminator code
 * points (sections 12.2 and 12.3 of ECMA-262) from both ends.
 */
module Text {

  /** The WhiteSpace and LineTerminator code points of ECMA-262. */
  predicate IsWhitespace(c: char)
  {
    || c == '\t' || c == '\n' || c == '\U{000B}' || c == '\U{000C}' || c == '\r'
    || c == ' ' || c == '\U{00A0}' || c == '\U{1680}'
    || ('\U{2000}' <= c <= '\U{200A}')
    || c == '\U{2028}' || c == '\U{2029}' || c == '\U{202F}' || c == '\U{205F}'
    || c == '\U{3000}' || c == '\U{FEFF}'
  }

  /** Every character of `s` is whitespace (the empty string is blank). */
  predicate IsBlank(s: string)
  {
    forall i :: 0 <= i < |s| ==> IsWhitespace(s[i])
  }

  /** Neither end of `s` is whitespace. */
  predicate IsTrimmed(s: string)
  {
    s == [] || (!IsWhitespace(s[0]) && !IsWhitespace(s[|s| - 1]))
  }

  /** The first position at or after `i` that is not whitespace, or `|s|`. */
  function SkipForward(s: string, i: nat): (j: nat)
    requires i <= |s|
    ensures i <= j <= |s|
    ensures forall k :: i <= k < j ==> IsWhitespace(s[k])
    ensures j < |s| ==> !IsWhitespace(s[j])
    decreases |s| - i
  {
    if i < |s| && IsWhitespace(s[i]) then SkipForward(s, i + 1) else i
  }

  /** The position just after the last non-whitespace character in `[lo, j)`, or `lo`. */
  function SkipBackward(s: string, lo: nat, j: nat): (k: nat)
    requires lo <= j <= |s|
    ensures lo <= k <= j
    ensures forall m :: k <= m < j ==> IsWhitespace(s[m])
    ensures k > lo ==> !IsWhitespace(s[k - 1])
    decreases j
  {
    if j > lo && IsWhitespace(s[j - 1]) then SkipBackward(s, lo, j - 1) else j
  }

  /** Where the trimmed text starts in `s`. */
  function TrimStart(s: string): nat
  {
    SkipForward(s, 0)
  }

  /** Where the trimmed text ends in `s`. */
  function TrimEnd(s: string): nat
  {
    SkipBackward(s, TrimStart(s), |s|)
  }

  /**
   * `String.prototype.trim`: no whitespace is left at either end, and the
   * result is empty exactly when the whole input is whitespace.
   */
  function Trim(s: string): (r: string)
    ensures |r| <= |s|
    ensures IsTrimmed(r)
    ensures r == [] <==> IsBlank(s)
  {
    var a := TrimStart(s);
    var b := TrimEnd(s);
    assert a < |s| ==> !IsWhitespace(s[a]) && a < b;
    s[a..b]
  }

  /** Trimming cuts away whitespace only, and keeps the text between the cuts intact. */
  lemma TrimCutsOnlyWhitespace(s: string)
    ensures TrimStart(s) <= TrimEnd(s) <= |s| && Trim(s) == s[TrimStart(s)..TrimEnd(s)]
    ensures forall i :: 0 <= i < TrimStart(s) ==> IsWhitespace(s[i])
    ensures forall i :: TrimEnd(s) <= i < |s| ==> IsWhitespace(s[i])
  {
  }

  /** A string with no whitespace at either end is its own trim. */
  lemma TrimmedIsFixpoint(s: string)
    requires IsTrimmed(s)
    ensures Trim(s) == s
  {
  }

  /** Trimming twice is trimming once. */
  lemma TrimIdempotent(s: string)
    ensures Trim(Trim(s)) == Trim(s)
  {
  }
}
