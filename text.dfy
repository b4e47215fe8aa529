/**
 * The string normalisation used by the similarity scorer: `toLowerCase()`
 * followed by `trim()`. Lower-casing is modelled on ASCII letters and trimming
 * on the ASCII white space together with no-break space and the byte-order mark.
 */
module Text {

  /** A character that `String.prototype.trim` removes at either end. */
  predicate IsWhitespace(c: char)
  {
    c == ' ' || c == '\t' || c == '\n' || c == '\r' ||
    c == '\U{000B}' || c == '\U{000C}' || c == '\U{00A0}' || c == '\U{FEFF}'
  }

  function LowerChar(c: char): char
  {
    if 'A' <= c <= 'Z' then ((c as int) + 32) as char else c
  }

  function ToLower(s: string): (r: string)
    ensures |r| == |s|
    ensures forall i :: 0 <= i < |s| ==> r[i] == LowerChar(s[i])
  {
    seq(|s|, i requires 0 <= i < |s| => LowerChar(s[i]))
  }

  /** Drops the leading white space: the result is the suffix of `s` that starts at its first other character. */
  function TrimStart(s: string): (r: string)
    ensures |r| <= |s| && r == s[|s| - |r|..]
    ensures forall i :: 0 <= i < |s| - |r| ==> IsWhitespace(s[i])
    ensures |r| > 0 ==> !IsWhitespace(r[0])
  {
    if |s| > 0 && IsWhitespace(s[0]) then TrimStart(s[1..]) else s
  }

  /** Drops the trailing white space: the result is the prefix of `s` that ends at its last other character. */
  function TrimEnd(s: string): (r: string)
    ensures |r| <= |s| && r == s[..|r|]
    ensures forall i :: |r| <= i < |s| ==> IsWhitespace(s[i])
    ensures |r| > 0 ==> !IsWhitespace(r[|r| - 1])
  {
    if |s| > 0 && IsWhitespace(s[|s| - 1]) then TrimEnd(s[..|s| - 1]) else s
  }

  /**
   * `s.trim()`: the slice of `s` left once the white space at both ends is
   * removed; it is empty exactly when `s` is all white space, and otherwise
   * starts and ends with other characters.
   */
  function Trim(s: string): (r: string)
    ensures |r| <= |s|
    ensures exists a, b :: TrimmedTo(s, r, a, b)
    ensures r == [] <==> forall i :: 0 <= i < |s| ==> IsWhitespace(s[i])
    ensures |r| > 0 ==> !IsWhitespace(r[0]) && !IsWhitespace(r[|r| - 1])
  {
    var t := TrimStart(s);
    var r := TrimEnd(t);
    TrimSlice(s, t, r);
    assert |r| > 0 ==> r[0] == t[0];
    TrimEmptyIff(s, r, |s| - |t|, |s| - |t| + |r|);
    r
  }

  /** `r` is the slice `s[a..b]`, and everything of `s` outside it is white space. */
  ghost predicate TrimmedTo(s: string, r: string, a: int, b: int)
  {
    && 0 <= a <= b <= |s| && r == s[a..b]
    && forall i :: (0 <= i < a || b <= i < |s|) ==> IsWhitespace(s[i])
  }

  /** A trimmed slice that starts with another character is empty exactly when `s` is all white space. */
  lemma TrimEmptyIff(s: string, r: string, a: int, b: int)
    requires TrimmedTo(s, r, a, b) && (|r| > 0 ==> !IsWhitespace(r[0]))
    ensures r == [] <==> forall i :: 0 <= i < |s| ==> IsWhitespace(s[i])
  {
    if |r| > 0 {
      assert r[0] == s[a];
    }
  }

  /**
   * A suffix `t` of `s` after white space, and a prefix `r` of `t` before
   * white space: `r` is a slice of `s` with white space outside it.
   */
  lemma TrimSlice(s: string, t: string, r: string)
    requires |t| <= |s| && t == s[|s| - |t|..] && forall i :: 0 <= i < |s| - |t| ==> IsWhitespace(s[i])
    requires |r| <= |t| && r == t[..|r|] && forall i :: |r| <= i < |t| ==> IsWhitespace(t[i])
    ensures TrimmedTo(s, r, |s| - |t|, |s| - |t| + |r|)
  {
    var a := |s| - |t|;
    assert forall i :: a + |r| <= i < |s| ==> s[i] == t[i - a];
  }

  /** The comparison form of a string: `s.toLowerCase().trim()`. */
  function Normalize(s: string): string
  {
    Trim(ToLower(s))
  }
}
