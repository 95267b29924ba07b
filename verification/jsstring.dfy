/** The part of JavaScript's `String.prototype.trim` the application relies on:
    leading and trailing white space and line terminators are removed, as the
    ECMAScript language specification defines them. */
module JsString {

  /** ECMAScript WhiteSpace (TAB, VT, FF, SPACE, NBSP, ZWNBSP and the Unicode
      "Zs" space separators) or LineTerminator (LF, CR, LS, PS). */
  predicate IsWhitespace(c: char)
  {
    || c == '\t' || c == '\n' || c == '\U{B}' || c == '\U{C}' || c == '\r'
    || c == ' ' || c == '\U{A0}' || c == '\U{1680}'
    || ('\U{2000}' <= c <= '\U{200A}')
    || c == '\U{2028}' || c == '\U{2029}' || c == '\U{202F}' || c == '\U{205F}'
    || c == '\U{3000}' || c == '\U{FEFF}'
  }

  predicate AllWhitespace(s: string)
  {
    forall i :: 0 <= i < |s| ==> IsWhitespace(s[i])
  }

  /** The first position at or after `from` that does not hold white space
      (`|s|` if there is none). */
  function TextStart(s: string, from: nat): (k: nat)
    requires from <= |s|
    ensures from <= k <= |s|
    ensures forall i :: from <= i < k ==> IsWhitespace(s[i])
    ensures k < |s| ==> !IsWhitespace(s[k])
    decreases |s| - from
  {
    if from < |s| && IsWhitespace(s[from]) then TextStart(s, from + 1) else from
  }

  /** The end of the text in `s[start..upto]`: everything from it up to `upto`
      is white space, and the character before it (when past `start`) is not. */
  function TextEnd(s: string, start: nat, upto: nat): (k: nat)
    requires start <= upto <= |s|
    ensures start <= k <= upto
    ensures forall i :: k <= i < upto ==> IsWhitespace(s[i])
    ensures start < k ==> !IsWhitespace(s[k - 1])
    decreases upto
  {
    if start < upto && IsWhitespace(s[upto - 1]) then TextEnd(s, start, upto - 1) else upto
  }

  /** `s.trim()`: `s` is white space, then the result, then white space; the
      result neither starts nor ends with white space, and it is empty exactly
      when `s` is all white space. */
  function Trim(s: string): (r: string)
    ensures var k := TextStart(s, 0);
      && k + |r| <= |s|
      && r == s[k..k + |r|]
      && AllWhitespace(s[..k]) && AllWhitespace(s[k + |r|..])
    ensures r != [] ==> !IsWhitespace(r[0]) && !IsWhitespace(r[|r| - 1])
    ensures r == [] <==> AllWhitespace(s)
  {
    var start := TextStart(s, 0);
    var end := TextEnd(s, start, |s|);
    s[start..end]
  }

  /** The JavaScript test `!s.trim()`: the trimmed string is falsy, i.e. empty,
      which happens exactly for all-white-space input, the empty string included. */
  function IsBlank(s: string): (blank: bool)
    ensures blank <==> AllWhitespace(s)
  {
    Trim(s) == ""
  }

  /** JavaScript's `s.length`: the number of UTF-16 code units, one for a
      character of the Basic Multilingual Plane and two (a surrogate pair) for
      any character above U+FFFF. */
  function Utf16Length(s: string): (n: nat)
    ensures |s| <= n <= 2 * |s|
    ensures n == |s| <==> forall i :: 0 <= i < |s| ==> s[i] <= '\U{FFFF}'
    ensures n == 2 * |s| <==> forall i :: 0 <= i < |s| ==> s[i] > '\U{FFFF}'
    decreases |s|
  {
    if s == [] then 0
    else (if s[0] <= '\U{FFFF}' then 1 else 2) + Utf16Length(s[1..])
  }

  /** Code units add up over concatenation, so each character contributes its
      own one or two units wherever it stands. */
  lemma {:induction false} Utf16LengthAppend(a: string, b: string)
    ensures Utf16Length(a + b) == Utf16Length(a) + Utf16Length(b)
    decreases |a|
  {
    if a == [] {
      assert a + b == b;
    } else {
      assert (a + b)[0] == a[0];
      assert (a + b)[1..] == a[1..] + b;
      Utf16LengthAppend(a[1..], b);
    }
  }

  /** White space around a text that neither starts nor ends with white space
      is exactly what trimming removes. */
  lemma TrimRemovesPadding(before: string, core: string, after: string)
    requires AllWhitespace(before) && AllWhitespace(after)
    requires core != [] && !IsWhitespace(core[0]) && !IsWhitespace(core[|core| - 1])
    ensures Trim(before + core + after) == core
  {
    var s := before + core + after;
    var start, end := |before|, |before| + |core|;
    assert forall i :: 0 <= i < start ==> s[i] == before[i];
    assert forall i :: end <= i < |s| ==> s[i] == after[i - end];
    assert s[start] == core[0] && s[end - 1] == core[|core| - 1];
    assert TextStart(s, 0) == start;
    assert TextEnd(s, start, |s|) == end;
    assert s[start..end] == core;
  }
}
