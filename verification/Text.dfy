/**
 * Character classes and the leading-whitespace trim that the line scanner applies
 * to every source line (`LocalizationTextCollector.trimStart`).
 *
 * Two different notions of "whitespace" are involved and are kept apart:
 * `trimStart` asks `Character.isWhitespace`, while the default patterns use the
 * regular-expression class `\s`, which is much smaller.
 */
module Text {

  /** `Character.isWhitespace`: the Unicode space, line and paragraph separators
      other than the non-breaking ones (U+00A0, U+2007, U+202F), plus the ASCII
      controls U+0009..U+000D and U+001C..U+001F. */
  predicate IsJavaWhitespace(c: char) {
    || ('\t' <= c <= '\r')
    || ('\U{1C}' <= c <= '\U{1F}')
    || c == ' '
    || c == '\U{1680}'
    || ('\U{2000}' <= c <= '\U{2006}')
    || ('\U{2008}' <= c <= '\U{200A}')
    || c == '\U{2028}' || c == '\U{2029}'
    || c == '\U{205F}' || c == '\U{3000}'
  }

  /** The regular-expression class `\s` without UNICODE_CHARACTER_CLASS: `[ \t\n\x0B\f\r]`.
      `\S` is its complement. */
  predicate IsRegexSpace(c: char) {
    c == ' ' || c == '\t' || c == '\n' || c == '\U{0B}' || c == '\U{0C}' || c == '\r'
  }

  /** The line terminators of `java.util.regex` (without UNIX_LINES): they stop `.`
      and may follow the position where `$` matches. */
  predicate IsLineTerminator(c: char) {
    c == '\n' || c == '\r' || c == '\U{85}' || c == '\U{2028}' || c == '\U{2029}'
  }

  /** Every `\s` character is also Java whitespace, so a trimmed line never starts with `\s`. */
  lemma RegexSpaceIsJavaWhitespace(c: char)
    ensures IsRegexSpace(c) ==> IsJavaWhitespace(c)
  {
  }

  /** The two classes differ: U+3000 (ideographic space) is stripped by `trimStart`
      but counts as `\S` for the patterns, and U+00A0 is neither. */
  lemma WhitespaceClassesDiffer()
    ensures IsJavaWhitespace('\U{3000}') && !IsRegexSpace('\U{3000}')
    ensures !IsJavaWhitespace('\U{A0}') && !IsRegexSpace('\U{A0}')
  {
  }

  predicate AllJavaWhitespace(s: string) {
    forall i :: 0 <= i < |s| ==> IsJavaWhitespace(s[i])
  }

  /** `trimStart`: drop leading characters while they are whitespace. */
  function TrimStart(s: string): string {
    if s == [] || !IsJavaWhitespace(s[0]) then s else TrimStart(s[1..])
  }

  /** The result is the suffix of `s` that starts at its first non-whitespace
      character, or the empty string when every character is whitespace. */
  lemma {:induction false} TrimStartSpec(s: string)
    ensures |TrimStart(s)| <= |s| && TrimStart(s) == s[|s| - |TrimStart(s)|..]
    ensures AllJavaWhitespace(s[..|s| - |TrimStart(s)|])
    ensures TrimStart(s) == [] || !IsJavaWhitespace(TrimStart(s)[0])
  {
    if s != [] && IsJavaWhitespace(s[0]) {
      TrimStartSpec(s[1..]);
      var n := |s| - |TrimStart(s)|;
      assert s[..n] == [s[0]] + s[1..][..n - 1];
    }
  }

  /** The three properties of TrimStartSpec determine the result: whatever
      suffix starts after an all-whitespace prefix, at a non-whitespace character or
      at the end, is the trimmed string. */
  lemma {:induction false} TrimStartAt(s: string, n: nat)
    requires n <= |s|
    requires AllJavaWhitespace(s[..n])
    requires n == |s| || !IsJavaWhitespace(s[n])
    ensures TrimStart(s) == s[n..]
  {
    if n > 0 {
      assert IsJavaWhitespace(s[..n][0]);
      assert s[1..][..n - 1] == s[..n][1..];
      TrimStartAt(s[1..], n - 1);
    }
  }

  /** A string that does not start with whitespace is returned unchanged. */
  lemma TrimStartUnchanged(s: string)
    requires s == [] || !IsJavaWhitespace(s[0])
    ensures TrimStart(s) == s
  {
    TrimStartAt(s, 0);
  }

  /** Trimming twice is trimming once. */
  lemma TrimStartIdempotent(s: string)
    ensures TrimStart(TrimStart(s)) == TrimStart(s)
  {
    TrimStartSpec(s);
    TrimStartUnchanged(TrimStart(s));
  }

  /** Leading indentation made only of whitespace is removed whatever follows it,
      and a line made only of whitespace trims to the empty string. */
  lemma TrimStartIndented(indent: string, s: string)
    requires AllJavaWhitespace(indent)
    ensures TrimStart(indent + s) == TrimStart(s)
  {
    TrimStartSpec(s);
    var t := TrimStart(s);
    var n := |s| - |t|;
    assert (indent + s)[..|indent| + n] == indent + s[..n];
    assert (indent + s)[|indent| + n..] == t;
    TrimStartAt(indent + s, |indent| + n);
  }

  /** The loop of `trimStart`: the first index whose character is not whitespace
      selects the suffix; if there is none the result is empty. */
  method TrimStartScan(value: string) returns (r: string)
    ensures r == TrimStart(value)
  {
    for i := 0 to |value|
      invariant AllJavaWhitespace(value[..i])
    {
      if !IsJavaWhitespace(value[i]) {
        TrimStartAt(value, i);
        return value[i..];
      }
      assert value[..i + 1] == value[..i] + [value[i]];
    }
    TrimStartAt(value, |value|);
    return "";
  }
}
