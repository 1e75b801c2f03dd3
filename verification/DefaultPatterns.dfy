/**
 * The two default patterns of the collector, `^//#tr (\S+)$` for a key line and
 * `^// (\S+) (.+)$` for a value line, written out as extractors with the exact
 * behaviour of `java.util.regex` on them: `\S` is the complement of the ASCII class
 * `[ \t\n\x0B\f\r]`, `.` stops at a line terminator, and `$` (without MULTILINE)
 * matches at the end of the input or just before one final line terminator.
 */
module DefaultPatterns {
  import opened Wrappers
  import opened Text

  const KeyPrefix := "//#tr "
  const ValuePrefix := "// "

  predicate NoRegexSpace(s: string) {
    forall i :: 0 <= i < |s| ==> !IsRegexSpace(s[i])
  }

  predicate NoLineTerminator(s: string) {
    forall i :: 0 <= i < |s| ==> !IsLineTerminator(s[i])
  }

  /** Where `$` may match: the input ends here, or only one line terminator
      (`\r\n` counting as one) is left. */
  predicate AtInputEnd(tail: string) {
    tail == "" || (|tail| == 1 && IsLineTerminator(tail[0])) || tail == "\r\n"
  }

  /** The greedy run `\S*` at the start of `s`: the longest prefix without a `\s` character. */
  function NonSpaceRun(s: string): (r: string)
    ensures r <= s && NoRegexSpace(r)
    ensures |r| < |s| ==> IsRegexSpace(s[|r|])
  {
    if s == [] || IsRegexSpace(s[0]) then [] else [s[0]] + NonSpaceRun(s[1..])
  }

  /** The greedy run `.*` at the start of `s`: the longest prefix without a line terminator. */
  function LineRun(s: string): (r: string)
    ensures r <= s && NoLineTerminator(r)
    ensures |r| < |s| ==> IsLineTerminator(s[|r|])
  {
    if s == [] || IsLineTerminator(s[0]) then [] else [s[0]] + LineRun(s[1..])
  }

  /** `^//#tr (\S+)$` with `find()`, yielding group 1. Backtracking cannot help
      `\S+`: a shorter run stops before a `\S` character, where `$` never matches
      unless that character is the last one, and then the full run already ended
      at the end of the input. */
  function MatchKey(line: string): Option<string> {
    if KeyPrefix <= line then
      var rest := line[|KeyPrefix|..];
      var key := NonSpaceRun(rest);
      if key != [] && AtInputEnd(rest[|key|..]) then Some(key) else None
    else
      None
  }

  /** `^// (\S+) (.+)$` with `find()`, yielding groups 1 and 2. The language run
      must be followed by exactly one ASCII space, and the text is everything up to
      the first line terminator, which may only be a final one. */
  function MatchValue(line: string): Option<(string, string)> {
    if ValuePrefix <= line then
      var rest := line[|ValuePrefix|..];
      var lang := NonSpaceRun(rest);
      if lang != [] && |lang| < |rest| && rest[|lang|] == ' ' then
        var tail := rest[|lang| + 1..];
        var text := LineRun(tail);
        if text != [] && AtInputEnd(tail[|text|..]) then Some((lang, text)) else None
      else
        None
    else
      None
  }

  lemma {:induction false} NonSpaceRunAll(s: string, t: string)
    requires NoRegexSpace(s)
    requires t == [] || IsRegexSpace(t[0])
    ensures NonSpaceRun(s + t) == s
  {
    if s != [] {
      assert (s + t)[1..] == s[1..] + t;
      NonSpaceRunAll(s[1..], t);
    } else {
      assert s + t == t;
    }
  }

  lemma {:induction false} LineRunAll(s: string, t: string)
    requires NoLineTerminator(s)
    requires t == [] || IsLineTerminator(t[0])
    ensures LineRun(s + t) == s
  {
    if s != [] {
      assert (s + t)[1..] == s[1..] + t;
      LineRunAll(s[1..], t);
    } else {
      assert s + t == t;
    }
  }

  /** A key line: `//#tr ` then a non-empty token without `\s` and nothing else
      yields that token. */
  lemma MatchKeyLine(key: string)
    requires key != [] && NoRegexSpace(key)
    ensures MatchKey(KeyPrefix + key) == Some(key)
  {
    var line := KeyPrefix + key;
    assert line[|KeyPrefix|..] == key + [];
    NonSpaceRunAll(key, []);
  }

  /** Everything `MatchKey` accepts has that shape, up to one final line terminator
      that cannot occur in a line read from a file. */
  lemma MatchKeyShape(line: string, key: string)
    requires MatchKey(line) == Some(key)
    ensures key != [] && NoRegexSpace(key)
    ensures KeyPrefix + key <= line && AtInputEnd(line[|KeyPrefix| + |key|..])
  {
    var rest := line[|KeyPrefix|..];
    assert line == KeyPrefix + rest;
    assert rest[|key|..] == line[|KeyPrefix| + |key|..];
  }

  /** Hence, for a line as `readAllLines` returns it (no `\n` and no `\r`), the key
      pattern matches exactly the lines `//#tr <token>`. The other line terminators
      are `\S` characters and end up inside the token. */
  lemma MatchKeyIff(line: string, key: string)
    requires '\n' !in line && '\r' !in line
    ensures MatchKey(line) == Some(key) <==> line == KeyPrefix + key && key != [] && NoRegexSpace(key)
  {
    if MatchKey(line) == Some(key) {
      MatchKeyShape(line, key);
      var rest := line[|KeyPrefix|..];
      var tail := line[|KeyPrefix| + |key|..];
      assert tail == rest[|key|..];
      assert tail == [];
      assert line == (KeyPrefix + key) + tail;
    }
    if line == KeyPrefix + key && key != [] && NoRegexSpace(key) {
      MatchKeyLine(key);
    }
  }

  /** A value line `// <lang> <text>` yields the language and the text verbatim,
      spaces at either end of the text included. */
  lemma MatchValueLine(lang: string, text: string)
    requires lang != [] && NoRegexSpace(lang)
    requires text != [] && NoLineTerminator(text)
    ensures MatchValue(ValuePrefix + lang + " " + text) == Some((lang, text))
  {
    var line := ValuePrefix + lang + " " + text;
    var rest := line[|ValuePrefix|..];
    assert rest == lang + (" " + text);
    NonSpaceRunAll(lang, " " + text);
    assert rest[|lang| + 1..] == text + [];
    LineRunAll(text, []);
  }

  /** Taking a prefix `a` and then a prefix `b` of the remainder takes the prefix `a + b`. */
  lemma PrefixStep(s: string, a: string, b: string)
    requires a <= s && b <= s[|a|..]
    ensures a + b <= s && s[|a + b|..] == s[|a|..][|b|..]
  {
    assert s == a + s[|a|..];
    assert s[|a|..] == b + s[|a|..][|b|..];
    assert s == (a + b) + s[|a|..][|b|..];
  }

  /** What `MatchValue` found, spelled out piece by piece. */
  lemma MatchValueParts(line: string, lang: string, text: string)
    requires MatchValue(line) == Some((lang, text))
    ensures ValuePrefix <= line
    ensures lang == NonSpaceRun(line[|ValuePrefix|..]) && lang != []
    ensures |lang| < |line[|ValuePrefix|..]| && line[|ValuePrefix|..][|lang|] == ' '
    ensures text == LineRun(line[|ValuePrefix|..][|lang| + 1..]) && text != []
    ensures AtInputEnd(line[|ValuePrefix|..][|lang| + 1..][|text|..])
  {
  }

  /** Everything `MatchValue` accepts has that shape, up to one final line terminator. */
  lemma MatchValueShape(line: string, lang: string, text: string)
    requires MatchValue(line) == Some((lang, text))
    ensures lang != [] && NoRegexSpace(lang)
    ensures text != [] && NoLineTerminator(text)
    ensures ValuePrefix + lang + " " + text <= line
    ensures AtInputEnd(line[|ValuePrefix| + |lang| + 1 + |text|..])
  {
    MatchValueParts(line, lang, text);
    var rest := line[|ValuePrefix|..];
    var tail := rest[|lang| + 1..];
    PrefixStep(line, ValuePrefix, lang);
    var a := ValuePrefix + lang;
    assert line[|a|..] == rest[|lang|..];
    assert " " <= line[|a|..];
    PrefixStep(line, a, " ");
    var b := a + " ";
    assert line[|b|..] == tail;
    PrefixStep(line, b, text);
    assert |b + text| == |ValuePrefix| + |lang| + 1 + |text|;
  }

  /** A final line terminator after the text is not part of it: `$` matches in front of it. */
  lemma MatchValueDropsFinalTerminator(lang: string, text: string, t: char)
    requires lang != [] && NoRegexSpace(lang)
    requires text != [] && NoLineTerminator(text)
    requires IsLineTerminator(t)
    ensures MatchValue(ValuePrefix + lang + " " + text + [t]) == Some((lang, text))
  {
    var line := ValuePrefix + lang + " " + text + [t];
    var rest := line[|ValuePrefix|..];
    assert rest == lang + (" " + text + [t]);
    NonSpaceRunAll(lang, " " + text + [t]);
    var tail := rest[|lang| + 1..];
    assert tail == text + [t];
    LineRunAll(text, [t]);
    assert tail[|text|..] == [t];
  }

  /** No line is both a key line and a value line, so the order of the two tests
      only matters for custom patterns. */
  lemma KeyAndValueDisjoint(line: string)
    ensures MatchKey(line).Some? ==> MatchValue(line).None?
  {
    if MatchKey(line).Some? {
      assert line[2] == KeyPrefix[2] == '#';
    }
  }
}
