/**
 * The serializer `makeLanguageFile`: a header, then one `key=value` line per entry
 * in insertion order, every line ending in a newline. A small reader of the same
 * format is defined beside it so that the layout can be stated as a round trip.
 */
module LanguageFile {
  import opened Wrappers
  import opened OrderedMap

  const Header := "# Auto-generated language file. Don't edit!"
  const LanguagePrefix := "# The language is "
  const TimePrefix := "# Last updated time is "

  /** `makeLanguageFile(value, languageName)`, with the formatted wall-clock time
      passed in as `timeText`. */
  function MakeLanguageFile(m: LangMap, languageName: Option<string>, timeText: string): string {
    Header + "\n"
    + (if languageName.Some? then LanguagePrefix + languageName.value + "\n" else "")
    + TimePrefix + timeText + "\n"
    + EntriesText(m)
  }

  /** The `forEach` over the entries, appending `k=v\n` for each in order. */
  function EntriesText(m: LangMap): string {
    if m == [] then "" else m[0].key + "=" + m[0].value + "\n" + EntriesText(m[1..])
  }

  // ----- the layout, stated through lines -----

  /** The header lines: the marker, the language line only when a name is given,
      and the time line. */
  function HeaderLines(languageName: Option<string>, timeText: string): (r: seq<string>)
    ensures |r| == if languageName.Some? then 3 else 2
    ensures r[0] == Header && r[|r| - 1] == TimePrefix + timeText
  {
    [Header]
    + (if languageName.Some? then [LanguagePrefix + languageName.value] else [])
    + [TimePrefix + timeText]
  }

  function EntryLines(m: LangMap): (r: seq<string>)
    ensures |r| == |m|
    ensures forall i :: 0 <= i < |m| ==> r[i] == m[i].key + "=" + m[i].value
  {
    if m == [] then [] else [m[0].key + "=" + m[0].value] + EntryLines(m[1..])
  }

  /** Lines, each followed by a newline. */
  function JoinLines(lines: seq<string>): string {
    if lines == [] then "" else lines[0] + "\n" + JoinLines(lines[1..])
  }

  lemma {:induction false} JoinLinesAppend(a: seq<string>, b: seq<string>)
    ensures JoinLines(a + b) == JoinLines(a) + JoinLines(b)
  {
    if a != [] {
      assert (a + b)[1..] == a[1..] + b;
      JoinLinesAppend(a[1..], b);
    } else {
      assert a + b == b;
    }
  }

  lemma {:induction false} EntriesTextLines(m: LangMap)
    ensures EntriesText(m) == JoinLines(EntryLines(m))
  {
    if m != [] {
      EntriesTextLines(m[1..]);
    }
  }

  lemma JoinHeader(first: string, middle: seq<string>, lastA: string, lastB: string, rest: seq<string>)
    ensures JoinLines([first] + middle + [lastA + lastB] + rest)
         == first + "\n" + JoinLines(middle) + lastA + lastB + "\n" + JoinLines(rest)
  {
    JoinLinesAppend([first] + middle + [lastA + lastB], rest);
    JoinLinesAppend([first] + middle, [lastA + lastB]);
    JoinLinesAppend([first], middle);
    assert JoinLines([first]) == first + "\n";
    assert JoinLines([lastA + lastB]) == lastA + lastB + "\n";
  }

  /** The output is exactly the header lines followed by one `key=value` line per
      entry, in insertion order, each terminated by a newline; an empty map gives
      the header alone. */
  lemma MakeLanguageFileLayout(m: LangMap, languageName: Option<string>, timeText: string)
    ensures MakeLanguageFile(m, languageName, timeText)
         == JoinLines(HeaderLines(languageName, timeText) + EntryLines(m))
  {
    var middle := if languageName.Some? then [LanguagePrefix + languageName.value] else [];
    EntriesTextLines(m);
    JoinHeader(Header, middle, TimePrefix, timeText, EntryLines(m));
    if languageName.Some? {
      assert JoinLines(middle) == LanguagePrefix + languageName.value + "\n";
    }
    assert HeaderLines(languageName, timeText) == [Header] + middle + [TimePrefix + timeText];
  }

  // ----- a reader of the format -----

  /** The longest prefix of `s` without the character `c`. */
  function Until(s: string, c: char): (r: string)
    ensures r <= s && c !in r
    ensures |r| < |s| ==> s[|r|] == c
  {
    if s == [] || s[0] == c then [] else [s[0]] + Until(s[1..], c)
  }

  lemma {:induction false} UntilAll(s: string, c: char, t: string)
    requires c !in s
    requires t == [] || t[0] == c
    ensures Until(s + t, c) == s
  {
    if s != [] {
      assert (s + t)[1..] == s[1..] + t;
      UntilAll(s[1..], c, t);
    } else {
      assert s + t == t;
    }
  }

  /** Split text into lines at each newline; a final newline ends the last line. */
  function SplitLines(s: string): seq<string>
    decreases |s|
  {
    if s == [] then []
    else
      var line := Until(s, '\n');
      if |line| == |s| then [s] else [line] + SplitLines(s[|line| + 1..])
  }

  predicate NoNewline(s: string) {
    '\n' !in s
  }

  /** Splitting joined lines gives the lines back when none of them holds a newline. */
  lemma {:induction false} SplitJoinLines(lines: seq<string>)
    requires NoNewlines(lines)
    ensures SplitLines(JoinLines(lines)) == lines
  {
    if lines != [] {
      var s := JoinLines(lines);
      assert s == lines[0] + ("\n" + JoinLines(lines[1..]));
      UntilAll(lines[0], '\n', "\n" + JoinLines(lines[1..]));
      assert s[|lines[0]| + 1..] == JoinLines(lines[1..]);
      SplitJoinLines(lines[1..]);
    }
  }

  /** A `key=value` line, split at its first `=`. */
  function ParseEntry(line: string): Option<Entry> {
    var key := Until(line, '=');
    if |key| == |line| then None else Some(Entry(key, line[|key| + 1..]))
  }

  /** The entries of a file's lines: comment lines (starting with `#`) and lines
      without `=` are skipped. */
  function ParseEntries(lines: seq<string>): seq<Entry> {
    if lines == [] then []
    else if |lines[0]| > 0 && lines[0][0] == '#' then ParseEntries(lines[1..])
    else
      match ParseEntry(lines[0])
      case Some(e) => [e] + ParseEntries(lines[1..])
      case None => ParseEntries(lines[1..])
  }

  function ReadLanguageFile(text: string): seq<Entry> {
    ParseEntries(SplitLines(text))
  }

  /** Keys and values the format can carry: no newline anywhere, and keys neither
      hold `=` nor start with `#`. */
  predicate Representable(m: LangMap) {
    forall i :: 0 <= i < |m| ==>
      NoNewline(m[i].key) && NoNewline(m[i].value) && '=' !in m[i].key
      && (|m[i].key| == 0 || m[i].key[0] != '#')
  }

  lemma {:induction false} ParseEntryLines(m: LangMap)
    requires Representable(m)
    ensures ParseEntries(EntryLines(m)) == m
  {
    if m != [] {
      var line := m[0].key + "=" + m[0].value;
      assert line == m[0].key + ("=" + m[0].value);
      UntilAll(m[0].key, '=', "=" + m[0].value);
      assert line[|m[0].key| + 1..] == m[0].value;
      assert Representable(m[1..]) by {
        forall i | 0 <= i < |m[1..]| ensures m[1..][i] == m[i + 1] { }
      }
      ParseEntryLines(m[1..]);
    }
  }

  lemma {:induction false} ParseHeaderLines(h: seq<string>, rest: seq<string>)
    requires CommentLines(h)
    ensures ParseEntries(h + rest) == ParseEntries(rest)
  {
    if h != [] {
      assert (h + rest)[0] == h[0];
      assert (h + rest)[1..] == h[1..] + rest;
      ParseHeaderLines(h[1..], rest);
    } else {
      assert h + rest == rest;
    }
  }

  /** Lines none of which holds a newline. */
  predicate NoNewlines(lines: seq<string>) {
    forall i :: 0 <= i < |lines| ==> NoNewline(lines[i])
  }

  /** Lines that all start with `#`, which the reader skips. */
  predicate CommentLines(lines: seq<string>) {
    forall i :: 0 <= i < |lines| ==> |lines[i]| > 0 && lines[i][0] == '#'
  }

  lemma NoNewlinesAppend(a: seq<string>, b: seq<string>)
    requires NoNewlines(a) && NoNewlines(b)
    ensures NoNewlines(a + b)
  {
    forall i | 0 <= i < |a + b| ensures NoNewline((a + b)[i]) {
      if i < |a| { assert (a + b)[i] == a[i]; } else { assert (a + b)[i] == b[i - |a|]; }
    }
  }

  /** Every header line is a comment line without a newline. */
  lemma HeaderLinesComments(languageName: Option<string>, timeText: string)
    requires languageName.Some? ==> NoNewline(languageName.value)
    requires NoNewline(timeText)
    ensures NoNewlines(HeaderLines(languageName, timeText))
    ensures CommentLines(HeaderLines(languageName, timeText))
  {
    var h := HeaderLines(languageName, timeText);
    assert h[0] == Header;
    assert NoNewline(Header);
    var t := TimePrefix + timeText;
    assert NoNewline(TimePrefix);
    assert t[0] == '#' && NoNewline(t);
    if languageName.Some? {
      var l := LanguagePrefix + languageName.value;
      assert NoNewline(LanguagePrefix);
      assert l[0] == '#' && NoNewline(l);
      assert h == [Header, l, t];
    } else {
      assert h == [Header, t];
    }
  }

  lemma EntryLinesNoNewline(m: LangMap)
    requires Representable(m)
    ensures NoNewlines(EntryLines(m))
  {
    forall i | 0 <= i < |m| ensures NoNewline(EntryLines(m)[i]) {
      assert EntryLines(m)[i] == m[i].key + "=" + m[i].value;
    }
  }

  /** Reading a generated file back yields the same entries in the same order. */
  lemma LanguageFileRoundTrip(m: LangMap, languageName: Option<string>, timeText: string)
    requires Representable(m)
    requires languageName.Some? ==> NoNewline(languageName.value)
    requires NoNewline(timeText)
    ensures ReadLanguageFile(MakeLanguageFile(m, languageName, timeText)) == m
  {
    var h := HeaderLines(languageName, timeText);
    var e := EntryLines(m);
    var text := MakeLanguageFile(m, languageName, timeText);
    MakeLanguageFileLayout(m, languageName, timeText);
    assert text == JoinLines(h + e);
    HeaderLinesComments(languageName, timeText);
    EntryLinesNoNewline(m);
    NoNewlinesAppend(h, e);
    SplitJoinLines(h + e);
    assert SplitLines(text) == h + e;
    ParseHeaderLines(h, e);
    ParseEntryLines(m);
  }
}
