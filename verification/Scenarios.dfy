/**
 * Short inputs for the collector under the default patterns, stated for any key,
 * languages and texts of the right shape: a value line for a language outside the
 * allow-list inside a block, a value line with no key, a blank line ending a block,
 * a key declared again in a later file, and the file for an empty map.
 */
module Scenarios {
  import opened Wrappers
  import opened Text
  import opened DefaultPatterns
  import opened OrderedMap
  import opened LocalizationStore
  import opened Scanner
  import opened LanguageFile

  /** A language code and a text that the default value pattern captures whole. */
  predicate GoodValue(lang: string, text: string) {
    lang != [] && NoRegexSpace(lang) && text != [] && NoLineTerminator(text)
  }

  lemma ScanCons(cfg: Config, s: ScanState, line: string, rest: seq<string>)
    ensures ScanLines(cfg, s, [line] + rest) == ScanLines(cfg, Step(cfg, s, line), rest)
  {
    assert ([line] + rest)[1..] == rest;
  }

  lemma ScanKey(allowed: seq<string>, s: ScanState, key: string, rest: seq<string>)
    requires key != [] && NoRegexSpace(key)
    ensures ScanLines(DefaultConfig(allowed), s, [KeyPrefix + key] + rest)
         == ScanLines(DefaultConfig(allowed), s.(pending := Some(key)), rest)
  {
    assert [] + KeyPrefix + key == KeyPrefix + key;
    StepKeyLine(allowed, s, [], key);
    ScanCons(DefaultConfig(allowed), s, KeyPrefix + key, rest);
  }

  lemma ScanForeign(allowed: seq<string>, s: ScanState, lang: string, text: string, rest: seq<string>)
    requires GoodValue(lang, text) && lang !in allowed
    ensures ScanLines(DefaultConfig(allowed), s, [ValueLine(lang, text)] + rest)
         == ScanLines(DefaultConfig(allowed), s, rest)
  {
    assert [] + ValueLine(lang, text) == ValueLine(lang, text);
    StepForeignValue(allowed, s, [], lang, text);
    ScanCons(DefaultConfig(allowed), s, ValueLine(lang, text), rest);
  }

  lemma ScanRecord(allowed: seq<string>, s: ScanState, lang: string, text: string, rest: seq<string>)
    requires GoodValue(lang, text) && lang in allowed && !NoKey(s.pending)
    ensures ScanLines(DefaultConfig(allowed), s, [ValueLine(lang, text)] + rest)
         == ScanLines(DefaultConfig(allowed),
                      ScanState(AddTo(s.store, lang, s.pending.value, text), s.pending,
                                s.log + AddWarnings(s.store, lang, s.pending.value, text)),
                      rest)
  {
    assert [] + ValueLine(lang, text) == ValueLine(lang, text);
    StepRecordValue(allowed, s, [], lang, text);
    ScanCons(DefaultConfig(allowed), s, ValueLine(lang, text), rest);
  }

  lemma ScanOrphan(allowed: seq<string>, s: ScanState, lang: string, text: string, rest: seq<string>)
    requires GoodValue(lang, text) && lang in allowed && NoKey(s.pending)
    ensures ScanLines(DefaultConfig(allowed), s, [ValueLine(lang, text)] + rest)
         == ScanLines(DefaultConfig(allowed), s.(log := s.log + [UnknownKeyValue(ValueLine(lang, text))]), rest)
  {
    assert [] + ValueLine(lang, text) == ValueLine(lang, text);
    StepOrphanValue(allowed, s, [], lang, text);
    ScanCons(DefaultConfig(allowed), s, ValueLine(lang, text), rest);
  }

  lemma ScanBlank(allowed: seq<string>, s: ScanState, blank: string, rest: seq<string>)
    requires AllJavaWhitespace(blank)
    ensures ScanLines(DefaultConfig(allowed), s, [blank] + rest)
         == ScanLines(DefaultConfig(allowed), s.(pending := None), rest)
  {
    StepBlankLine(allowed, s, blank);
    ScanCons(DefaultConfig(allowed), s, blank, rest);
  }

  /** A value line for a language outside the allow-list inside a block is skipped
      and keeps the key pending for the allowed language that follows. */
  lemma ForeignLanguageKeepsKey(allowed: seq<string>, store: Store, log: seq<Warning>, key: string,
                                foreign: string, foreignText: string, lang: string, text: string)
    requires key != [] && NoRegexSpace(key)
    requires GoodValue(foreign, foreignText) && foreign !in allowed
    requires GoodValue(lang, text) && lang in allowed
    ensures LoadFile(DefaultConfig(allowed), store, log,
                     [KeyPrefix + key, ValueLine(foreign, foreignText), ValueLine(lang, text)]).store
         == AddTo(store, lang, key, text)
  {
    var k, v1, v2 := KeyPrefix + key, ValueLine(foreign, foreignText), ValueLine(lang, text);
    var s0 := ScanState(store, None, log);
    var s1 := s0.(pending := Some(key));
    assert [k, v1, v2] == [k] + ([v1] + ([v2] + []));
    ScanKey(allowed, s0, key, [v1, v2]);
    ScanForeign(allowed, s1, foreign, foreignText, [v2]);
    ScanRecord(allowed, s1, lang, text, []);
  }

  /** A value line with no key before it records nothing and is reported. */
  lemma ValueWithoutKey(allowed: seq<string>, store: Store, log: seq<Warning>, lang: string, text: string)
    requires GoodValue(lang, text) && lang in allowed
    ensures LoadFile(DefaultConfig(allowed), store, log, [ValueLine(lang, text)])
         == ScanState(store, None, log + [UnknownKeyValue(ValueLine(lang, text))])
  {
    var v := ValueLine(lang, text);
    assert [v] == [v] + [];
    ScanOrphan(allowed, ScanState(store, None, log), lang, text, []);
  }

  /** A blank (or whitespace-only) line between the key and the value ends the
      block, so the value line is reported as having no key. */
  lemma BlankLineEndsBlock(allowed: seq<string>, store: Store, log: seq<Warning>, key: string,
                           blank: string, lang: string, text: string)
    requires key != [] && NoRegexSpace(key)
    requires AllJavaWhitespace(blank)
    requires GoodValue(lang, text) && lang in allowed
    ensures LoadFile(DefaultConfig(allowed), store, log, [KeyPrefix + key, blank, ValueLine(lang, text)])
         == ScanState(store, None, log + [UnknownKeyValue(ValueLine(lang, text))])
  {
    var k, v := KeyPrefix + key, ValueLine(lang, text);
    var s0 := ScanState(store, None, log);
    assert [k, blank, v] == [k] + ([blank] + ([v] + []));
    ScanKey(allowed, s0, key, [blank, v]);
    ScanBlank(allowed, s0.(pending := Some(key)), blank, [v]);
    ScanOrphan(allowed, s0, lang, text, []);
  }

  /** A file holding one key line and one value line records that one text. */
  lemma OneEntryFile(allowed: seq<string>, store: Store, log: seq<Warning>, key: string, lang: string, text: string)
    requires key != [] && NoRegexSpace(key)
    requires GoodValue(lang, text) && lang in allowed
    ensures LoadFile(DefaultConfig(allowed), store, log, [KeyPrefix + key, ValueLine(lang, text)])
         == ScanState(AddTo(store, lang, key, text), Some(key), log + AddWarnings(store, lang, key, text))
  {
    var k, v := KeyPrefix + key, ValueLine(lang, text);
    var s0 := ScanState(store, None, log);
    assert [k, v] == [k] + ([v] + []);
    ScanKey(allowed, s0, key, [v]);
    ScanRecord(allowed, s0.(pending := Some(key)), lang, text, []);
  }

  /** A key declared again in a later file overwrites the earlier text, and the
      overwrite is reported with both texts. */
  lemma RedeclaredKeyInLaterFile(allowed: seq<string>, key: string, lang: string, first: string, second: string)
    requires key != [] && NoRegexSpace(key)
    requires GoodValue(lang, first) && GoodValue(lang, second) && lang in allowed
    ensures LoadAll(DefaultConfig(allowed), map[], [],
                    [Readable([KeyPrefix + key, ValueLine(lang, first)]),
                     Readable([KeyPrefix + key, ValueLine(lang, second)])])
         == ScanState(map[lang := [Entry(key, second)]], None, [DuplicatedKey(key, lang, first, second)])
  {
    var cfg := DefaultConfig(allowed);
    var f1, f2 := [KeyPrefix + key, ValueLine(lang, first)], [KeyPrefix + key, ValueLine(lang, second)];
    var firstStore := map[lang := [Entry(key, first)]];
    OneEntryFile(allowed, map[], [], key, lang, first);
    assert AddTo(map[], lang, key, first) == firstStore;
    assert AddWarnings(map[], lang, key, first) == [];
    OneEntryFile(allowed, firstStore, [], key, lang, second);
    assert Get(firstStore, lang, key) == Some(first);
    assert [Entry(key, first)][1..] == [];
    assert Put([Entry(key, first)], key, second) == [Entry(key, second)];
    assert AddTo(firstStore, lang, key, second) == map[lang := [Entry(key, second)]];
    var files := [Readable(f1), Readable(f2)];
    LoadAllFirst(cfg, map[], [], files);
    assert files[1..] == [Readable(f2)];
    LoadAllFirst(cfg, firstStore, [], files[1..]);
    assert files[1..][1..] == [];
  }

  /** An empty map gives the header alone. */
  lemma EmptyLanguageFile(language: string, timeText: string)
    ensures MakeLanguageFile([], Some(language), timeText)
         == Header + "\n" + LanguagePrefix + language + "\n" + TimePrefix + timeText + "\n"
  {
    assert EntriesText([]) == "";
  }
}
