/**
 * The line scanner of `loadSourceFile` as a pure two-state machine: between lines
 * the only state besides the store is the pending key (none, or a key K). The key
 * and value patterns are injected matchers, so that a custom pattern replaces the
 * default one completely.
 */
module Scanner {
  import opened Wrappers
  import opened Text
  import opened DefaultPatterns
  import opened OrderedMap
  import opened LocalizationStore

  /** The collector's configuration: the compiled key pattern (group 1), the compiled
      value pattern (groups 1 and 2) and the allowed language codes. */
  datatype Config = Config(
    keyPattern: string -> Option<string>,
    valuePattern: string -> Option<(string, string)>,
    allowed: seq<string>)

  /** A collector as built by its constructor with only the allow-list set. */
  function DefaultConfig(allowed: seq<string>): Config {
    Config(MatchKey, MatchValue, allowed)
  }

  datatype ScanState = ScanState(store: Store, pending: Option<string>, log: seq<Warning>)

  /** `key == null || key.isEmpty()`: no key a value line could attach to. */
  predicate NoKey(pending: Option<string>) {
    pending.None? || pending.value == ""
  }

  /** One line of the scan loop: trim the leading whitespace, then try the key
      pattern, then the value pattern, and otherwise clear the pending key. */
  function Step(cfg: Config, s: ScanState, line: string): ScanState {
    var t := TrimStart(line);
    match cfg.keyPattern(t)
    case Some(key) => s.(pending := Some(key))
    case None =>
      match cfg.valuePattern(t)
      case Some((lang, value)) =>
        if lang !in cfg.allowed then s
        else if NoKey(s.pending) then s.(log := s.log + [UnknownKeyValue(t)])
        else
          ScanState(AddTo(s.store, lang, s.pending.value, value), s.pending,
                    s.log + AddWarnings(s.store, lang, s.pending.value, value))
      case None => s.(pending := None)
  }

  /** The scan loop over the lines of one file, from a given state. */
  function ScanLines(cfg: Config, s: ScanState, lines: seq<string>): ScanState
    decreases |lines|
  {
    if lines == [] then s else ScanLines(cfg, Step(cfg, s, lines[0]), lines[1..])
  }

  /** `loadSourceFile` on the lines of a readable file: the pending key starts as
      null for every file. */
  function LoadFile(cfg: Config, store: Store, log: seq<Warning>, lines: seq<string>): ScanState {
    ScanLines(cfg, ScanState(store, None, log), lines)
  }

  /** What reading a source file gives: the three ways it is skipped, or its lines. */
  datatype SourceFile = Missing | NotAFile | ReadFailure | Readable(lines: seq<string>)

  /** `loadSourceFile(file)`: a file that is missing, not a regular file or cannot
      be read is skipped with a warning; otherwise its lines are scanned. */
  function LoadSource(cfg: Config, store: Store, log: seq<Warning>, file: SourceFile): ScanState {
    match file
    case Missing => ScanState(store, None, log + [SourceFileMissing])
    case NotAFile => ScanState(store, None, log + [SourceNotAFile])
    case ReadFailure => ScanState(store, None, log + [SourceReadFailed])
    case Readable(lines) => LoadFile(cfg, store, log, lines)
  }

  /** The files in the given order, each one scanned from a fresh pending key. */
  function LoadAll(cfg: Config, store: Store, log: seq<Warning>, files: seq<SourceFile>): ScanState
    decreases |files|
  {
    if files == [] then ScanState(store, None, log)
    else
      var s := LoadSource(cfg, store, log, files[0]);
      LoadAll(cfg, s.store, s.log, files[1..])
  }

  /** Loading a non-empty list of files loads the first one, then the rest. */
  lemma LoadAllFirst(cfg: Config, store: Store, log: seq<Warning>, files: seq<SourceFile>)
    requires files != []
    ensures LoadAll(cfg, store, log, files)
         == LoadAll(cfg, LoadSource(cfg, store, log, files[0]).store,
                    LoadSource(cfg, store, log, files[0]).log, files[1..])
  {
  }

  /** Loading two lists of files one after the other is loading their concatenation:
      each file starts from the store and the log the previous files left. */
  lemma {:induction false} LoadAllAppend(cfg: Config, store: Store, log: seq<Warning>,
                                         a: seq<SourceFile>, b: seq<SourceFile>)
    ensures LoadAll(cfg, store, log, a + b)
         == LoadAll(cfg, LoadAll(cfg, store, log, a).store, LoadAll(cfg, store, log, a).log, b)
    decreases |a|
  {
    if a != [] {
      var s := LoadSource(cfg, store, log, a[0]);
      assert (a + b)[0] == a[0] && (a + b)[1..] == a[1..] + b;
      LoadAllAppend(cfg, s.store, s.log, a[1..], b);
    } else {
      assert a + b == b;
    }
  }

  function ValueLine(lang: string, text: string): string {
    ValuePrefix + lang + " " + text
  }

  // ----- single lines under the default patterns -----

  /** A key line (with any indentation) makes its token the pending key, replacing
      any earlier one, and records nothing. */
  lemma StepKeyLine(allowed: seq<string>, s: ScanState, indent: string, key: string)
    requires AllJavaWhitespace(indent)
    requires key != [] && NoRegexSpace(key)
    ensures Step(DefaultConfig(allowed), s, indent + KeyPrefix + key) == s.(pending := Some(key))
  {
    var line := indent + KeyPrefix + key;
    assert line == indent + (KeyPrefix + key);
    TrimStartIndented(indent, KeyPrefix + key);
    TrimStartUnchanged(KeyPrefix + key);
    assert TrimStart(line) == KeyPrefix + key;
    MatchKeyLine(key);
    assert DefaultConfig(allowed).keyPattern(TrimStart(line)) == Some(key);
  }

  /** The value line, once trimmed, is seen by the value pattern and not by the key pattern. */
  lemma TrimmedValueLine(indent: string, lang: string, text: string)
    requires AllJavaWhitespace(indent)
    requires lang != [] && NoRegexSpace(lang)
    requires text != [] && NoLineTerminator(text)
    ensures TrimStart(indent + ValueLine(lang, text)) == ValueLine(lang, text)
    ensures MatchKey(ValueLine(lang, text)).None?
    ensures MatchValue(ValueLine(lang, text)) == Some((lang, text))
  {
    TrimStartIndented(indent, ValueLine(lang, text));
    TrimStartUnchanged(ValueLine(lang, text));
    MatchValueLine(lang, text);
    KeyAndValueDisjoint(ValueLine(lang, text));
  }

  /** A value line for a language outside the allow-list is a plain comment: the
      state, pending key included, is unchanged. */
  lemma StepForeignValue(allowed: seq<string>, s: ScanState, indent: string, lang: string, text: string)
    requires AllJavaWhitespace(indent)
    requires lang != [] && NoRegexSpace(lang)
    requires text != [] && NoLineTerminator(text)
    requires lang !in allowed
    ensures Step(DefaultConfig(allowed), s, indent + ValueLine(lang, text)) == s
  {
    TrimmedValueLine(indent, lang, text);
  }

  /** A value line for an allowed language with no pending key records nothing and
      keeps the pending key; it is reported. */
  lemma StepOrphanValue(allowed: seq<string>, s: ScanState, indent: string, lang: string, text: string)
    requires AllJavaWhitespace(indent)
    requires lang != [] && NoRegexSpace(lang)
    requires text != [] && NoLineTerminator(text)
    requires lang in allowed && NoKey(s.pending)
    ensures Step(DefaultConfig(allowed), s, indent + ValueLine(lang, text))
         == s.(log := s.log + [UnknownKeyValue(ValueLine(lang, text))])
  {
    TrimmedValueLine(indent, lang, text);
  }

  /** A value line for an allowed language under pending key K records (lang, K,
      text), and K stays pending for the next language. */
  lemma StepRecordValue(allowed: seq<string>, s: ScanState, indent: string, lang: string, text: string)
    requires AllJavaWhitespace(indent)
    requires lang != [] && NoRegexSpace(lang)
    requires text != [] && NoLineTerminator(text)
    requires lang in allowed && !NoKey(s.pending)
    ensures Step(DefaultConfig(allowed), s, indent + ValueLine(lang, text))
         == ScanState(AddTo(s.store, lang, s.pending.value, text), s.pending,
                      s.log + AddWarnings(s.store, lang, s.pending.value, text))
  {
    TrimmedValueLine(indent, lang, text);
  }

  /** Under the default patterns, a line that does not start with `//` once trimmed
      (a line of code, say) ends a block: the pending key is cleared and nothing else
      changes. */
  lemma StepCodeLine(allowed: seq<string>, s: ScanState, line: string)
    requires !("//" <= TrimStart(line))
    ensures Step(DefaultConfig(allowed), s, line) == s.(pending := None)
  {
    var t := TrimStart(line);
    assert "//" <= KeyPrefix && "//" <= ValuePrefix;
    assert MatchKey(t).None?;
    assert MatchValue(t).None?;
  }

  /** In particular a blank line, or one made only of whitespace, ends a block. */
  lemma StepBlankLine(allowed: seq<string>, s: ScanState, line: string)
    requires AllJavaWhitespace(line)
    ensures Step(DefaultConfig(allowed), s, line) == s.(pending := None)
  {
    TrimStartIndented(line, []);
    assert line + [] == line;
  }

  // ----- whole scans -----

  /** Scanning two pieces one after the other is scanning their concatenation. */
  lemma {:induction false} ScanLinesAppend(cfg: Config, s: ScanState, a: seq<string>, b: seq<string>)
    ensures ScanLines(cfg, s, a + b) == ScanLines(cfg, ScanLines(cfg, s, a), b)
    decreases |a|
  {
    if a != [] {
      assert (a + b)[1..] == a[1..] + b;
      ScanLinesAppend(cfg, Step(cfg, s, a[0]), a[1..], b);
    } else {
      assert a + b == b;
    }
  }

  predicate OnlyAllowed(store: Store, allowed: seq<string>) {
    forall l :: l in store ==> l in allowed
  }

  /** The scan creates language maps only for allowed languages. */
  lemma {:induction false} ScanKeepsAllowed(cfg: Config, s: ScanState, lines: seq<string>)
    requires OnlyAllowed(s.store, cfg.allowed)
    ensures OnlyAllowed(ScanLines(cfg, s, lines).store, cfg.allowed)
    decreases |lines|
  {
    if lines != [] {
      ScanKeepsAllowed(cfg, Step(cfg, s, lines[0]), lines[1..]);
    }
  }

  /** The scan never makes a language map hold a key twice. */
  lemma {:induction false} ScanKeepsValid(cfg: Config, s: ScanState, lines: seq<string>)
    requires Valid(s.store)
    ensures Valid(ScanLines(cfg, s, lines).store)
    decreases |lines|
  {
    if lines != [] {
      var t := TrimStart(lines[0]);
      if cfg.keyPattern(t).None? && cfg.valuePattern(t).Some? && !NoKey(s.pending) {
        var (lang, value) := cfg.valuePattern(t).value;
        AddToValid(s.store, lang, s.pending.value, value);
      }
      ScanKeepsValid(cfg, Step(cfg, s, lines[0]), lines[1..]);
    }
  }

  /** Across all files, only allowed languages get a map, and no map holds a key twice. */
  lemma {:induction false} LoadAllKeeps(cfg: Config, store: Store, log: seq<Warning>, files: seq<SourceFile>)
    requires OnlyAllowed(store, cfg.allowed) && Valid(store)
    ensures OnlyAllowed(LoadAll(cfg, store, log, files).store, cfg.allowed)
    ensures Valid(LoadAll(cfg, store, log, files).store)
    decreases |files|
  {
    if files != [] {
      var s := LoadSource(cfg, store, log, files[0]);
      if files[0].Readable? {
        ScanKeepsAllowed(cfg, ScanState(store, None, log), files[0].lines);
        ScanKeepsValid(cfg, ScanState(store, None, log), files[0].lines);
      }
      LoadAllKeeps(cfg, s.store, s.log, files[1..]);
    }
  }

  // ----- multi-language blocks -----

  /** Well-formed value lines for allowed languages. */
  predicate GoodValues(allowed: seq<string>, vs: seq<(string, string)>) {
    forall i :: 0 <= i < |vs| ==>
      vs[i].0 in allowed && vs[i].0 != [] && NoRegexSpace(vs[i].0)
      && vs[i].1 != [] && NoLineTerminator(vs[i].1)
  }

  function ValueLines(vs: seq<(string, string)>): (r: seq<string>)
    ensures |r| == |vs|
  {
    if vs == [] then [] else [ValueLine(vs[0].0, vs[0].1)] + ValueLines(vs[1..])
  }

  /** The store after recording each (language, text) under one key, in order. */
  function RecordAll(store: Store, key: string, vs: seq<(string, string)>): Store
    decreases |vs|
  {
    if vs == [] then store else RecordAll(AddTo(store, vs[0].0, key, vs[0].1), key, vs[1..])
  }

  /** Consecutive value lines under pending key K each record their text under K,
      and K is still pending afterwards. */
  lemma {:induction false} ValueBlock(allowed: seq<string>, s: ScanState, vs: seq<(string, string)>)
    requires !NoKey(s.pending)
    requires GoodValues(allowed, vs)
    ensures ScanLines(DefaultConfig(allowed), s, ValueLines(vs)).store == RecordAll(s.store, s.pending.value, vs)
    ensures ScanLines(DefaultConfig(allowed), s, ValueLines(vs)).pending == s.pending
    decreases |vs|
  {
    if vs != [] {
      var cfg := DefaultConfig(allowed);
      var line := ValueLine(vs[0].0, vs[0].1);
      assert [] + line == line;
      StepRecordValue(allowed, s, [], vs[0].0, vs[0].1);
      var s' := Step(cfg, s, line);
      assert s'.store == AddTo(s.store, vs[0].0, s.pending.value, vs[0].1);
      assert s'.pending == s.pending;
      assert GoodValues(allowed, vs[1..]) by {
        forall i | 0 <= i < |vs[1..]| ensures vs[1..][i] == vs[i + 1] { }
      }
      ValueBlock(allowed, s', vs[1..]);
      assert ValueLines(vs) == [line] + ValueLines(vs[1..]);
      assert ScanLines(cfg, s, ValueLines(vs)) == ScanLines(cfg, s', ValueLines(vs[1..]));
    }
  }

  predicate DistinctLanguages(vs: seq<(string, string)>) {
    forall i, j :: 0 <= i < j < |vs| ==> vs[i].0 != vs[j].0
  }

  /** Recording a block with one line per language leaves each language's text under
      the key and every other (language, key) pair as it was. */
  lemma {:induction false} RecordAllGet(store: Store, key: string, vs: seq<(string, string)>, l: string, k: string)
    requires DistinctLanguages(vs)
    ensures Get(RecordAll(store, key, vs), l, k)
         == if k == key && exists i :: 0 <= i < |vs| && vs[i].0 == l
            then Some(TextFor(vs, l)) else Get(store, l, k)
    decreases |vs|
  {
    if vs != [] {
      var store' := AddTo(store, vs[0].0, key, vs[0].1);
      assert DistinctLanguages(vs[1..]) by {
        forall i, j | 0 <= i < j < |vs[1..]| ensures vs[1..][i].0 != vs[1..][j].0 {
          assert vs[1..][i] == vs[i + 1] && vs[1..][j] == vs[j + 1];
        }
      }
      RecordAllGet(store', key, vs[1..], l, k);
      AddToGet(store, vs[0].0, key, vs[0].1, l, k);
      if k == key && l == vs[0].0 {
        assert forall i :: 0 <= i < |vs[1..]| ==> vs[1..][i].0 != l by {
          forall i | 0 <= i < |vs[1..]| ensures vs[1..][i].0 != l {
            assert vs[1..][i] == vs[i + 1];
          }
        }
      } else if k == key {
        if exists i :: 0 <= i < |vs| && vs[i].0 == l {
          var i :| 0 <= i < |vs| && vs[i].0 == l;
          assert vs[1..][i - 1].0 == l;
        }
        if exists i :: 0 <= i < |vs[1..]| && vs[1..][i].0 == l {
          var i :| 0 <= i < |vs[1..]| && vs[1..][i].0 == l;
          assert vs[i + 1].0 == l;
        }
      }
    }
  }

  /** The text given for language `l` in a block (the first one, if several). */
  function TextFor(vs: seq<(string, string)>, l: string): string
    requires exists i :: 0 <= i < |vs| && vs[i].0 == l
  {
    if vs[0].0 == l then vs[0].1
    else
      var i :| 0 <= i < |vs| && vs[i].0 == l;
      assert vs[1..][i - 1].0 == l;
      TextFor(vs[1..], l)
  }

  /** A key line followed directly by one value line per allowed language yields
      exactly one entry per language under that key, and nothing else changes. */
  lemma KeyBlock(allowed: seq<string>, store: Store, log: seq<Warning>, key: string,
                 vs: seq<(string, string)>, l: string, k: string)
    requires key != [] && NoRegexSpace(key)
    requires GoodValues(allowed, vs) && DistinctLanguages(vs)
    ensures Get(LoadFile(DefaultConfig(allowed), store, log, [KeyPrefix + key] + ValueLines(vs)).store, l, k)
         == if k == key && exists i :: 0 <= i < |vs| && vs[i].0 == l
            then Some(TextFor(vs, l)) else Get(store, l, k)
  {
    var cfg := DefaultConfig(allowed);
    var s0 := ScanState(store, None, log);
    var keyLine := KeyPrefix + key;
    StepKeyLine(allowed, s0, [], key);
    assert [] + KeyPrefix + key == keyLine;
    var s1 := s0.(pending := Some(key));
    assert ScanLines(cfg, s0, [keyLine]) == ScanLines(cfg, s1, []) == s1;
    ScanLinesAppend(cfg, s0, [keyLine], ValueLines(vs));
    ValueBlock(allowed, s1, vs);
    var result := ScanLines(cfg, s1, ValueLines(vs));
    assert result.store == RecordAll(store, key, vs);
    RecordAllGet(store, key, vs, l, k);
  }
}
