/**
 * `GenerateLanguageFilesTask.LocalizationTextCollector` as a class whose fields the
 * methods update in place, and the task action that drives it. The methods are
 * proved against the value-level functions of the Store, Scanner and LanguageFile
 * modules, where the properties of the collector are proved.
 */
module Collector {
  import opened Wrappers
  import opened Text
  import opened DefaultPatterns
  import opened OrderedMap
  import opened LocalizationStore
  import opened Scanner
  import opened LanguageFile

  /** One generated file per language in the store, keyed by language code. The
      clock is read anew for every file, so `timeFor(l)` is the time text that the
      file of language `l` was stamped with. */
  function LanguageFiles(store: Store, timeFor: string -> string): map<string, string> {
    map l | l in store :: MakeLanguageFile(store[l], Some(l), timeFor(l))
  }

  class LocalizationTextCollector {
    var keyPattern: string -> Option<string>
    var valuePattern: string -> Option<(string, string)>
    var allowedLanguageCodes: seq<string>
    /** For each language, its insertion-ordered map from key to text. */
    var collector: Store
    /** What the collector has reported through the logger. */
    var warnings: seq<Warning>

    ghost predicate Valid()
      reads this
    {
      LocalizationStore.Valid(collector)
    }

    function CurrentConfig(): Config
      reads this
    {
      Config(keyPattern, valuePattern, allowedLanguageCodes)
    }

    /** An empty store, the default patterns and an empty allow-list. */
    constructor ()
      ensures Valid()
      ensures keyPattern == MatchKey && valuePattern == MatchValue
      ensures allowedLanguageCodes == [] && collector == map[] && warnings == []
    {
      keyPattern := MatchKey;
      valuePattern := MatchValue;
      allowedLanguageCodes := [];
      collector := map[];
      warnings := [];
    }

    /** Replaces the key pattern (compiled elsewhere). */
    method SetKeyPattern(pattern: string -> Option<string>)
      modifies this`keyPattern
      ensures keyPattern == pattern
    {
      keyPattern := pattern;
    }

    /** Replaces the value pattern (compiled elsewhere). */
    method SetValuePattern(pattern: string -> Option<(string, string)>)
      modifies this`valuePattern
      ensures valuePattern == pattern
    {
      valuePattern := pattern;
    }

    method SetAllowedLanguageCodes(codes: seq<string>)
      modifies this`allowedLanguageCodes
      ensures allowedLanguageCodes == codes
    {
      allowedLanguageCodes := codes;
    }

    /** `getLocalizationMapFor`: the language's map, created empty on first access. */
    method GetLocalizationMapFor(language: string) returns (m: LangMap)
      requires Valid()
      modifies this`collector
      ensures Valid()
      ensures collector == Touch(old(collector), language)
      ensures m == MapFor(old(collector), language) && m == collector[language]
    {
      if language !in collector {
        collector := collector[language := []];
      }
      m := collector[language];
    }

    /** `add`: put the value under the key in the language's map, reporting an
        overwrite of an existing value. */
    method Add(language: string, key: string, value: string)
      requires Valid()
      modifies this`collector, this`warnings
      ensures Valid()
      ensures collector == AddTo(old(collector), language, key, value)
      ensures warnings == old(warnings) + AddWarnings(old(collector), language, key, value)
    {
      var languageMap := GetLocalizationMapFor(language);
      var previous := Lookup(languageMap, key);
      if previous.Some? {
        warnings := warnings + [DuplicatedKey(key, language, previous.value, value)];
      }
      collector := collector[language := Put(languageMap, key, value)];
      AddToValid(old(collector), language, key, value);
    }

    /** `get`: the stored text or None; like the source, it creates an empty map
        for a language not seen before. */
    method Get(language: string, key: string) returns (r: Option<string>)
      requires Valid()
      modifies this`collector
      ensures Valid()
      ensures collector == Touch(old(collector), language)
      ensures r == LocalizationStore.Get(old(collector), language, key)
    {
      var languageMap := GetLocalizationMapFor(language);
      r := Lookup(languageMap, key);
    }

    /** One pass of the scan loop: trim the line, try the key pattern, then the
        value pattern, and otherwise clear the pending key. */
    method ScanLine(key: Option<string>, rawLine: string) returns (nextKey: Option<string>)
      requires Valid()
      modifies this`collector, this`warnings
      ensures Valid()
      ensures ScanState(collector, nextKey, warnings)
           == Step(CurrentConfig(), old(ScanState(collector, key, warnings)), rawLine)
    {
      ghost var before := ScanState(collector, key, warnings);
      ghost var cfg := CurrentConfig();
      nextKey := key;
      var line := TrimStartScan(rawLine);
      var keyMatch := keyPattern(line);
      if keyMatch.Some? {
        nextKey := keyMatch;
        assert Step(cfg, before, rawLine) == before.(pending := keyMatch);
        return;
      }
      var valueMatch := valuePattern(line);
      if valueMatch.None? {
        nextKey := None;
        assert Step(cfg, before, rawLine) == before.(pending := None);
        return;
      }
      var (lang, value) := valueMatch.value;
      assert cfg.valuePattern(TrimStart(rawLine)) == Some((lang, value));
      if lang !in allowedLanguageCodes {
        // a plain comment
        assert Step(cfg, before, rawLine) == before;
      } else if key.None? || key.value == "" {
        warnings := warnings + [UnknownKeyValue(line)];
        assert Step(cfg, before, rawLine) == before.(log := before.log + [UnknownKeyValue(line)]);
      } else {
        Add(lang, key.value, value);
      }
    }

    /** The scan loop of `loadSourceFile` over the lines of one readable file. */
    method LoadLines(lines: seq<string>)
      requires Valid()
      modifies this`collector, this`warnings
      ensures Valid()
      ensures collector == LoadFile(CurrentConfig(), old(collector), old(warnings), lines).store
      ensures warnings == LoadFile(CurrentConfig(), old(collector), old(warnings), lines).log
    {
      var key: Option<string> := None;
      for i := 0 to |lines|
        invariant Valid()
        invariant ScanLines(CurrentConfig(), ScanState(collector, key, warnings), lines[i..])
               == LoadFile(CurrentConfig(), old(collector), old(warnings), lines)
      {
        key := ScanLine(key, lines[i]);
        assert lines[i..][0] == lines[i] && lines[i..][1..] == lines[i + 1..];
      }
    }

    /** `loadSourceFile`: skip an absent, irregular or unreadable file with a
        warning, otherwise scan its lines from a fresh pending key. */
    method LoadSourceFile(file: SourceFile)
      requires Valid()
      modifies this`collector, this`warnings
      ensures Valid()
      ensures collector == LoadSource(CurrentConfig(), old(collector), old(warnings), file).store
      ensures warnings == LoadSource(CurrentConfig(), old(collector), old(warnings), file).log
    {
      match file
      case Missing =>
        warnings := warnings + [SourceFileMissing];
      case NotAFile =>
        warnings := warnings + [SourceNotAFile];
      case ReadFailure =>
        warnings := warnings + [SourceReadFailed];
      case Readable(lines) =>
        LoadLines(lines);
    }

    /** `buildLanguageFiles`: one generated file per language in the store. */
    method BuildLanguageFiles(timeFor: string -> string) returns (files: map<string, string>)
      ensures files.Keys == collector.Keys
      ensures forall l :: l in files ==> files[l] == MakeLanguageFile(collector[l], Some(l), timeFor(l))
      ensures files == LanguageFiles(collector, timeFor)
    {
      files := map[];
      var remaining := collector.Keys;
      while remaining != {}
        invariant remaining <= collector.Keys
        invariant files.Keys == collector.Keys - remaining
        invariant forall l :: l in files ==> files[l] == MakeLanguageFile(collector[l], Some(l), timeFor(l))
        decreases remaining
      {
        var language :| language in remaining;
        files := files[language := MakeLanguageFile(collector[language], Some(language), timeFor(language))];
        remaining := remaining - {language};
      }
      assert files.Keys == LanguageFiles(collector, timeFor).Keys;
    }
  }

  /** The configuration the task action gives the collector: a custom pattern
      replaces the default one, and without an allow-list only `en_US` is allowed. */
  function TaskConfig(keyPattern: Option<string -> Option<string>>,
                      valuePattern: Option<string -> Option<(string, string)>>,
                      allowed: Option<seq<string>>): (cfg: Config)
    ensures keyPattern.None? ==> cfg.keyPattern == MatchKey
    ensures keyPattern.Some? ==> cfg.keyPattern == keyPattern.value
    ensures valuePattern.None? ==> cfg.valuePattern == MatchValue
    ensures valuePattern.Some? ==> cfg.valuePattern == valuePattern.value
    ensures allowed.None? ==> cfg.allowed == ["en_US"]
    ensures allowed.Some? ==> cfg.allowed == allowed.value
  {
    Config(
      if keyPattern.Some? then keyPattern.value else MatchKey,
      if valuePattern.Some? then valuePattern.value else MatchValue,
      if allowed.Some? then allowed.value else ["en_US"])
  }

  /** What the task action hands to the file writer: language code to file text. */
  function Generate(sources: seq<SourceFile>, cfg: Config, timeFor: string -> string): map<string, string> {
    LanguageFiles(LoadAll(cfg, map[], [], sources).store, timeFor)
  }

  /** The task action `run` up to writing the files: configure a fresh collector,
      load every source file in order, and build the language files. */
  method GenerateLanguageFiles(sources: seq<SourceFile>,
                               keyPattern: Option<string -> Option<string>>,
                               valuePattern: Option<string -> Option<(string, string)>>,
                               allowed: Option<seq<string>>,
                               timeFor: string -> string)
    returns (files: map<string, string>)
    ensures files == Generate(sources, TaskConfig(keyPattern, valuePattern, allowed), timeFor)
  {
    var allowedLanguageCodes := if allowed.Some? then allowed.value else ["en_US"];
    var c := new LocalizationTextCollector();
    if keyPattern.Some? {
      c.SetKeyPattern(keyPattern.value);
    }
    if valuePattern.Some? {
      c.SetValuePattern(valuePattern.value);
    }
    c.SetAllowedLanguageCodes(allowedLanguageCodes);
    ghost var cfg := TaskConfig(keyPattern, valuePattern, allowed);
    assert c.CurrentConfig() == cfg;
    for i := 0 to |sources|
      invariant c.Valid() && c.CurrentConfig() == cfg
      invariant LoadAll(cfg, c.collector, c.warnings, sources[i..]) == LoadAll(cfg, map[], [], sources)
    {
      LoadAllFirst(cfg, c.collector, c.warnings, sources[i..]);
      assert sources[i..][0] == sources[i] && sources[i..][1..] == sources[i + 1..];
      c.LoadSourceFile(sources[i]);
    }
    assert c.collector == LoadAll(cfg, map[], [], sources).store by {
      assert sources[|sources|..] == [];
    }
    files := c.BuildLanguageFiles(timeFor);
  }

  /** Every generated file belongs to an allowed language, so an empty allow-list
      generates nothing and the default one at most `en_US.lang`. */
  lemma GenerateOnlyAllowed(sources: seq<SourceFile>, cfg: Config, timeFor: string -> string)
    ensures forall l :: l in Generate(sources, cfg, timeFor) ==> l in cfg.allowed
    ensures cfg.allowed == [] ==> Generate(sources, cfg, timeFor) == map[]
  {
    LoadAllKeeps(cfg, map[], [], sources);
  }

  /** Without a configured allow-list the task generates at most `en_US.lang`,
      whatever the patterns. */
  lemma DefaultAllowListOnlyEnUS(sources: seq<SourceFile>,
                                 keyPattern: Option<string -> Option<string>>,
                                 valuePattern: Option<string -> Option<(string, string)>>,
                                 timeFor: string -> string)
    ensures forall l :: l in Generate(sources, TaskConfig(keyPattern, valuePattern, None), timeFor) ==> l == "en_US"
  {
    GenerateOnlyAllowed(sources, TaskConfig(keyPattern, valuePattern, None), timeFor);
  }

  /** Every generated file reads back as its language's entries, in insertion
      order, when keys and texts fit the format. */
  lemma GenerateReadsBack(sources: seq<SourceFile>, cfg: Config, timeFor: string -> string, l: string)
    requires l in Generate(sources, cfg, timeFor)
    requires NoNewline(l) && NoNewline(timeFor(l))
    requires Representable(LoadAll(cfg, map[], [], sources).store[l])
    ensures ReadLanguageFile(Generate(sources, cfg, timeFor)[l]) == LoadAll(cfg, map[], [], sources).store[l]
  {
    LanguageFileRoundTrip(LoadAll(cfg, map[], [], sources).store[l], Some(l), timeFor(l));
  }
}
