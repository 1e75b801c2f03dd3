# Localization comment collector

A Dafny model of the language-file generator of the elytra-gradle plugin: the
`LocalizationTextCollector` inside `GenerateLanguageFilesTask`, and the part of
the task action `run` that configures it, feeds it the source files and asks it for
the language files.

Translations are written as comments in source files: a key line `//#tr <key>`
followed directly by one value line `// <language> <text>` per language. The
collector scans every file line by line. It strips leading whitespace from each
line, then tries the key pattern, then the value pattern. It stores each text in a
per-language, insertion-ordered map, and finally renders one `<language>.lang` file
per language: a header, then one `key=value` line per entry.

The model is split along the source's structure:

- `Text`: `Character.isWhitespace`, the regex class `\s`, the regex line
  terminators, and `trimStart` (a function plus the loop that computes it).
- `DefaultPatterns`: the default key pattern `^//#tr (\S+)$` and value pattern
  `^// (\S+) (.+)$`. Each is written out as an extractor with the
  `java.util.regex` meaning of `\S`, `.` and `$`.
- `OrderedMap`: the per-language `LinkedHashMap`, modelled as a sequence of
  entries.
- `LocalizationStore`: the `collector` field (language → map), modelled as
  values, with what `getLocalizationMapFor`, `add` and `get` do to it and the
  warnings `add` logs.
- `Scanner`: the scan loop of `loadSourceFile` as a two-state machine.
  - The state is the store, the pending key and the warning log.
  - The two patterns are matcher functions in the configuration.
  - It also covers the whole load over several files.
- `LanguageFile`: `makeLanguageFile`, with the timestamp as a parameter, and a
  reader of the same format used to state the layout as a round trip.
- `Collector`: the class `LocalizationTextCollector`.
  - Its fields are the two patterns, the allow-list, the store and the warnings
    logged.
  - Its methods update those fields in place. Each one is proved against the
    value-level functions above.
  - `GenerateLanguageFiles` is `run` up to the point where files are written.
- `Scenarios`: short inputs under the default patterns, stated for any key,
  language and text of the right shape.

The logger is modelled as a list of `Warning` values that the collector appends
to:

- a source file that is missing, is not a regular file, or cannot be read;
- a duplicated key, with both texts;
- a value line with no key.

Debug messages are not modelled.

Where the description of the system and the code differ, the model follows the
code:

- The pending key is **not** cleared after a value line records an entry. It stays
  pending, so one key line can serve several value lines, one per language. Only a
  line matching neither pattern clears it.
- A fresh collector allows no language at all. The `en_US` default belongs to the
  task action: it is used when no allow-list is configured.
- `$` in the default patterns also matches before one final line terminator.
  `.` stops at any regex line terminator, including U+0085, U+2028 and U+2029.
  `readAllLines` does not split lines at those three characters, so they can
  occur inside a line.

## Model

| member | source | states |
|---|---|---|
| Text.TrimStartSpec | src/main/java/cn/elytra/gradle/task/GenerateLanguageFilesTask.java:270-277 | the result is the suffix of the input that starts at its first non-whitespace character: everything dropped is `Character.isWhitespace`, and the result is empty or starts with a non-whitespace character |
| Text.TrimStart | src/main/java/cn/elytra/gradle/task/GenerateLanguageFilesTask.java:270-277 | definition of `trimStart`: drop leading `Character.isWhitespace` characters; its meaning is stated by TrimStartSpec, TrimStartAt and TrimStartScan |
| Text.TrimStartAt | src/main/java/cn/elytra/gradle/task/GenerateLanguageFilesTask.java:270-277 | any split into an all-whitespace prefix and a suffix that is empty or starts with a non-whitespace character gives that suffix as the trimmed string |
| Text.TrimStartUnchanged | src/main/java/cn/elytra/gradle/task/GenerateLanguageFilesTask.java:270-277 | a string that does not start with whitespace is returned unchanged |
| Text.TrimStartIdempotent | src/main/java/cn/elytra/gradle/task/GenerateLanguageFilesTask.java:270-277 | trimming twice equals trimming once |
| Text.TrimStartIndented | src/main/java/cn/elytra/gradle/task/GenerateLanguageFilesTask.java:223-224 | any whitespace indentation before a line is ignored, and a whitespace-only line trims to the empty string |
| Text.TrimStartScan | src/main/java/cn/elytra/gradle/task/GenerateLanguageFilesTask.java:270-277 | the loop returns the suffix from the first index holding a non-whitespace character, or "" when there is none |
| Text.RegexSpaceIsJavaWhitespace | src/main/java/cn/elytra/gradle/task/GenerateLanguageFilesTask.java:272 | every `\s` character is also stripped by `trimStart`, so a trimmed line never starts with `\s` |
| Text.WhitespaceClassesDiffer | src/main/java/cn/elytra/gradle/task/GenerateLanguageFilesTask.java:272 | the two whitespace notions differ: U+3000 is stripped but is `\S` to the patterns, and U+00A0 is neither |
| DefaultPatterns.NonSpaceRun | src/main/java/cn/elytra/gradle/task/GenerateLanguageFilesTask.java:164 | the greedy `\S` run is a prefix without `\s`, and it stops only at a `\s` character or at the end |
| DefaultPatterns.LineRun | src/main/java/cn/elytra/gradle/task/GenerateLanguageFilesTask.java:165 | the greedy `.` run is a prefix without a line terminator, and it stops only at a line terminator or at the end |
| DefaultPatterns.MatchKey | src/main/java/cn/elytra/gradle/task/GenerateLanguageFilesTask.java:164 | definition of `^//#tr (\S+)$` with `find()` and group 1; its meaning is stated by MatchKeyLine, MatchKeyShape and MatchKeyIff |
| DefaultPatterns.MatchValue | src/main/java/cn/elytra/gradle/task/GenerateLanguageFilesTask.java:165 | definition of `^// (\S+) (.+)$` with `find()` and groups 1 and 2; its meaning is stated by MatchValueLine, MatchValueShape and MatchValueDropsFinalTerminator |
| DefaultPatterns.MatchKeyLine | src/main/java/cn/elytra/gradle/task/GenerateLanguageFilesTask.java:164 | `//#tr ` followed by a non-empty token without `\s` yields that token |
| DefaultPatterns.MatchKeyShape | src/main/java/cn/elytra/gradle/task/GenerateLanguageFilesTask.java:164 | every key match is `//#tr ` plus a non-empty `\S` token, followed at most by one final line terminator |
| DefaultPatterns.MatchKeyIff | src/main/java/cn/elytra/gradle/task/GenerateLanguageFilesTask.java:164 | for a line as `readAllLines` returns it (no `\n`, no `\r`), the key pattern yields K exactly when the line is `//#tr ` + K, with K non-empty and free of `\s` (both directions) |
| DefaultPatterns.MatchValueLine | src/main/java/cn/elytra/gradle/task/GenerateLanguageFilesTask.java:165 | `// <lang> <text>` yields the language and the text verbatim, with any spaces in the text kept |
| DefaultPatterns.MatchValueShape | src/main/java/cn/elytra/gradle/task/GenerateLanguageFilesTask.java:165 | every value match is `// ` + lang + " " + text, with lang non-empty and free of `\s`, text non-empty and free of line terminators, followed at most by one final line terminator |
| DefaultPatterns.MatchValueDropsFinalTerminator | src/main/java/cn/elytra/gradle/task/GenerateLanguageFilesTask.java:165 | for every language, text and line terminator t, the value line followed by t yields the language and the text without t, because `$` matches before a final terminator |
| DefaultPatterns.KeyAndValueDisjoint | src/main/java/cn/elytra/gradle/task/GenerateLanguageFilesTask.java:226-236 | no line matches both default patterns, so the key-first order only matters for custom patterns |
| OrderedMap.Lookup | src/main/java/cn/elytra/gradle/task/GenerateLanguageFilesTask.java:199 | `get` finds no value exactly when the key is absent, and a value it returns is stored under that key |
| OrderedMap.Put | src/main/java/cn/elytra/gradle/task/GenerateLanguageFilesTask.java:194 | definition of `LinkedHashMap.put`: replace in place or append; its meaning is stated by PutLookup, PutExisting, PutAt, PutNew and PutDistinct |
| OrderedMap.PutLookup | src/main/java/cn/elytra/gradle/task/GenerateLanguageFilesTask.java:194 | after `put(k, v)`, `get(k)` is v and every other key reads as before |
| OrderedMap.PutExisting | src/main/java/cn/elytra/gradle/task/GenerateLanguageFilesTask.java:191-194 | overwriting a present key keeps the size and the key order, and leaves every entry with another key unchanged |
| OrderedMap.PutAt | src/main/java/cn/elytra/gradle/task/GenerateLanguageFilesTask.java:194 | in a map without duplicate keys, overwriting the key at position i replaces exactly that entry, in place |
| OrderedMap.PutNew | src/main/java/cn/elytra/gradle/task/GenerateLanguageFilesTask.java:194 | a new key is appended after all existing entries |
| OrderedMap.PutDistinct | src/main/java/cn/elytra/gradle/task/GenerateLanguageFilesTask.java:194 | `put` never makes a key occur twice |
| LocalizationStore.Touch | src/main/java/cn/elytra/gradle/task/GenerateLanguageFilesTask.java:185-187 | `getLocalizationMapFor` leaves the language present, with its old map or a new empty one, and every other language unchanged |
| LocalizationStore.Get | src/main/java/cn/elytra/gradle/task/GenerateLanguageFilesTask.java:197-200 | definition of the value `get` returns: the lookup in the language's map, or none for an unseen language; AddToGet states how `add` changes it |
| LocalizationStore.AddTo | src/main/java/cn/elytra/gradle/task/GenerateLanguageFilesTask.java:189-195 | definition of the store after `add`: `put` into the language's map, created empty if absent; its meaning is stated by AddToGet, AddToShape and AddToValid |
| LocalizationStore.AddWarnings | src/main/java/cn/elytra/gradle/task/GenerateLanguageFilesTask.java:191-193 | `add` logs exactly one duplicated-key warning, carrying the old and the new text, when the key already had a text in that language, and none otherwise |
| LocalizationStore.AddToGet | src/main/java/cn/elytra/gradle/task/GenerateLanguageFilesTask.java:189-199 | after `add(l, k, v)`, `get(l, k)` is v (last write wins) and every other (language, key) pair reads as before |
| LocalizationStore.AddToShape | src/main/java/cn/elytra/gradle/task/GenerateLanguageFilesTask.java:189-195 | `add` changes only its language's map and adds that language if it was absent; a present key keeps the map's size and every key's position, and a new key is appended |
| LocalizationStore.AddToValid | src/main/java/cn/elytra/gradle/task/GenerateLanguageFilesTask.java:189-195 | `add` keeps every language map free of duplicate keys |
| Scanner.Step | src/main/java/cn/elytra/gradle/task/GenerateLanguageFilesTask.java:224-252 | definition of one pass of the scan loop: trim, key pattern, value pattern with its allow-list and no-key cases, otherwise clear the key; its cases are stated by the Step* lemmas |
| Scanner.ScanLines | src/main/java/cn/elytra/gradle/task/GenerateLanguageFilesTask.java:222-253 | definition of the scan loop over a file's lines from a given state; ScanLinesAppend, ValueBlock and KeyBlock state its behaviour |
| Scanner.LoadFile | src/main/java/cn/elytra/gradle/task/GenerateLanguageFilesTask.java:219-253 | definition of scanning a readable file, starting with no pending key; `LoadLines` is proved equal to it |
| Scanner.LoadSource | src/main/java/cn/elytra/gradle/task/GenerateLanguageFilesTask.java:207-257 | definition of `loadSourceFile`: the three skip cases add a warning, and a readable file is scanned; `LoadSourceFile` is proved equal to it |
| Scanner.LoadAll | src/main/java/cn/elytra/gradle/task/GenerateLanguageFilesTask.java:117-119 | definition of loading the sources in order, each from the store the previous one left; LoadAllAppend and LoadAllKeeps state its behaviour |
| Scanner.LoadAllAppend | src/main/java/cn/elytra/gradle/task/GenerateLanguageFilesTask.java:117-119 | loading two lists of files one after the other is loading their concatenation, so every file sees the store and log that all earlier files produced |
| Scanner.StepKeyLine | src/main/java/cn/elytra/gradle/task/GenerateLanguageFilesTask.java:224-231 | a key line, indented or not, makes its token the pending key, replacing any earlier one, and records nothing |
| Scanner.TrimmedValueLine | src/main/java/cn/elytra/gradle/task/GenerateLanguageFilesTask.java:224-236 | an indented value line trims to the value line, misses the key pattern and yields its language and text from the value pattern |
| Scanner.StepForeignValue | src/main/java/cn/elytra/gradle/task/GenerateLanguageFilesTask.java:237-240 | a value line for a language outside the allow-list changes nothing, and the pending key survives |
| Scanner.StepOrphanValue | src/main/java/cn/elytra/gradle/task/GenerateLanguageFilesTask.java:241-244 | a value line for an allowed language with no pending key records nothing, keeps the state and logs the trimmed line |
| Scanner.StepRecordValue | src/main/java/cn/elytra/gradle/task/GenerateLanguageFilesTask.java:245-247 | a value line for an allowed language under pending key K performs `add(lang, K, text)`, and K stays pending |
| Scanner.StepCodeLine | src/main/java/cn/elytra/gradle/task/GenerateLanguageFilesTask.java:250-252 | under the default patterns, a line that does not start with `//` once trimmed (a line of code) clears the pending key and changes nothing else |
| Scanner.StepBlankLine | src/main/java/cn/elytra/gradle/task/GenerateLanguageFilesTask.java:250-252 | a blank or whitespace-only line clears the pending key and changes nothing else |
| Scanner.ScanLinesAppend | src/main/java/cn/elytra/gradle/task/GenerateLanguageFilesTask.java:222-253 | scanning two runs of lines one after the other equals scanning their concatenation |
| Scanner.ScanKeepsAllowed | src/main/java/cn/elytra/gradle/task/GenerateLanguageFilesTask.java:237-245 | scanning creates language maps only for allowed languages |
| Scanner.ScanKeepsValid | src/main/java/cn/elytra/gradle/task/GenerateLanguageFilesTask.java:222-253 | scanning never makes a language map hold a key twice |
| Scanner.LoadAllKeeps | src/main/java/cn/elytra/gradle/task/GenerateLanguageFilesTask.java:117-119 | across all files, only allowed languages get a map and no map holds a key twice |
| Scanner.ValueBlock | src/main/java/cn/elytra/gradle/task/GenerateLanguageFilesTask.java:245-247 | consecutive value lines under pending key K each record their text under K, in order, and K is still pending afterwards |
| Scanner.RecordAllGet | src/main/java/cn/elytra/gradle/task/GenerateLanguageFilesTask.java:245 | recording one text per distinct language under K sets each of those (language, K) pairs to its text and leaves every other pair as before |
| Scanner.KeyBlock | src/main/java/cn/elytra/gradle/task/GenerateLanguageFilesTask.java:221-252 | a file holding a key line followed by one value line per distinct allowed language stores exactly those texts under the key, and nothing else changes |
| LanguageFile.MakeLanguageFile | src/main/java/cn/elytra/gradle/task/GenerateLanguageFilesTask.java:279-292 | definition of `makeLanguageFile` with the time text as a parameter; its layout is stated by MakeLanguageFileLayout and its content by LanguageFileRoundTrip |
| LanguageFile.EntriesText | src/main/java/cn/elytra/gradle/task/GenerateLanguageFilesTask.java:287-289 | definition of the `forEach` appending `k=v\n` per entry; EntriesTextLines states it as one line per entry |
| LanguageFile.HeaderLines | src/main/java/cn/elytra/gradle/task/GenerateLanguageFilesTask.java:280-285 | the header is the marker line, then the language line only when a name is given, then the time line |
| LanguageFile.EntryLines | src/main/java/cn/elytra/gradle/task/GenerateLanguageFilesTask.java:287-289 | there is one `key=value` line per entry, in insertion order |
| LanguageFile.EntriesTextLines | src/main/java/cn/elytra/gradle/task/GenerateLanguageFilesTask.java:287-289 | the entry text is the entry lines, each followed by a newline |
| LanguageFile.MakeLanguageFileLayout | src/main/java/cn/elytra/gradle/task/GenerateLanguageFilesTask.java:279-292 | the file is exactly the header lines followed by the entry lines, each ending in `\n`; an empty map gives the header alone |
| LanguageFile.HeaderLinesComments | src/main/java/cn/elytra/gradle/task/GenerateLanguageFilesTask.java:280-285 | every header line starts with `#` and holds no newline |
| LanguageFile.EntryLinesNoNewline | src/main/java/cn/elytra/gradle/task/GenerateLanguageFilesTask.java:287-289 | entry lines hold no newline when keys and texts hold none |
| LanguageFile.LanguageFileRoundTrip | src/main/java/cn/elytra/gradle/task/GenerateLanguageFilesTask.java:279-292 | reading a generated file back gives the same entries in the same order, when no key contains `=` or starts with `#` and no key or text contains a newline |
| Collector.LanguageFiles | src/main/java/cn/elytra/gradle/task/GenerateLanguageFilesTask.java:259-268 | definition of the map `buildLanguageFiles` returns: one `makeLanguageFile` per language in the store, each with its own time text; `BuildLanguageFiles` is proved equal to it |
| Collector.LocalizationTextCollector.constructor | src/main/java/cn/elytra/gradle/task/GenerateLanguageFilesTask.java:162-167 | a new collector has an empty store, the two default patterns and an empty allow-list |
| Collector.LocalizationTextCollector.SetKeyPattern | src/main/java/cn/elytra/gradle/task/GenerateLanguageFilesTask.java:169-171 | replaces the key pattern and nothing else |
| Collector.LocalizationTextCollector.SetValuePattern | src/main/java/cn/elytra/gradle/task/GenerateLanguageFilesTask.java:173-175 | replaces the value pattern and nothing else |
| Collector.LocalizationTextCollector.SetAllowedLanguageCodes | src/main/java/cn/elytra/gradle/task/GenerateLanguageFilesTask.java:177-179 | replaces the allow-list and nothing else |
| Collector.LocalizationTextCollector.GetLocalizationMapFor | src/main/java/cn/elytra/gradle/task/GenerateLanguageFilesTask.java:185-187 | returns the language's map, or a new empty one that is then stored; the store becomes `Touch` of the old one |
| Collector.LocalizationTextCollector.Add | src/main/java/cn/elytra/gradle/task/GenerateLanguageFilesTask.java:189-195 | the store becomes `AddTo` of the old one, a duplicated-key warning is appended exactly when the key was present, and the store keeps no key twice |
| Collector.LocalizationTextCollector.Get | src/main/java/cn/elytra/gradle/task/GenerateLanguageFilesTask.java:197-200 | returns the stored text or None, and stores an empty map for a language not seen before |
| Collector.LocalizationTextCollector.ScanLine | src/main/java/cn/elytra/gradle/task/GenerateLanguageFilesTask.java:224-252 | one pass of the loop body moves the store, the pending key and the log exactly as `Step` does |
| Collector.LocalizationTextCollector.LoadLines | src/main/java/cn/elytra/gradle/task/GenerateLanguageFilesTask.java:219-253 | the loop over a file's lines, starting with no key, leaves the store and the log as `LoadFile` gives them |
| Collector.LocalizationTextCollector.LoadSourceFile | src/main/java/cn/elytra/gradle/task/GenerateLanguageFilesTask.java:207-257 | a missing, non-regular or unreadable file only adds its warning; a readable one is scanned as `LoadFile` |
| Collector.LocalizationTextCollector.BuildLanguageFiles | src/main/java/cn/elytra/gradle/task/GenerateLanguageFilesTask.java:259-268 | returns exactly one file per language in the store, each being `makeLanguageFile` of that language's map under its own name, stamped with the time read for that file |
| Collector.TaskConfig | src/main/java/cn/elytra/gradle/task/GenerateLanguageFilesTask.java:102-113 | a configured key or value pattern is the one used and a missing one leaves the default; a configured allow-list is used as given, and a missing one becomes `["en_US"]` |
| Collector.Generate | src/main/java/cn/elytra/gradle/task/GenerateLanguageFilesTask.java:101-123 | definition of the files `run` writes out, given the sources, the configuration and the time read for each file; `GenerateLanguageFiles` is proved equal to it |
| Collector.GenerateLanguageFiles | src/main/java/cn/elytra/gradle/task/GenerateLanguageFilesTask.java:101-123 | the task configures a fresh collector, loads every source in order and yields the language files of the final store, each stamped with its own time text |
| Collector.GenerateOnlyAllowed | src/main/java/cn/elytra/gradle/task/GenerateLanguageFilesTask.java:237-245 | every generated file belongs to an allowed language, so an empty allow-list (the collector's default) generates nothing |
| Collector.DefaultAllowListOnlyEnUS | src/main/java/cn/elytra/gradle/task/GenerateLanguageFilesTask.java:104 | without a configured allow-list the task generates at most `en_US.lang`, whatever the patterns |
| Collector.GenerateReadsBack | src/main/java/cn/elytra/gradle/task/GenerateLanguageFilesTask.java:259-268 | a generated file reads back as its language's entries, in insertion order, when the language name and that file's time text hold no newline and the entries are representable (no `=` or leading `#` in a key, no newline in a key or text) |
| Scenarios.ScanKey | src/main/java/cn/elytra/gradle/task/GenerateLanguageFilesTask.java:226-231 | a key line at the head of a run of lines sets the pending key for the rest |
| Scenarios.ScanForeign | src/main/java/cn/elytra/gradle/task/GenerateLanguageFilesTask.java:237-240 | a foreign-language value line at the head of a run of lines is skipped |
| Scenarios.ScanRecord | src/main/java/cn/elytra/gradle/task/GenerateLanguageFilesTask.java:245-247 | an allowed value line under a pending key at the head of a run records its text before the rest is scanned |
| Scenarios.ScanOrphan | src/main/java/cn/elytra/gradle/task/GenerateLanguageFilesTask.java:241-244 | an allowed value line with no pending key at the head of a run is only reported |
| Scenarios.ScanBlank | src/main/java/cn/elytra/gradle/task/GenerateLanguageFilesTask.java:250-252 | a blank line at the head of a run of lines clears the pending key |
| Scenarios.ForeignLanguageKeepsKey | src/main/java/cn/elytra/gradle/task/GenerateLanguageFilesTask.java:237-240 | key, foreign-language value, allowed value: only the allowed text is stored, under the key |
| Scenarios.ValueWithoutKey | src/main/java/cn/elytra/gradle/task/GenerateLanguageFilesTask.java:241-244 | a lone value line stores nothing and logs one unknown-key warning |
| Scenarios.BlankLineEndsBlock | src/main/java/cn/elytra/gradle/task/GenerateLanguageFilesTask.java:250-252 | a blank line between a key and its value turns the value line into one with no key |
| Scenarios.OneEntryFile | src/main/java/cn/elytra/gradle/task/GenerateLanguageFilesTask.java:221-247 | a file holding one key line and one value line performs exactly one `add` |
| Scenarios.RedeclaredKeyInLaterFile | src/main/java/cn/elytra/gradle/task/GenerateLanguageFilesTask.java:117-119 | a key set again in a later file ends with the later text and logs one duplicated-key warning carrying both texts |
| Scenarios.EmptyLanguageFile | src/main/java/cn/elytra/gradle/task/GenerateLanguageFilesTask.java:279-292 | the file for an empty map is the three header lines alone |

## Left out

- File system access is not part of this model. That covers `exists`, `isFile` and `Files.readAllLines`. A source file is given as already read: missing, not a file, unreadable, or its lines. How `readAllLines` splits lines and decodes bytes is not modelled.
- Writing the output is not part of this model: deleting, creating and writing `<language>.lang`, and skipping a file on failure. `GenerateLanguageFiles` ends at the map from language to file text that `run` writes out.
- Compiling custom pattern strings with `Pattern.compile` is not modelled, and neither are `find()` semantics for arbitrary regular expressions. A custom pattern is a matcher function in the model, given already compiled; an invalid pattern string is not modelled. Only the two default patterns are written out.
- The wall-clock timestamp, formatted with `SimpleDateFormat` from `new Date()`, is not modelled. The clock is read once per generated file, so the time text is a parameter: `timeText` for one file, and a function `timeFor` from language to time text for the whole build.
- The text of log messages and the debug-level messages are not modelled. Warnings are recorded as `Warning` values.
- The iteration order of the `HashMap` that `buildLanguageFiles` fills is not modelled; its result is a `map`.
- Gradle wiring is not part of this model: task registration, collecting the source sets, the empty extension, and the task's property getters.
- Java strings are sequences of UTF-16 code units, while a Dafny `char` is a Unicode scalar value. This makes no difference to these characters: every character that `isWhitespace`, `\s` or the line terminators accept lies in the Basic Multilingual Plane.
- Scanner.RecordAllGet: stated only for blocks with one value line per language (distinct languages). A language repeated inside a block is covered by LocalizationStore.AddToGet one line at a time.
- Scanner.KeyBlock: stated only for blocks with one value line per language, for the same reason.
- DefaultPatterns.MatchKeyIff: stated only for lines without `\n` and `\r`, which `readAllLines` never leaves in a line. For other inputs, MatchKeyShape describes the matches.
- Collector.GenerateReadsBack: holds only when the language name and that file's time text hold no newline and the language's entries are representable, for the reason given for LanguageFileRoundTrip below.
- LanguageFile.LanguageFileRoundTrip: holds only for keys and texts the format can carry back. A key containing `=` or starting with `#`, or a newline in a key or text, produces a file that does not read back the same; the generator itself has no such restriction.
