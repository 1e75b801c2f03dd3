/**
 * The accumulation store of the collector (`collector` field): language code to an
 * insertion-ordered map from translation key to text, with the behaviour of
 * `getLocalizationMapFor`, `add` and `get` stated on values.
 */
module LocalizationStore {
  import opened Wrappers
  import opened OrderedMap

  type Store = map<string, LangMap>

  /** What the collector reports through the task's logger while scanning. */
  datatype Warning =
    | SourceFileMissing
    | SourceNotAFile
    | SourceReadFailed
    | DuplicatedKey(key: string, language: string, oldValue: string, newValue: string)
    | UnknownKeyValue(line: string)

  /** No language map holds a key twice. */
  predicate Valid(c: Store) {
    forall l :: l in c ==> DistinctKeys(c[l])
  }

  /** The map `computeIfAbsent` yields: the stored one, or a new empty one. */
  function MapFor(c: Store, language: string): LangMap {
    if language in c then c[language] else []
  }

  /** The store after `getLocalizationMapFor(language)`: an empty map is inserted
      for a language not seen before. */
  function Touch(c: Store, language: string): (r: Store)
    ensures language in r && r[language] == MapFor(c, language)
    ensures r.Keys == c.Keys + {language}
    ensures forall l :: l in c ==> l in r && r[l] == c[l]
  {
    if language in c then c else c[language := []]
  }

  /** The value `get(language, key)` returns. */
  function Get(c: Store, language: string, key: string): Option<string> {
    Lookup(MapFor(c, language), key)
  }

  /** The store after `add(language, key, value)`. */
  function AddTo(c: Store, language: string, key: string, value: string): Store {
    c[language := Put(MapFor(c, language), key, value)]
  }

  /** The warning `add` logs: one when the key already has a value in that language. */
  function AddWarnings(c: Store, language: string, key: string, value: string): (w: seq<Warning>)
    ensures |w| <= 1
    ensures w != [] <==> Get(c, language, key).Some?
    ensures w != [] ==> w[0] == DuplicatedKey(key, language, Get(c, language, key).value, value)
  {
    match Get(c, language, key)
    case Some(previous) => [DuplicatedKey(key, language, previous, value)]
    case None => []
  }

  /** After `add(l, k, v)`, `get(l, k)` is `v` (last write wins) and every other
      (language, key) pair reads as before. */
  lemma AddToGet(c: Store, language: string, key: string, value: string, l: string, k: string)
    ensures Get(AddTo(c, language, key, value), l, k)
         == if l == language && k == key then Some(value) else Get(c, l, k)
  {
    if l == language {
      PutLookup(MapFor(c, language), key, value, k);
    }
  }

  /** `add` touches only the map of its language, which gains the language if it
      was absent; the key keeps its position if present and is appended otherwise. */
  lemma AddToShape(c: Store, language: string, key: string, value: string)
    ensures AddTo(c, language, key, value).Keys == c.Keys + {language}
    ensures forall l :: l in c && l != language ==> AddTo(c, language, key, value)[l] == c[l]
    ensures HasKey(MapFor(c, language), key) ==>
      |AddTo(c, language, key, value)[language]| == |MapFor(c, language)|
    ensures HasKey(MapFor(c, language), key) ==>
      forall i :: 0 <= i < |MapFor(c, language)| ==>
        AddTo(c, language, key, value)[language][i].key == MapFor(c, language)[i].key
    ensures !HasKey(MapFor(c, language), key) ==>
      AddTo(c, language, key, value)[language] == MapFor(c, language) + [Entry(key, value)]
  {
    if HasKey(MapFor(c, language), key) {
      PutExisting(MapFor(c, language), key, value);
    } else {
      PutNew(MapFor(c, language), key, value);
    }
  }

  lemma AddToValid(c: Store, language: string, key: string, value: string)
    requires Valid(c)
    ensures Valid(AddTo(c, language, key, value))
  {
    PutDistinct(MapFor(c, language), key, value);
  }
}
