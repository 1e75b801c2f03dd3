/**
 * The per-language `LinkedHashMap<String, String>` of the collector: a sequence of
 * entries in insertion order. `put` on a key already present replaces the value
 * in place; a new key is appended.
 */
module OrderedMap {
  import opened Wrappers

  datatype Entry = Entry(key: string, value: string)

  type LangMap = seq<Entry>

  /** No key occurs twice: the map never holds two values for one key. */
  predicate DistinctKeys(m: LangMap) {
    forall i, j :: 0 <= i < j < |m| ==> m[i].key != m[j].key
  }

  predicate HasKey(m: LangMap, k: string) {
    exists i :: 0 <= i < |m| && m[i].key == k
  }

  /** `get`: the value stored under `k`, or None (Java's null). */
  function Lookup(m: LangMap, k: string): (r: Option<string>)
    ensures r.None? <==> !HasKey(m, k)
    ensures r.Some? ==> Entry(k, r.value) in m
  {
    if m == [] then None
    else if m[0].key == k then Some(m[0].value)
    else
      var r := Lookup(m[1..], k);
      assert forall i :: 0 < i < |m| ==> m[i] == m[1..][i - 1];
      r
  }

  /** `put`: replace the value of an existing key, keeping its position, or append. */
  function Put(m: LangMap, k: string, v: string): LangMap {
    if m == [] then [Entry(k, v)]
    else if m[0].key == k then [Entry(k, v)] + m[1..]
    else [m[0]] + Put(m[1..], k, v)
  }

  /** After `put(k, v)`, `get(k)` is `v` and every other key reads as before. */
  lemma {:induction false} PutLookup(m: LangMap, k: string, v: string, k': string)
    ensures Lookup(Put(m, k, v), k') == if k' == k then Some(v) else Lookup(m, k')
  {
    if m != [] && m[0].key != k {
      PutLookup(m[1..], k, v, k');
    }
  }

  /** A key already present keeps its place: the sequence of keys, and so the
      size and the output order, are unchanged, and only that key's value changes. */
  lemma {:induction false} PutExisting(m: LangMap, k: string, v: string)
    requires HasKey(m, k)
    ensures |Put(m, k, v)| == |m|
    ensures forall i :: 0 <= i < |m| ==> Put(m, k, v)[i].key == m[i].key
    ensures forall i :: 0 <= i < |m| && m[i].key != k ==> Put(m, k, v)[i] == m[i]
  {
    if m[0].key != k {
      var i :| 0 <= i < |m| && m[i].key == k;
      assert m[1..][i - 1].key == k;
      PutExisting(m[1..], k, v);
    }
  }

  /** In a map without duplicate keys, `put` on the key at position `i` replaces
      exactly that entry. */
  lemma {:induction false} PutAt(m: LangMap, k: string, v: string, i: nat)
    requires DistinctKeys(m)
    requires i < |m| && m[i].key == k
    ensures Put(m, k, v) == m[..i] + [Entry(k, v)] + m[i + 1..]
  {
    if i > 0 {
      assert m[0].key != k;
      assert DistinctKeys(m[1..]) by {
        forall a, b | 0 <= a < b < |m[1..]| ensures m[1..][a].key != m[1..][b].key {
          assert m[1..][a] == m[a + 1] && m[1..][b] == m[b + 1];
        }
      }
      PutAt(m[1..], k, v, i - 1);
      assert m[1..][..i - 1] == m[1..i] && m[1..][i..] == m[i + 1..];
      assert [m[0]] + m[1..i] == m[..i];
    }
  }

  /** A new key is appended at the end. */
  lemma {:induction false} PutNew(m: LangMap, k: string, v: string)
    requires !HasKey(m, k)
    ensures Put(m, k, v) == m + [Entry(k, v)]
  {
    if m != [] {
      assert !HasKey(m[1..], k) by {
        forall i | 0 <= i < |m[1..]| ensures m[1..][i].key != k {
          assert m[1..][i] == m[i + 1];
        }
      }
      PutNew(m[1..], k, v);
      assert [m[0]] + (m[1..] + [Entry(k, v)]) == m + [Entry(k, v)];
    }
  }

  /** Keys stay distinct under `put`. */
  lemma PutDistinct(m: LangMap, k: string, v: string)
    requires DistinctKeys(m)
    ensures DistinctKeys(Put(m, k, v))
  {
    if HasKey(m, k) {
      PutExisting(m, k, v);
    } else {
      PutNew(m, k, v);
    }
  }
}
