/**
 An insertion-ordered map, as the registry's `LinkedHashMap` behaves in its
 default (insertion-order) mode: entries are kept in the order their keys
 were first inserted, replacing the value of a present key does not move it,
 and a key removed and inserted again goes to the end.

 The map is a sequence of entries with pairwise distinct keys. Its meaning
 as a plain Dafny `map` is `ToMap`; every lookup agrees with it.
 */
module LinkedMap {
  import opened Nullable

  datatype Entry<K, V> = Entry(key: K, value: V)

  datatype LinkedMap<K, V> = LinkedMap(entries: seq<Entry<K, V>>)

  /** No key occurs twice. */
  predicate UniqueKeys<K(==,!new), V>(s: seq<Entry<K, V>>) {
    forall i, j :: 0 <= i < j < |s| ==> s[i].key != s[j].key
  }

  predicate Valid<K(==,!new), V>(m: LinkedMap<K, V>) {
    UniqueKeys(m.entries)
  }

  function Empty<K, V>(): LinkedMap<K, V> {
    LinkedMap([])
  }

  /** The keys, in iteration order (`keys`). */
  function Keys<K, V>(m: LinkedMap<K, V>): seq<K> {
    seq(|m.entries|, i requires 0 <= i < |m.entries| => m.entries[i].key)
  }

  /** The values, in iteration order (`values.toList()`). */
  function Values<K, V>(m: LinkedMap<K, V>): seq<V> {
    seq(|m.entries|, i requires 0 <= i < |m.entries| => m.entries[i].value)
  }

  /** The reference meaning of a sequence of entries: the plain map it denotes. */
  function ToMap<K(==,!new), V>(s: seq<Entry<K, V>>): map<K, V> {
    if |s| == 0 then map[] else ToMap(s[1..])[s[0].key := s[0].value]
  }

  /** The value stored under `k`, searching from the front. */
  function Find<K(==,!new), V>(s: seq<Entry<K, V>>, k: K): (r: Option<V>)
    ensures r.None? <==> forall i :: 0 <= i < |s| ==> s[i].key != k
    ensures r.Some? ==> Entry(k, r.value) in s
  {
    if |s| == 0 then None
    else if s[0].key == k then Some(s[0].value)
    else
      var r := Find(s[1..], k);
      assert forall i :: 1 <= i < |s| ==> s[i] == s[1..][i - 1];
      r
  }

  /** `get(k)`: the value under `k`, or null. */
  function Get<K(==,!new), V>(m: LinkedMap<K, V>, k: K): Option<V> {
    Find(m.entries, k)
  }

  /** The entries of `s` whose key is not `k`, in their original order. */
  function Without<K(==,!new), V>(s: seq<Entry<K, V>>, k: K): (r: seq<Entry<K, V>>)
    ensures Find(r, k) == None
    ensures forall j :: j != k ==> Find(r, j) == Find(s, j)
    ensures forall e :: e in r ==> e in s
    ensures UniqueKeys(s) ==> UniqueKeys(r)
  {
    if |s| == 0 then []
    else if s[0].key == k then Without(s[1..], k)
    else
      var rest := Without(s[1..], k);
      assert UniqueKeys(s) ==> forall i :: 0 <= i < |rest| ==> rest[i].key != s[0].key by {
        if UniqueKeys(s) {
          forall i | 0 <= i < |rest| ensures rest[i].key != s[0].key {
            assert rest[i] in s[1..];
            var j :| 0 <= j < |s[1..]| && s[1..][j] == rest[i];
            assert s[j + 1] == rest[i];
          }
        }
      }
      [s[0]] + rest
  }

  /** `getOrPut(k) { v }`: the present value, or `v` appended under `k`. */
  function GetOrPut<K(==,!new), V>(m: LinkedMap<K, V>, k: K, v: V): (r: (LinkedMap<K, V>, V))
    ensures Get(r.0, k) == Some(r.1)
    ensures Get(m, k).Some? ==> r.0 == m && r.1 == Get(m, k).value
    ensures Get(m, k).None? ==> r.1 == v && Keys(r.0) == Keys(m) + [k]
    ensures forall j :: j != k ==> Get(r.0, j) == Get(m, j)
    ensures Valid(m) ==> Valid(r.0)
  {
    match Get(m, k)
    case Some(present) => (m, present)
    case None =>
      var s := m.entries + [Entry(k, v)];
      FindAppend(m.entries, Entry(k, v));
      assert forall j :: j != k ==> Find(s, j) == Find(m.entries, j);
      (LinkedMap(s), v)
  }

  /** `remove(k)`: the map without `k`, and the value that was removed (null if none). */
  function Remove<K(==,!new), V>(m: LinkedMap<K, V>, k: K): (r: (LinkedMap<K, V>, Option<V>))
    ensures r.1 == Get(m, k)
    ensures Get(r.0, k) == None
    ensures forall j :: j != k ==> Get(r.0, j) == Get(m, j)
    ensures Valid(m) ==> Valid(r.0)
  {
    (LinkedMap(Without(m.entries, k)), Get(m, k))
  }

  /** Searching a sequence extended at the end finds the old entries first. */
  lemma {:induction false} FindAppend<K(!new), V>(s: seq<Entry<K, V>>, e: Entry<K, V>)
    ensures Find(s + [e], e.key) == (if Find(s, e.key).Some? then Find(s, e.key) else Some(e.value))
    ensures forall j :: j != e.key ==> Find(s + [e], j) == Find(s, j)
  {
    if |s| > 0 {
      assert (s + [e])[1..] == s[1..] + [e];
      FindAppend(s[1..], e);
    }
  }

  /** Lookup agrees with the reference map: a key is found exactly when it is in the map, with the map's value. */
  lemma {:induction false} FindIsToMap<K(!new), V>(s: seq<Entry<K, V>>, k: K)
    ensures Find(s, k) == (if k in ToMap(s) then Some(ToMap(s)[k]) else None)
  {
    if |s| > 0 {
      FindIsToMap(s[1..], k);
    }
  }

  /** As a plain map, get-or-put on an absent key is an update and on a present key changes nothing. */
  lemma GetOrPutIsMapUpdate<K(!new), V>(m: LinkedMap<K, V>, k: K, v: V)
    ensures k !in ToMap(m.entries) ==> ToMap(GetOrPut(m, k, v).0.entries) == ToMap(m.entries)[k := v]
    ensures k in ToMap(m.entries) ==> GetOrPut(m, k, v) == (m, ToMap(m.entries)[k])
  {
    var r := GetOrPut(m, k, v);
    FindIsToMap(m.entries, k);
    if k !in ToMap(m.entries) {
      var t := ToMap(m.entries)[k := v];
      forall j ensures (j in ToMap(r.0.entries)) == (j in t) && (j in t ==> ToMap(r.0.entries)[j] == t[j]) {
        FindIsToMap(r.0.entries, j);
        FindIsToMap(m.entries, j);
        if j != k {
          assert Get(r.0, j) == Get(m, j);
        } else {
          assert Get(r.0, k) == Some(v);
        }
      }
    }
  }

  /** As a plain map, removal takes the key out and reports the value it had. */
  lemma RemoveIsMapRemove<K(!new), V>(m: LinkedMap<K, V>, k: K)
    ensures ToMap(Remove(m, k).0.entries) == ToMap(m.entries) - {k}
    ensures Remove(m, k).1 == (if k in ToMap(m.entries) then Some(ToMap(m.entries)[k]) else None)
  {
    var r := Remove(m, k);
    var t := ToMap(m.entries) - {k};
    FindIsToMap(m.entries, k);
    forall j ensures (j in ToMap(r.0.entries)) == (j in t) && (j in t ==> ToMap(r.0.entries)[j] == t[j]) {
      FindIsToMap(r.0.entries, j);
      FindIsToMap(m.entries, j);
    }
  }

  /** Removing a key found at position `i` cuts exactly that entry: every other entry keeps its relative order. */
  lemma {:induction false} WithoutPresent<K(!new), V>(s: seq<Entry<K, V>>, i: nat)
    requires UniqueKeys(s)
    requires i < |s|
    ensures Without(s, s[i].key) == s[..i] + s[i + 1..]
  {
    if i == 0 {
      WithoutAbsent(s[1..], s[0].key);
      assert s[..0] + s[1..] == s[1..];
    } else {
      assert s[1..][i - 1] == s[i];
      WithoutPresent(s[1..], i - 1);
      assert s[..i] + s[i + 1..] == [s[0]] + (s[1..][..i - 1] + s[1..][i..]);
    }
  }

  /** Removing an absent key changes nothing. */
  lemma {:induction false} WithoutAbsent<K(!new), V>(s: seq<Entry<K, V>>, k: K)
    requires forall i :: 0 <= i < |s| ==> s[i].key != k
    ensures Without(s, k) == s
  {
    if |s| > 0 {
      WithoutAbsent(s[1..], k);
      assert [s[0]] + s[1..] == s;
    }
  }

  /** In iteration order, `remove` deletes exactly the removed key's position and leaves the rest in order. */
  lemma RemoveKeepsOrder<K(!new), V>(m: LinkedMap<K, V>, k: K)
    requires Valid(m)
    ensures k !in Keys(m) ==> Remove(m, k).0 == m
    ensures forall i :: 0 <= i < |m.entries| && Keys(m)[i] == k ==>
      Remove(m, k).0.entries == m.entries[..i] + m.entries[i + 1..]
  {
    if k !in Keys(m) {
      forall i | 0 <= i < |m.entries| ensures m.entries[i].key != k {
        assert Keys(m)[i] == m.entries[i].key;
      }
      WithoutAbsent(m.entries, k);
    }
    forall i | 0 <= i < |m.entries| && Keys(m)[i] == k
      ensures Remove(m, k).0.entries == m.entries[..i] + m.entries[i + 1..]
    {
      WithoutPresent(m.entries, i);
    }
  }

  /** A key removed and put back goes to the end of the iteration order, behind every other key. */
  lemma RemoveThenPutAppends<K(!new), V>(m: LinkedMap<K, V>, k: K, v: V)
    requires Valid(m)
    ensures var m' := Remove(m, k).0;
      GetOrPut(m', k, v).0.entries == m'.entries + [Entry(k, v)]
  {
  }
}
