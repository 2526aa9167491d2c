/** PHP arrays with string keys: maps that remember the order in which keys were first set. */
module OrderedMaps {

  datatype RawMap<V> = RawMap(keys: seq<string>, values: map<string, V>)

  /** Exactly the keys of the map are listed. */
  ghost predicate Valid<V>(m: RawMap<V>) {
    forall k :: k in m.values <==> k in m.keys
  }

  /** No key is listed twice. */
  ghost predicate DistinctKeys<V>(m: RawMap<V>) {
    forall i, j :: 0 <= i < j < |m.keys| ==> m.keys[i] != m.keys[j]
  }

  type OMap<V> = m: RawMap<V> | Valid(m) witness RawMap([], map[])

  function Empty<V>(): (m: OMap<V>)
    ensures m.keys == [] && m.values == map[]
  {
    RawMap([], map[])
  }

  /** `$m[$k] = $v`: the key takes the value; a key already present keeps its place,
      a new key goes last. */
  function Put<V>(m: OMap<V>, k: string, v: V): (r: OMap<V>)
    ensures r.values == m.values[k := v]
    ensures r.keys == if k in m.values then m.keys else m.keys + [k]
  {
    if k in m.values then RawMap(m.keys, m.values[k := v]) else RawMap(m.keys + [k], m.values[k := v])
  }

  /** Setting a key never lists it a second time. */
  lemma PutKeepsKeysDistinct<V>(m: OMap<V>, k: string, v: V)
    requires DistinctKeys(m)
    ensures DistinctKeys(Put(m, k, v))
  {
    if k !in m.values {
      assert k !in m.keys;
    }
  }

  /** The value under the `i`-th key. */
  function At<V>(m: OMap<V>, i: nat): V
    requires i < |m.keys|
  {
    assert m.keys[i] in m.keys;
    m.values[m.keys[i]]
  }
}
