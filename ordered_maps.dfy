/** JavaScript's `Map`: a dictionary that remembers the order in which keys
    were first inserted. `set` on a present key replaces its value in place;
    on a new key it appends. `Array.from(m.values())` lists the values in
    key order. */
module OrderedMaps {
  import opened Wrappers

  datatype OMap<K, V> = OMap(keys: seq<K>, entries: map<K, V>)

  /** The keys are distinct and are exactly the keys of `entries`. */
  ghost predicate Valid<K, V>(m: OMap<K, V>)
  {
    (forall i, j :: 0 <= i < j < |m.keys| ==> m.keys[i] != m.keys[j])
    && m.entries.Keys == set i | 0 <= i < |m.keys| :: m.keys[i]
  }

  function Empty<K, V>(): (m: OMap<K, V>)
    ensures Valid(m) && m.keys == [] && m.entries == map[]
  {
    OMap([], map[])
  }

  /** `m.set(k, v)`. */
  function Put<K, V>(m: OMap<K, V>, k: K, v: V): (r: OMap<K, V>)
    requires Valid(m)
    ensures Valid(r)
    ensures r.entries == m.entries[k := v]
    ensures r.keys == if k in m.entries then m.keys else m.keys + [k]
  {
    if k in m.entries then OMap(m.keys, m.entries[k := v])
    else
      var keys := m.keys + [k];
      assert (set i | 0 <= i < |keys| :: keys[i]) == m.entries.Keys + {k} by {
        forall x | x in m.entries.Keys ensures x in set i | 0 <= i < |keys| :: keys[i] {
          var i :| 0 <= i < |m.keys| && m.keys[i] == x;
          assert keys[i] == x;
        }
        assert keys[|m.keys|] == k;
      }
      OMap(keys, m.entries[k := v])
  }

  /** `m.get(k)`, with None for `undefined`. */
  function Get<K, V>(m: OMap<K, V>, k: K): (r: Option<V>)
    ensures r.Some? <==> k in m.entries
    ensures r.Some? ==> r.value == m.entries[k]
  {
    if k in m.entries then Some(m.entries[k]) else None
  }

  function ValuesOf<K, V>(keys: seq<K>, entries: map<K, V>): (r: seq<V>)
    requires forall i :: 0 <= i < |keys| ==> keys[i] in entries
    ensures |r| == |keys| && forall i :: 0 <= i < |keys| ==> r[i] == entries[keys[i]]
  {
    if keys == [] then [] else [entries[keys[0]]] + ValuesOf(keys[1..], entries)
  }

  /** `Array.from(m.values())`. */
  function Values<K, V>(m: OMap<K, V>): (r: seq<V>)
    requires Valid(m)
    ensures |r| == |m.keys| && forall i :: 0 <= i < |m.keys| ==> r[i] == m.entries[m.keys[i]]
  {
    ValuesOf(m.keys, m.entries)
  }

  /** Reading back what was just set, and nothing else disturbed. */
  lemma PutGet<K, V>(m: OMap<K, V>, k: K, v: V, other: K)
    requires Valid(m)
    ensures Get(Put(m, k, v), k) == Some(v)
    ensures other != k ==> Get(Put(m, k, v), other) == Get(m, other)
  {
  }

  /** Setting a new key appends its value to the values. */
  lemma ValuesPutNew<K, V>(m: OMap<K, V>, k: K, v: V)
    requires Valid(m) && k !in m.entries
    ensures Values(Put(m, k, v)) == Values(m) + [v]
  {
    var r := Put(m, k, v);
    assert Values(r)[..|m.keys|] == Values(m);
  }

  /** Setting a present key replaces its value where it stands. */
  lemma ValuesPutExisting<K, V>(m: OMap<K, V>, k: K, v: V) returns (i: nat)
    requires Valid(m) && k in m.entries
    ensures i < |m.keys| && m.keys[i] == k
    ensures Values(Put(m, k, v)) == Values(m)[i := v]
  {
    i :| 0 <= i < |m.keys| && m.keys[i] == k;
  }

  /** A value is listed exactly when some key maps to it. */
  lemma InValues<K, V>(m: OMap<K, V>, v: V)
    requires Valid(m)
    ensures v in Values(m) <==> exists k :: k in m.entries && m.entries[k] == v
  {
    if v in Values(m) {
      var i :| 0 <= i < |m.keys| && Values(m)[i] == v;
      assert m.keys[i] in m.entries;
    }
    if exists k :: k in m.entries && m.entries[k] == v {
      var k :| k in m.entries && m.entries[k] == v;
      var i :| 0 <= i < |m.keys| && m.keys[i] == k;
      assert Values(m)[i] == v;
    }
  }
}
