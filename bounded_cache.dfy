/** The project's `LRUMap` as the routers and the cache aspect use it: a
    map that never holds more entries than its capacity. Which entry it
    drops to make room is left open, so nothing here depends on the
    eviction order. */
module BoundedCache {

  /** How many entries a map of this capacity can keep. */
  function MaxEntries(capacity: int): nat {
    if capacity <= 0 then 0 else capacity
  }

  datatype BoundedMap<K, V> = BoundedMap(capacity: int, entries: map<K, V>) {
    predicate Valid() {
      |entries| <= MaxEntries(capacity)
    }
  }

  /** `new LRUMap(capacity)`. */
  function NewBoundedMap<K, V>(capacity: int): (m: BoundedMap<K, V>)
    ensures m.Valid() && m.entries == map[] && m.capacity == capacity
  {
    BoundedMap(capacity, map[])
  }

  /** `put`: the key maps to the value afterwards (when anything can be
      kept at all), no other entry changes its value, and at most one other
      entry is dropped, and only when the map was full. */
  method Put<K, V>(m: BoundedMap<K, V>, key: K, value: V) returns (m': BoundedMap<K, V>)
    requires m.Valid()
    ensures m'.Valid() && m'.capacity == m.capacity
    ensures m.capacity >= 1 ==> key in m'.entries && m'.entries[key] == value
    ensures m.capacity < 1 ==> m'.entries == map[]
    ensures forall k :: k in m'.entries && k != key ==> k in m.entries && m'.entries[k] == m.entries[k]
    ensures key in m.entries || |m.entries| < MaxEntries(m.capacity) ==>
      forall k :: k in m.entries ==> k in m'.entries
    ensures |m.entries.Keys - m'.entries.Keys| <= 1
  {
    if m.capacity < 1 {
      m' := m.(entries := map[]);
      assert m.entries == map[];
    } else if key in m.entries || |m.entries| < m.capacity {
      m' := m.(entries := m.entries[key := value]);
    } else {
      var victim :| victim in m.entries;
      var kept := m.entries - {victim};
      assert |kept| == |m.entries| - 1;
      m' := m.(entries := kept[key := value]);
      assert m.entries.Keys - m'.entries.Keys == {victim};
    }
  }

  /** `clear`. */
  function Clear<K, V>(m: BoundedMap<K, V>): (m': BoundedMap<K, V>)
    ensures m'.Valid() && m'.entries == map[] && m'.capacity == m.capacity
  {
    m.(entries := map[])
  }
}
