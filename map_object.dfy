/** Go maps are references: every holder of a map sees, and may change, the
    same table, and a nil map reads as empty. This module gives the model of
    such a map that the registry's copy and the error's detail bag share. */
module MapObjects {

  /** A Go map value `map[K]V`. A nil map is a null `MapObject?`. */
  class MapObject<K(==), V> {
    var entries: map<K, V>

    /** `make(map[K]V)` followed by the given insertions. */
    constructor (initial: map<K, V>)
      ensures entries == initial
    {
      entries := initial;
    }

    /** The assignment `m[k] = v`. */
    method Put(k: K, v: V)
      modifies this
      ensures entries == old(entries)[k := v]
    {
      entries := entries[k := v];
    }

    /** The built-in `delete(m, k)`; a missing key is left alone. */
    method Delete(k: K)
      modifies this
      ensures entries == old(entries) - {k}
    {
      entries := entries - {k};
    }
  }

  /** What a possibly nil map holds, as reads of it see it. */
  function Contents<K(==), V>(m: MapObject?<K, V>): map<K, V>
    reads m
  {
    if m == null then map[] else m.entries
  }
}
