/**
 * Python's `dict`: a map whose keys remember the order of first insertion.
 * Assigning to an existing key keeps its position; a new key goes last.
 */
module PyDict {

  datatype Dict<K(==,!new), V> = Dict(keys: seq<K>, entries: map<K, V>) {

    /** Keys are listed once each, and exactly the keys of the map are listed. */
    ghost predicate Valid() {
      && (forall i, j :: 0 <= i < j < |keys| ==> keys[i] != keys[j])
      && (forall k :: k in entries <==> k in keys)
    }

    /** `k in d` */
    predicate Has(k: K) {
      k in entries
    }

    /** `d[k] = v` */
    function Put(k: K, v: V): (d: Dict<K, V>)
      ensures Valid() ==> d.Valid()
      ensures d.Has(k) && d.entries[k] == v
      ensures forall k' :: k' != k ==> (d.Has(k') <==> Has(k'))
      ensures forall k' :: k' != k && Has(k') ==> d.Has(k') && d.entries[k'] == entries[k']
      ensures |keys| <= |d.keys| && d.keys[..|keys|] == keys
      ensures Has(k) ==> d.keys == keys
      ensures !Has(k) ==> d.keys == keys + [k]
    {
      if k in entries then Dict(keys, entries[k := v]) else Dict(keys + [k], entries[k := v])
    }
  }

  /** `{}` */
  function Empty<K(==,!new), V>(): (d: Dict<K, V>)
    ensures d.Valid() && d.keys == [] && d.entries == map[]
  {
    Dict([], map[])
  }
}
