/** Adding maps key by key: the operation behind every `setdefault` followed by an
    update in the aggregation of coverage records. */
module MapSums {

  ghost predicate Commutes<V(!new)>(add: (V, V) -> V) {
    forall x, y :: add(x, y) == add(y, x)
  }

  ghost predicate Associates<V(!new)>(add: (V, V) -> V) {
    forall x, y, z :: add(add(x, y), z) == add(x, add(y, z))
  }

  /** All keys of both maps; where both have a key, the values are added. */
  function PlusMap<K, V>(a: map<K, V>, b: map<K, V>, add: (V, V) -> V): (r: map<K, V>) {
    map k | k in a.Keys + b.Keys ::
      if k in a && k in b then add(a[k], b[k]) else if k in a then a[k] else b[k]
  }

  lemma PlusMapCommutes<K, V(!new)>(a: map<K, V>, b: map<K, V>, add: (V, V) -> V)
    requires Commutes(add)
    ensures PlusMap(a, b, add) == PlusMap(b, a, add)
  {
  }

  lemma PlusMapAssociates<K, V(!new)>(a: map<K, V>, b: map<K, V>, c: map<K, V>, add: (V, V) -> V)
    requires Associates(add)
    ensures PlusMap(PlusMap(a, b, add), c, add) == PlusMap(a, PlusMap(b, c, add), add)
  {
  }

  lemma PlusMapEmpty<K, V>(a: map<K, V>, add: (V, V) -> V)
    ensures PlusMap(a, map[], add) == a
    ensures PlusMap(map[], a, add) == a
  {
  }

  /** `setdefault` and update at one key is the addition of a one-key map. */
  lemma PlusMapOne<K, V>(a: map<K, V>, k: K, v: V, add: (V, V) -> V)
    ensures PlusMap(a, map[k := v], add) == a[k := if k in a then add(a[k], v) else v]
  {
  }

  /** A loop that adds the entries of `b` one at a time. */
  lemma PlusMapGrow<K, V>(a: map<K, V>, b: map<K, V>, k: K, v: V, add: (V, V) -> V)
    requires k !in b
    ensures PlusMap(a, b[k := v], add) == PlusMap(a, b, add)[k := if k in a then add(a[k], v) else v]
    ensures k in PlusMap(a, b, add) <==> k in a
    ensures k in a ==> PlusMap(a, b, add)[k] == a[k]
  {
  }
}
