/** The optional value every other module uses for a missing file, a null or an absent key. */
module Wrappers {
  datatype Option<+T> = None | Some(value: T)

  /** The value at `key`, or None when the map holds no such key. */
  function Lookup<K, V>(m: map<K, V>, key: K): Option<V> {
    if key in m then Some(m[key]) else None
  }

  /** `m` with `key` holding `value`, or without `key` when the value is None. */
  function Assign<K(!new), V>(m: map<K, V>, key: K, value: Option<V>): (r: map<K, V>)
    ensures forall k :: Lookup(r, k) == if k == key then value else Lookup(m, k)
  {
    match value
    case None => m - {key}
    case Some(v) => m[key := v]
  }

  /** Two maps with the same lookups are the same map. */
  lemma SameLookups<K(!new), V>(a: map<K, V>, b: map<K, V>)
    requires forall k :: Lookup(a, k) == Lookup(b, k)
    ensures a == b
  {
    assert forall k :: k in a <==> Lookup(a, k).Some?;
    assert forall k :: k in b <==> Lookup(b, k).Some?;
    assert forall k | k in a :: Lookup(a, k) == Some(a[k]);
  }
}
