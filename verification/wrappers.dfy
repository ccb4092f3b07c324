/** Optional values, and the lookup of a key that may be missing from a map. */
module Wrappers {

  datatype Option<+T> = None | Some(value: T)

  /** `k`'s entry in `m`, or None when `m` has no entry for `k`. */
  function Find<K, V>(m: map<K, V>, k: K): (r: Option<V>)
    ensures r.Some? <==> k in m
    ensures r.Some? ==> r.value == m[k]
  {
    if k in m then Some(m[k]) else None
  }
}
