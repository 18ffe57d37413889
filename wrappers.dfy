/** The optional value used wherever `index.js` reads a key that may be
    missing (`sessions[userId]`, `threads[threadKey]?.userId`). */
module Wrappers {

  datatype Option<+T> = None | Some(value: T)

  /** The value bound to `k` in `m`, or None when `k` is unbound. */
  function Lookup<K, V>(m: map<K, V>, k: K): (r: Option<V>)
    ensures r.Some? <==> k in m
    ensures r.Some? ==> r.value == m[k]
  {
    if k in m then Some(m[k]) else None
  }
}
