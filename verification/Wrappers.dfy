/** A value that may be absent: a pointer that may be NULL, a map that may lack the key. */
module Wrappers {
  datatype Option<+T> = None | Some(value: T)

  // The value a plain map holds for a key.
  function Get<K, V>(m: map<K, V>, k: K): Option<V> {
    if k in m then Some(m[k]) else None
  }
}
