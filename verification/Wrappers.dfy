module Wrappers {

  datatype Option<+T> = None | Some(value: T)

  /** Redis GET as a value: what the key holds, if it exists. */
  function Lookup<K, V>(m: map<K, V>, k: K): Option<V> {
    if k in m then Some(m[k]) else None
  }
}
