/** A value that may be absent, and reading a map that may lack the key. */
module Optional {

  datatype Option<+T> = None | Some(value: T)

  function Lookup<K, V>(m: map<K, V>, k: K): Option<V> {
    if k in m then Some(m[k]) else None
  }
}
