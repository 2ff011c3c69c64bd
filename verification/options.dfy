module Options {
  datatype Option<+T> = None | Some(value: T) {
    /** This value if there is one, otherwise the other. */
    function Or(other: Option<T>): Option<T> {
      if Some? then this else other
    }

    function GetOr(default: T): T {
      if Some? then value else default
    }
  }

  /** The entry of a map at a key, if there is one. */
  function At<K, V>(m: map<K, V>, k: K): Option<V> {
    if k in m then Some(m[k]) else None
  }
}
