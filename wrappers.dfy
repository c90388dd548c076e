/** The optional value used wherever the source has `null`, `None` or an absent key. */
module Wrappers {
  datatype Option<+T> = None | Some(value: T)

  /** Looking a key up in a dictionary: `None` when the key is absent (Python's `dict.get`). */
  function Get<K, V>(m: map<K, V>, k: K): (r: Option<V>)
    ensures r.Some? <==> k in m
    ensures r.Some? ==> r.value == m[k]
  {
    if k in m then Some(m[k]) else None
  }
}
