/** Small shared definitions: the optional value used where the source has
    a nullable reference, and a fact about dictionary writes. */
module Wrappers {
  datatype Option<T> = None | Some(value: T)

  /** A second write to the same key hides the first. */
  lemma Overwrite<K, V>(m: map<K, V>, k: K, first: V, second: V)
    ensures m[k := first][k := second] == m[k := second]
  {
  }
}
