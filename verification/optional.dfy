/** A value that may be absent: a null pointer, or a key that routes nowhere. */
module Optional {
  datatype Option<T> = None | Some(value: T)
}
