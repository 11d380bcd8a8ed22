/** A value that may be missing: a nil pointer, a key that is not in a map. */
module Options {
  datatype Option<T> = None | Some(value: T)
}
