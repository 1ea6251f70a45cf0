/** A value that may be missing: a nil pointer, an absent row, a key that is not there. */
module Options {
  datatype Option<T> = None | Some(value: T)
}
