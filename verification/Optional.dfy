/** A value that may be absent, as `undefined` and `null` are used by the libraries. */
module Optional {
  datatype Option<+T> = None | Some(value: T)
}
