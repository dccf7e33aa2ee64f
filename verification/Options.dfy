/** The conventional datatype for a value that may be absent: a missing file, key or field. */
module Options {
  datatype Option<+T> = None | Some(value: T)
}
