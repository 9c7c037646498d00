/** A value that may be missing: Swift's optionals and Python's None. */
module Options {
  datatype Option<+T> = None | Some(value: T)
}
