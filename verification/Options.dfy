/** A value that may be missing: Go's `value, ok` returns and nullable columns. */
module Options {
  datatype Option<+T> = None | Some(value: T)
}
