/** Values that may be missing: Python's None, SQL's NULL, a raised error. */
module Options {
  datatype Option<+T> = None | Some(value: T)
}
