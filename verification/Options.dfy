/** A value that may be absent: Python's `None`, or a raised exception the model only notes. */
module Options {
  datatype Option<+T> = None | Some(value: T)
}
