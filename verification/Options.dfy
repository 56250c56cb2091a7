/** A value that may be absent: SQL NULL, JavaScript null or undefined. */
module Options {
  datatype Option<+T> = None | Some(value: T)
}
