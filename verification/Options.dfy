/** Values that may be absent: a C pointer that may be NULL, a result that may not exist. */
module Options {
  datatype Option<T> = None | Some(value: T)
}
