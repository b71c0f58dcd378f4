/** A value that may be absent: a missing record, an unset edit target. */
module Optional {
  datatype Option<T> = None | Some(value: T)
}
