/** A C pointer or index that may be missing. */
module Optional {
  datatype Option<+T> = None | Some(value: T)
}
