/** A value that may be missing, for the NULL results of the source. */
module Options {
  datatype Option<+T> = None | Some(value: T)
}
