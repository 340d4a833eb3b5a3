/** A value that may be missing, as `None` in the services. */
module Options {
  datatype Option<+T> = None | Some(value: T)
}
