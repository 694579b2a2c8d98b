/** A value the program may leave undefined. */
module Options {
  datatype Option<+T> = None | Some(value: T)
}
