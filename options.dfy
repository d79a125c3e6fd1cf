/** The `Option` type returned where the source returns `Option` or may fail. */
module Options {
  datatype Option<+T> = None | Some(value: T)
}
