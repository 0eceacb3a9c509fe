/** An optional value, used by every model. */
module Options {
  datatype Option<+T> = None | Some(value: T)
}
