/** The stock optional value, for "missing or unreadable" throughout the model. */
module Options {
  datatype Option<+T> = None | Some(value: T)
}
