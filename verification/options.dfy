/** The optional value the other modules use for an absent bound, instrument or field. */
module Options {
  datatype Option<+T> = None | Some(value: T)
}
