/** The optional value used where a lookup or a parse can come up empty. */
module Options {
  datatype Option<+T> = None | Some(value: T)
}
