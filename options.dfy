/** The optional value used wherever the source returns a possibly-null reference. */
module Options {

  datatype Option<+T> = None | Some(value: T)
}
