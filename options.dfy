/** The optional value used where Python has `None`. */
module Options {

  datatype Option<+T> = None | Some(value: T)
}
