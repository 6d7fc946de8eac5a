/** The value of an operation that may give none. */
module Options {

  datatype Option<+T> = None | Some(value: T)
}
