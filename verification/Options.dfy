/** The optional value used where the program has a nullable column or pointer. */
module Options {
  datatype Option<+T> = None | Some(value: T)
}
