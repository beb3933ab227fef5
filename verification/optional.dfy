/** An optional value: the result of an operation that may have nothing to give back. */
module Optional {

  datatype Option<+T> = None | Some(value: T)

}
