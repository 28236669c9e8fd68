/** An optional value: a Java `null`, or an operation that threw, is `None`. */
module Options {
  datatype Option<+T> = None | Some(value: T)
}
