/** A value that may be absent: the model's form of a nullable C pointer. */
module Options {
  datatype Option<+T> = None | Some(value: T)
}
