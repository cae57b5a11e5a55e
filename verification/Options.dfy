/** A value that may be absent: the model's null pointers and empty function objects. */
module Options {
  datatype Option<+T> = None | Some(value: T)
}
