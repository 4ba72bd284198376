/** An optional value: the model's counterpart of a result that may be `None`. */
module Options {
  datatype Option<+T> = None | Some(value: T)
}
