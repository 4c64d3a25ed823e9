/** An optional value: Python's `None` beside a value of type `T`. */
module Options {
  datatype Option<+T> = None | Some(value: T)
}
