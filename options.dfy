/** A value that may be absent: an undefined JavaScript property, or a
    computation that threw. */
module Options {
  datatype Option<+T> = None | Some(value: T)
}
