// A value that may be absent: a null pointer, an unset slot, a call that does not return.
module Options {
  datatype Option<+T> = None | Some(value: T)
}
