/** A value that may be absent: a null pointer, an unset promise, a failed search. */
module Options {
  datatype Option<+T> = None | Some(value: T)
}
