/** The one optional value type the other modules share; it stands for a C pointer that may be NULL. */
module Options {
  datatype Option<+T> = None | Some(value: T)
}
