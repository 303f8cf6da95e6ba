/** An optional value, where the source uses a null or a missing entry. */
module Options {
  datatype Option<+T> = None | Some(value: T)
}
