/** An optional value, used for the source's optional record fields and "no command" results. */
module Options {
  datatype Option<+T> = None | Some(value: T)
}
