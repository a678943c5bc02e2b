/** The value that may be absent, as in the source's `Option`. */
module Options {
  datatype Option<+T> = None | Some(value: T)
}
