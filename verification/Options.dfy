/** The optional value that stands for the source's `None`. */
module Options {
  datatype Option<+T> = None | Some(value: T)
}
