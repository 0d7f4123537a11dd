/** The optional value used wherever the program has `T | undefined` or `T | null`. */
module Options {
  datatype Option<+T> = None | Some(value: T)
}
