/** The one helper type the whole project shares: a value that may be absent (`None` in the program). */
module Options {
  datatype Option<+T> = None | Some(value: T)
}
