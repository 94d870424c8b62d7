/** The nullable values of the source: a database null, a JavaScript `undefined`, a Python `None`. */
module Options {
  datatype Option<+T> = None | Some(value: T)
}
