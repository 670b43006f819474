/** An optional value: the source's `null`/`undefined`, or "no hand seen". */
module Options {
  datatype Option<+T> = None | Some(value: T)
}
