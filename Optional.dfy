/** An optional value, for the source's `null`/`undefined` results. */
module Optional {
  datatype Option<+T> = None | Some(value: T)
}
