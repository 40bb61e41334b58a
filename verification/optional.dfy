/** A value that may be missing: JavaScript's `undefined` or `null`. */
module Optional {

  datatype Option<+T> = None | Some(value: T)
}
