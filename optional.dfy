// The absent-or-present value used for JavaScript's `null`/`undefined` results.
module Optional {

  datatype Option<+T> = None | Some(value: T)
}
