/** The absent-or-present value used wherever the engine hands back a nullable reference. */
module Optional {
  datatype Option<+T> = None | Some(value: T)
}
