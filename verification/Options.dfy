// Absent or present values, used for Go's nil errors, missing rows and missing cache entries.
module Options {
  datatype Option<+T> = None | Some(value: T)
}
