/** An optional value, the counterpart of Swift's `T?`. */
module Optional {
  datatype Option<+T> = None | Some(value: T)
}
