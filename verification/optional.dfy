/** The value-or-nothing type used wherever the page reads something that may be undefined. */
module Optional {

  /** `None` stands for JavaScript's `undefined` (or `null`); `Some(v)` for a present value. */
  datatype Option<+T> = None | Some(value: T)
}
