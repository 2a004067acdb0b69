/** Small shared datatypes. */
module Common {

  /** A value that may be absent: `None` plays the role of JavaScript's `undefined`. */
  datatype Option<+T> = None | Some(value: T)
}
