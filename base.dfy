/** Small value wrappers shared by the other modules. */
module Base {

  /** A value that may be absent; `None` plays the role of a C `NULL` pointer. */
  datatype Option<+T> = None | Some(value: T)

  /** The two `ValueError`s that construction can raise. */
  datatype Error = InvalidPins | PeripheralInUse

  /** The result of an operation that either completes or raises an error. */
  datatype Outcome = Pass | Fail(error: Error)
}
