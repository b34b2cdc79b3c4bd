/** Option and Result values shared by every module of the model. */
module Results {

  /** A value that may be absent (a JavaScript `undefined`, a missing map key). */
  datatype Option<+T> = None | Some(value: T)

  /** The outcome of an operation that can fail with an error value. */
  datatype Result<+T, +E> = Ok(value: T) | Err(error: E)

  /** The outcome of a store operation that returns nothing but may be rejected. */
  datatype Status = Done | Rejected(reason: string)
}
