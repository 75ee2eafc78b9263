/** Failure-carrying values used throughout the model: a value that may be
    absent, and a host call that may throw. */
module Results {

  /** A value that may be absent (a missing script property, a file without an owner). */
  datatype Option<+T> = None | Some(value: T)

  /** The outcome of a host call that may throw: its value, or the message of
      the exception it raised. */
  datatype Result<+T> = Ok(value: T) | Failed(message: string)
}
