/** Failure-carrying values shared by every module of the model. */
module Results {

  datatype Option<+T> = None | Some(value: T)

  /** The outcome of an operation of the profiling script that either yields
      a value or aborts with an error (an `assert`, a failed subprocess, a
      failed parse in the script). */
  datatype Result<+T, +E> = Ok(value: T) | Fail(error: E)
}
