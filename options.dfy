/** The Option and Result datatypes the modules share. */
module Options {

  /** A value that may be absent: JavaScript's `undefined`, `NaN` or `null` where the source tests for them. */
  datatype Option<+T> = None | Some(value: T)

  /** Why a call into the generator throws instead of returning. */
  datatype Failure =
    | PrefixUndefined  // `prefix.length` read on the `undefined` that `randomChoice([])` yields

  /** A value, or the exception the JavaScript code would have thrown. */
  datatype Result<+T> = Ok(value: T) | Err(failure: Failure)
}
