/** Diagnostics shared by every pass: the two error kinds of nestless.js
    (`Nope` for caller misuse, `Bug` for a broken internal invariant) and the
    failure-compatible wrappers the passes return instead of throwing. */
module Diagnostics {

  /** `Nope` is a user error (nestless.js:720-727), `Bug` an internal one
      (nestless.js:729-736). The source span attached in JS only feeds the
      error printer, so only the message is kept. */
  datatype Error = Nope(message: string) | Bug(message: string)

  datatype Option<+T> = None | Some(value: T)

  /** Success or failure of an operation that returns nothing. */
  datatype Outcome = Pass | Fail(error: Error) {
    predicate IsFailure() { Fail? }
    function PropagateFailure(): Outcome requires Fail? { this }
  }

  /** Success with a value, or failure. */
  datatype Result<+T> = Ok(value: T) | Err(error: Error) {
    predicate IsFailure() { Err? }
    function PropagateFailure<U>(): Result<U> requires Err? { Err(error) }
    function Extract(): T requires Ok? { value }
  }

}
