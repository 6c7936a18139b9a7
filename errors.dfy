/** Error categories of the compiler (error.h) and the failure-compatible result types
    every stage returns instead of terminating the process. */
module Errors {

  /** The five diagnostic categories; every fatal error carries one. */
  datatype ErrorType = LexerError | SyntaxError | SemanticError | CodegenError | SystemError

  /** A value or the category of the fatal error that stopped the stage. */
  datatype Result<+T> = Ok(value: T) | Err(error: ErrorType) {
    predicate IsFailure() { Err? }
    function PropagateFailure<U>(): Result<U> requires Err? { Err(error) }
    function Extract(): T requires Ok? { value }
  }

  /** Success without a value, or a fatal error. */
  datatype Outcome = Pass | Fail(error: ErrorType) {
    predicate IsFailure() { Fail? }
    function PropagateFailure(): Outcome requires Fail? { this }
  }

  datatype Option<+T> = None | Some(value: T)
}
