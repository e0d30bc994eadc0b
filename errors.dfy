/**
 * The error enum of the bindings (refprop/src/error.rs) and the `Result`
 * every fallible operation returns.
 */
module Errors {

  /**
   * What an `InvalidInput` error is about. The source formats these into a
   * message; the model keeps the parts the message names.
   */
  datatype InputProblem =
    | NotFinite(name: string)                      // "{name} must be a finite number"
    | UnsupportedPair(key1: string, key2: string)  // upper-cased keys of the rejected pair
    | UnknownOutput(output: string)                // the output key as the caller wrote it
    | ComponentCount(count: nat)                   // "Number of components must be 1-20"

  datatype RefpropError =
    | Refprop(code: int, message: string)          // engine reported ierr > 0
    | Warning(code: int, message: string)          // declared by the enum; nothing returns it
    | LibraryNotFound(detail: string)
    | FluidNotFound(detail: string)
    | InvalidInput(problem: InputProblem)
    | CalculationFailed(detail: string)

  datatype Option<+T> = None | Some(value: T)

  datatype Result<+T> = Ok(value: T) | Err(error: RefpropError) {
    predicate IsFailure() { Err? }
    function PropagateFailure<U>(): Result<U> requires Err? { Err(error) }
    function Extract(): T requires Ok? { value }
  }
}
