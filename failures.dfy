/**
 * Outcome types shared by the whole model. The generator reports every fatal
 * condition as an exception; here each one is a `Fail` carrying an `Error`.
 */
module Failures {

  datatype Option<+T> = None | Some(value: T)

  /** The exceptions the modelled code can raise. */
  datatype Error =
    | ArgumentNull(parameter: string)       // ArgumentNullException
    | DuplicateKey(key: string)             // Dictionary.Add on a key already present
    | KeyNotFound(key: string)              // Dictionary indexer on a missing key
    | NoDocumentElement                     // Enumerable.First finding no `document` element
    | NoRegisterArgument                    // a `[Register]` attribute written without an argument
    | Raised(message: string)               // new Exception(message)
    | Wrapped(message: string, inner: Error) // new Exception(message, inner)

  datatype Result<+T> = Ok(value: T) | Fail(error: Error) {
    predicate IsFailure() { Fail? }

    function PropagateFailure<U>(): Result<U>
      requires Fail?
    {
      Fail(error)
    }

    function Extract(): T
      requires Ok?
    {
      value
    }
  }
}
