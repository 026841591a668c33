/** Failure-carrying results for the lookups and insertions that the .NET
    collections reject by throwing (a missing key, a duplicate key, a null
    reference, `Last()` of an empty sequence). */
module Wrappers {

  /** The exceptions the modelled code lets propagate. */
  datatype Error =
    | KeyNotFound        // Dictionary indexer getter on a missing key
    | DuplicateKey       // Dictionary.Add on a key that is already present
    | NullReference      // a member read through a null reference
    | NoElements         // Enumerable.Last() of an empty sequence
    | InvalidOperation   // Nullable<T>.Value of an empty nullable
    | IndexOutOfRange    // a List<T> index outside the list

  datatype Option<+T> = None | Some(value: T)

  datatype Result<+T> = Ok(value: T) | Err(error: Error) {
    predicate IsFailure() { Err? }
    function PropagateFailure<U>(): Result<U>
      requires Err?
    {
      Err(error)
    }
    function Extract(): T
      requires Ok?
    {
      value
    }
  }

  datatype Outcome = Pass | Fail(error: Error)
}
