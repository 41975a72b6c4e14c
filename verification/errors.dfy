/** The exceptions the game can raise on the paths this model covers, a
    failure-compatible result type that carries either a value or one of
    them, and an optional value. */
module Errors {

  /** The Python exceptions reachable from the engine and the controller. */
  datatype Fault =
    | IndexError      // `random.choice` on an empty list of free cells
    | AttributeError  // `getattr` of a `can_move_`/`move_` method that does not exist
    | ValueError      // `max` of an empty sequence of cells

  /** Either the value an operation returns, or the exception it raises. */
  datatype Result<+T> = Ok(value: T) | Raised(fault: Fault) {

    predicate IsFailure() {
      Raised?
    }

    function PropagateFailure<U>(): Result<U>
      requires Raised?
    {
      Raised(fault)
    }

    function Extract(): T
      requires Ok?
    {
      value
    }
  }

  /** A value that may be absent (Python's `None`). */
  datatype Option<+T> = None | Some(value: T)
}
