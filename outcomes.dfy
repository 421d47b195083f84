/** Exceptions and warnings raised by varvault, and the carriers that replace them. */
module Outcomes {

  datatype Option<+T> = None | Some(value: T)

  /** The Python exception classes the modelled code raises. */
  datatype ErrorKind =
    | ValueError
    | KeyError
    | TypeError
    | AssertionError
    | AttributeError
    | SyntaxError
    | NotImplementedError
    | ResourceNotFoundError

  /** A raised exception: its class and the names (keys, flags, functions) its message mentions. */
  datatype Error = Error(kind: ErrorKind, about: set<string>)

  /** A value, or the exception raised instead of returning one. */
  datatype Result<+T> = Success(value: T) | Failure(error: Error) {
    predicate IsFailure() { Failure? }
    function PropagateFailure<U>(): Result<U>
      requires Failure?
    {
      Failure(error)
    }
    function Extract(): T
      requires Success?
    {
      value
    }
  }

  /** A call that returns nothing, or the exception it raised. */
  datatype Outcome = Pass | Fail(error: Error) {
    predicate IsFailure() { Fail? }
    function PropagateFailure(): Outcome
      requires Fail?
    {
      this
    }
  }

  /** A call's result seen as an outcome: it returned, or it raised this exception. */
  function OutcomeOf<T>(r: Result<T>): Outcome
  {
    if r.Success? then Pass else Fail(r.error)
  }

  /** The warnings.warn calls of the modelled code. */
  datatype Warning =
    | ReadOnlyResourceWrite        // resource.write on a read-only resource
    | WriteAfterInitialisation     // the vault flushes to a resource whose mode forbids writing
    | IgnoredKeysNotInKeyring      // the factory drops unknown resource keys because of the flag
    | UnequalIterableLengths       // create_functions zips iterables of different lengths
}
