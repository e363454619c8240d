/** Failure-carrying datatypes shared by every module of the model.

    `Option` stands for Python's `Optional[...]` (None or a value); `Outcome`
    stands for "returned normally" versus "raised", so that an exception the
    source lets escape is an explicit value rather than a precondition.
 */
module Wrappers {

  datatype Option<+T> = None | Some(value: T) {

    /** The value, or `default` when absent (Python's `x or default` on an Optional). */
    function GetOr(default: T): T {
      match this
      case Some(v) => v
      case None => default
    }

    predicate IsFailure() {
      None?
    }

    function PropagateFailure<U>(): Option<U>
      requires None?
    {
      None
    }

    function Extract(): T
      requires Some?
    {
      value
    }
  }

  /** The Python exception classes the modelled code raises or catches. */
  datatype PyError = ValueError | TypeError | OverflowError | AttributeError | IndexError | KeyError

  /** Either a normal return with a value, or a raised exception. */
  datatype Outcome<+T> = Ok(value: T) | Raised(error: PyError) {

    predicate IsFailure() {
      Raised?
    }

    function PropagateFailure<U>(): Outcome<U>
      requires Raised?
    {
      Raised(error)
    }

    function Extract(): T
      requires Ok?
    {
      value
    }

    /** The effect of wrapping the call in `try: ... except: return None`. */
    function ToOption(): Option<T> {
      match this
      case Ok(v) => Some(v)
      case Raised(_) => None
    }
  }
}
