/**
 * Values shared by every component: the exceptions the Python code raises,
 * a Result type standing for "returns a value or raises", and the loosely
 * typed size arguments (`int` or a two-element sequence) several entry
 * points accept.
 */
module Common {

  /** The exception classes raised on the modelled paths. */
  datatype Error =
    | AssertionError
    | ValueError
    | TypeError
    | IndexError
    | KeyError
    | AttributeError
    | NameError
    | FileNotFoundError
    | UnidentifiedImageError
    | OtherOSError  // an OSError subclass that no handler in the core catches

  /** A call either returns a value or raises one of the exceptions above. */
  datatype Result<+T> = Success(value: T) | Failure(error: Error) {
    predicate IsFailure() {
      Failure?
    }

    function PropagateFailure<U>(): Result<U>
      requires Failure?
    {
      Failure(error)
    }

    function Extract(): T
      requires Success?
    {
      value
    }
  }

  datatype Option<+T> = None | Some(value: T)

  /**
   * A size argument as the callers pass it: a plain integer, a sized
   * sequence of integers, or an object that is neither (a type with no
   * `__len__` that `int()` cannot convert). `listOrTuple` tells a Python
   * list or tuple from another sized value such as a numpy array: the
   * checks that go through `len` accept both, `isinstance` only the former.
   */
  datatype SizeArg =
    | IntSize(n: int)
    | SeqSize(items: seq<int>, listOrTuple: bool)
    | OtherSize
}
