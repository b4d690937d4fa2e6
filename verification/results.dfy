/** Outcome of a collector operation: either the updated value, or the
    assertion of the collector that the input violated. The collector treats
    each such assertion as fatal: the whole export is abandoned. */
module Results {

  /** The invariant the traversal found broken. */
  datatype Violation =
    | NestedTransform          // a second transform pushed: only one level is supported
    | SymbolLevel              // a symbol triangle drawn while the stack is not exactly one deep
    | SymbolTransformMismatch  // a symbol triangle drawn under a transform not AlmostEqual to the captured one

  datatype Result<+T> = Success(value: T) | Failure(violation: Violation) {

    predicate IsFailure() {
      Failure?
    }

    function PropagateFailure<U>(): Result<U>
      requires Failure?
    {
      Failure(violation)
    }

    function Extract(): T
      requires Success?
    {
      value
    }
  }

  datatype Option<+T> = None | Some(value: T) {

    function GetOr(default: T): T {
      match this
      case Some(v) => v
      case None => default
    }
  }
}
