/** Failure-compatible result types shared by the other modules. */
module Wrappers {

  datatype Option<+T> = None | Some(value: T) {
    predicate IsFailure() { None? }

    function PropagateFailure<U>(): Option<U>
      requires None?
    {
      None
    }

    function Extract(): T
      requires Some?
    {
      value
    }
  }

  /** How a call into the Go evaluator ends.  `Stuck` stands for a recursion through segments that
      has not come back within the depth it was given, `Panic` for an index out of range. */
  datatype Outcome<+T> = Stuck | Panic | Done(value: T) {
    predicate IsFailure() { !Done? }

    function PropagateFailure<U>(): Outcome<U>
      requires !Done?
    {
      if Stuck? then Stuck else Panic
    }

    function Extract(): T
      requires Done?
    {
      value
    }
  }
}
