/** Failure-compatible wrapper used where the emulator's Go code would panic
    (an out-of-range slice expression or index). */
module Wrappers {

  /** `None` stands for a run-time panic of the original executor; `Some`
      carries the value the executor computed. */
  datatype Option<+T> = None | Some(value: T) {

    predicate IsFailure() {
      None?
    }

    function PropagateFailure<U>(): Option<U>
      requires None?
    {
      None
    }

    function Extract(): T
      requires Some?
    {
      value
    }
  }
}
