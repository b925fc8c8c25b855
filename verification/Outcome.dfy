/** The result of a call that may end the program (exit(1) after a failed allocation). */
module Outcomes {
  datatype Outcome<+T> = Exit | Done(value: T) {
    predicate IsFailure() {
      Exit?
    }

    function PropagateFailure<U>(): Outcome<U>
      requires Exit?
    {
      Exit
    }

    function Extract(): T
      requires Done?
    {
      value
    }
  }
}
