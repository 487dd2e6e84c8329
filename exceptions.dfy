/**
 * The Java runtime exceptions the three parsers can raise, and the
 * failure-compatible types that carry them: a thrown exception ends the
 * whole parse, so `:-` stands for Java's unwinding.
 */
module Exceptions {

  /** An unchecked exception raised by the JVM while parsing. */
  datatype Fault =
    | EmptyStack       // `Stack.pop()` on an empty stack
    | ClassCast        // a token or stack value cast to a class it is not
    | NullUnboxing     // `(int)` applied to the `null` of a missing map entry
    | DivisionByZero   // integer `/` or `%` by zero

  /**
   * The state a parsing step leaves behind: it completed normally, or it threw
   * `fault`, in which case `st` is the state at the moment of the throw.
   */
  datatype Outcome<S> = Ok(st: S) | Thrown(fault: Fault, st: S) {
    predicate IsFailure() { Thrown? }

    function PropagateFailure(): Outcome<S>
      requires Thrown?
    {
      this
    }

    function Extract(): S
      requires Ok?
    {
      st
    }
  }

  /** How a method of a parser object returned: normally, or by throwing. */
  datatype Completion = Normal | Threw(fault: Fault) {
    predicate IsFailure() { Threw? }

    function PropagateFailure(): Completion
      requires Threw?
    {
      this
    }
  }

  /** A value, or the exception computing it raised. */
  datatype Result<T> = Success(value: T) | Failure(fault: Fault) {
    predicate IsFailure() { Failure? }

    function PropagateFailure<U>(): Result<U>
      requires Failure?
    {
      Failure(fault)
    }

    function Extract(): T
      requires Success?
    {
      value
    }
  }
}
