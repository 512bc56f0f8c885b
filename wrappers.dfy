/** Small value wrappers shared by the modules of the dashboard model. */
module Wrappers {

  /** A value that may be absent, such as a missing storage entry. */
  datatype Option<+T> = None | Some(value: T)

  /** The outcome of a handler that either produces a value or reports a message. */
  datatype Result<+R, +E> = Success(value: R) | Failure(error: E)
}

/** Numbers read from form fields with `Number(field.value)`. */
module FormInput {

  /** A JavaScript number taken from a form field: an empty field reads as
      Finite(0.0), text that is not a number reads as NaN. */
  datatype Num = Finite(v: real) | NaN

  /** JavaScript's `!x` on a number: true for 0 and for NaN. */
  predicate Falsy(x: Num) {
    x.NaN? || x.v == 0.0
  }

  /** The guard `!x || x <= 0` passes only for a number above zero. */
  predicate Positive(x: Num) {
    x.Finite? && x.v > 0.0
  }
}
