/** The shapes of the calculator's answers: a subnet list that may be
    missing, a value or the error that stopped it, and a check that passes
    or names what failed. */
module Results {

  datatype Option<+T> = None | Some(value: T)

  datatype Result<+T, +E> = Success(value: T) | Failure(error: E)

  datatype Outcome<+E> = Pass | Fail(error: E)
}
