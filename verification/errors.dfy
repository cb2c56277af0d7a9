/** The two error values of the parser and the shape of its Go-style
    `(value, error)` replies. */
module Errors {

  /** `None` plays the role of Go's `nil` error. */
  datatype Option<+T> = None | Some(value: T)

  /** The two sentinel errors: an odd number of quote characters on a line,
      and a field index outside the current record. */
  datatype Error = ErrQuote | ErrFieldCount

  /** A Go multi-value return `(value, err)`: on failure the value is the
      zero value (the empty string for the parser's replies). */
  datatype Reply<T> = Reply(value: T, err: Option<Error>) {
    predicate Ok() {
      err.None?
    }
  }
}
