/** Option and Result values, and the errors the client raises. */
module Wrappers {

  datatype Option<+T> = None | Some(value: T)

  datatype Result<+R, +E> = Success(value: R) | Failure(error: E)

  /** The three ways the client's operations fail; each is a `ValueError` in the client. */
  datatype Error =
    | LimitTooLarge     // a page size above the query maximum was requested
    | NullResponse      // a page function returned no response
    | NoArtistCredits   // the maximum of an empty artist tally was asked for
}
