/** Option and Result, used for the scraper's lookups that may find nothing and
    for the steps that end the run with an error. */
module Wrappers {

  datatype Option<+T> = None | Some(value: T)

  datatype Result<+R, +E> = Success(value: R) | Failure(error: E)
}
