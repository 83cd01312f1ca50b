/** Failure-carrying values shared by both scrapers.

    Neither scraper catches an exception: every Python error below aborts the
    run.  The model returns it instead, so that the conditions under which a
    step fails can be stated and proved. */
module Wrappers {

  datatype Option<+T> = None | Some(value: T)

  /** The Python exceptions the scrapers can raise. */
  datatype PyError =
    | KeyError(key: string)          // `d[k]` or `del d[k]` on a missing key
    | AttributeError(detail: string) // an attribute or method used on None
    | IndexError(detail: string)     // `td[k]` past the end of a cell list
    | ValueError(detail: string)     // `str.format` on a malformed template

  datatype Result<+T> = Ok(value: T) | Err(error: PyError)

  /** The result of a step that returns nothing. */
  datatype Outcome = Pass | Fail(error: PyError)
}
