/** Optional values and the outcome of a remote call. */
module Wrappers {

  datatype Option<+T> = None | Some(value: T)

  /** The result of an awaited REST call: the decoded body, or the
      exception it threw (with the exception's `message`, possibly empty). */
  datatype Fetch<+T> = Fetched(value: T) | FetchFailed(message: string)

  /** `f` if the call succeeded, `fallback` if it threw. */
  function ValueOr<T>(f: Fetch<T>, fallback: T): T {
    match f
    case Fetched(v) => v
    case FetchFailed(_) => fallback
  }
}
