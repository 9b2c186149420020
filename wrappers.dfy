/**
  Optional values, and the outcome of a request. `None` is a JavaScript
  property that is absent; where the code treats `null` differently from
  `undefined`, the page's own model says so.
*/
module Wrappers {

  datatype Option<+T> = None | Some(value: T) {

    /** The value, or `default` when there is none. */
    function GetOr(default: T): T
    {
      match this
      case Some(v) => v
      case None => default
    }
  }

  /** The outcome of a request: a failure, or a body's `metadata`. */
  datatype FetchResult<T> = FetchFailed | Fetched(metadata: T)
}
