/** Optional values, and the outcome of one awaited network request. */
module Wrappers {

  datatype Option<+T> = None | Some(value: T)

  /**
   * What an awaited `fetch(...)` followed by `.json()` yields: the parsed
   * body, or a rejection that propagates to the nearest `catch`.
   */
  datatype Fetch<+T> = Got(value: T) | Threw
}
