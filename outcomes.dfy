/** Optional values and the two kinds of handler response. */
module Outcomes {

  /** A possibly missing cell of a table (pandas `NaN` / `NaT`). */
  datatype Option<T> = None | Some(value: T)

  /** The status every handler puts on its error object. */
  const InternalServerError: int := 500

  /** What a handler hands back: the response body, or the
      `{"error": message}` object with status 500. */
  datatype Response<T> = Success(value: T) | ServerError(status: int, message: string)
}
