/** Failure-carrying values shared by every component of the asset pipeline. */
module Wrappers {

  /** A value that may be absent (PHP's `NULL` / `FALSE` returns). */
  datatype Option<+T> = None | Some(value: T)

  /** The outcome of an operation that may raise an exception. */
  datatype Result<+T> = Ok(value: T) | Err(message: string) {
    predicate IsFailure() { Err? }
  }

  /**
   * `exception($msg)` in the helpers throws only in development mode and is a
   * no-op otherwise: `Raise(devMode, msg, fallback)` is an error exactly in
   * development mode and the fallback value otherwise.
   */
  function Raise<T>(devMode: bool, message: string, fallback: T): (r: Result<T>)
    ensures r.Err? <==> devMode
    ensures r.Ok? ==> r.value == fallback
  {
    if devMode then Err(message) else Ok(fallback)
  }
}
