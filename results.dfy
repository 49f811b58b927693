/** Option and Result values shared by the playback and library models. */
module Results {

  /** A value that may be absent (`undefined`/`null` in the application). */
  datatype Option<+T> = None | Some(value: T) {
    /** The carried value, or `default` when absent (JavaScript's `x ?? default`). */
    function GetOr(default: T): T {
      match this
      case Some(v) => v
      case None => default
    }
  }

  /** The outcome of an operation that the application reports by throwing. */
  datatype Result<+T, +E> = Success(value: T) | Failure(error: E)
}
