/** Small value-or-absent wrapper used throughout the model: it stands for
    JavaScript's `null`, `undefined` and `NaN` wherever the source tests for them. */
module Wrappers {

  datatype Option<+T> = None | Some(value: T) {

    /** The wrapped value, or `default` when absent. */
    function GetOr(default: T): T
    {
      match this
      case Some(v) => v
      case None => default
    }
  }

  /** An outcome that is either a value or an error message. */
  datatype Result<+T> = Success(value: T) | Failure(error: string)
}
