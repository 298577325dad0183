/** Optional values and Python-style failures shared by every module of the model. */
module Wrappers {

  datatype Option<+T> = None | Some(value: T)

  /** The Python exceptions the modelled code can raise, by kind. */
  datatype Exception =
    | AssertionError
    | KeyError(key: string)
    | IndexError
    | ValueError
    | AttributeError
      /** any failure of the external completion service (network, status, malformed output) */
    | CompletionFailure

  /** A value, or the exception that aborted the computation. */
  datatype Result<+T> = Ok(value: T) | Raised(error: Exception)
}
