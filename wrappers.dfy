/** Option and Result, the two failure-carrying value types the model uses. */
module Wrappers {

  datatype Option<+T> = None | Some(value: T) {
    function GetOr(default: T): T {
      match this
      case Some(v) => v
      case None => default
    }
  }

  datatype Result<+T, +E> = Ok(value: T) | Err(error: E)
}

/** What an HTTP handler answers: a status with a payload, or a status with an error text. */
module Http {
  import opened Wrappers

  datatype Reply<+T> = Success(status: int, data: T) | Failure(status: int, error: string)

  /** JavaScript truthiness of a request-body string: absent (undefined or null) and "" are falsy. */
  predicate Truthy(f: Option<string>) {
    f.Some? && f.value != ""
  }
}

/** The process environment the server reads. An unset variable is modelled as "", which
    the server treats exactly like an empty one (both are falsy). */
module Config {
  datatype Env = Env(jwtSecret: string, jwtExpiresIn: string, geminiApiKey: string, nodeEnv: string)
}
