/** Values shared by the authorization and user modules: optional values,
    the errors the services return, and results that carry them. */
module Errors {

  datatype Option<+T> = None | Some(value: T)

  /** The two HTTP-status kinds the middleware itself produces. */
  datatype Kind = Unauthorized | Forbidden

  /** An error as it crosses a component boundary: either a status error
      built with the framework's constructors (kind, machine-readable reason,
      human-readable message) or an opaque error from a library or store. */
  datatype Error =
    | Status(kind: Kind, reason: string, message: string)
    | Failure(message: string)

  datatype Result<+T> = Ok(value: T) | Err(error: Error)

}
