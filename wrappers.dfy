/**
 * Optional values, results and the HTTP errors the services raise.
 * A NestJS `throw new XxxException(message)` becomes `Err(Error(Xxx, message))`;
 * a plain `throw new Error(message)` becomes `Err(Error(InternalServerError, message))`.
 */
module Wrappers {

  datatype Option<T> = None | Some(value: T)

  /** The exception classes of @nestjs/common that the core throws. */
  datatype Status = BadRequest | Unauthorized | NotFound | InternalServerError

  datatype Error = Error(status: Status, message: string)

  datatype Result<T> = Ok(value: T) | Err(error: Error)

  /** The HTTP status each exception class carries. */
  function StatusCode(s: Status): int
  {
    match s
    case BadRequest => 400
    case Unauthorized => 401
    case NotFound => 404
    case InternalServerError => 500
  }

  /** JavaScript truthiness of a `string | undefined` value: present and non-empty. */
  predicate Present(o: Option<string>)
  {
    o.Some? && o.value != ""
  }

  function Fail<T>(status: Status, message: string): Result<T>
  {
    Err(Error(status, message))
  }
}
