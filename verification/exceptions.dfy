/** The values a `throw` in the core can carry, and the try/catch plumbing the
    services use.  An `async` body that resolves or rejects becomes an
    `Outcome`: `Ok(v)` for a returned value, `Err(e)` for a thrown `e`. */
module Exceptions {

  datatype Option<+T> = None | Some(value: T)

  /** The NestJS `HttpException` subclasses that the core throws. */
  datatype HttpKind = Unauthorized | NotFound | Conflict | InternalServerError

  /** The HTTP status each exception class carries. */
  function StatusOf(k: HttpKind): int
  {
    match k
    case Unauthorized => 401
    case NotFound => 404
    case Conflict => 409
    case InternalServerError => 500
  }

  /** Something thrown: an HTTP exception built by the core, or an error
      raised by the database driver, which may carry a SQLSTATE `code`. */
  datatype Thrown =
    | Http(kind: HttpKind, message: string)
    | Driver(code: Option<string>)

  /** PostgreSQL's SQLSTATE for `unique_violation` (class 23, integrity
      constraint violation, in Appendix A of the PostgreSQL manual). */
  const UniqueViolation: string := "23505"

  /** The value of `error.code`: an HTTP exception has no `code` property. */
  function CodeOf(e: Thrown): Option<string>
  {
    match e
    case Http(_, _) => None
    case Driver(code) => code
  }

  /** The settled value of a promise: resolved with a value or rejected. */
  datatype Outcome<+T> = Ok(value: T) | Err(error: Thrown)

  /** `try { body } catch (error) { throw handler(error) }`: a catch block
      that always throws again. */
  function Rethrow<T>(body: Outcome<T>, handler: Thrown -> Thrown): Outcome<T>
  {
    match body
    case Ok(v) => Ok(v)
    case Err(e) => Err(handler(e))
  }
}
