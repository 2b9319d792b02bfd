/** `handleDatabaseError`: maps anything caught to the HTTP exception that is
    thrown in its place.  Its TypeScript return type is `never`; here it
    returns the exception it throws, so a caller can only ever wrap the
    result in `Err`. */
module ErrorHandler {
  import opened Exceptions

  const DuplicateMessage: string := "The resource already exists."
  const InternalMessage: string := "An internal server error occurred"

  /** The exception `handleDatabaseError(error, context)` throws.  Only an
      error whose `code` is exactly the string "23505" becomes a conflict;
      everything else, HTTP exceptions included, becomes a 500. */
  function HandleDatabaseError(error: Thrown): (thrown: Thrown)
    ensures thrown.Http?
    ensures thrown.kind == Conflict <==> CodeOf(error) == Some(UniqueViolation)
    ensures thrown.kind == Conflict ==> thrown.message == DuplicateMessage
    ensures thrown.kind != Conflict ==> thrown == Http(InternalServerError, InternalMessage)
  {
    if CodeOf(error) == Some(UniqueViolation) then
      Http(Conflict, DuplicateMessage)
    else
      Http(InternalServerError, InternalMessage)
  }

  /** The outcome is a function of `error.code` alone. */
  lemma OnlyCodeMatters(a: Thrown, b: Thrown)
    requires CodeOf(a) == CodeOf(b)
    ensures HandleDatabaseError(a) == HandleDatabaseError(b)
  {
  }

  /** An HTTP exception, which has no `code`, always becomes the generic
      internal server error, whatever its own kind and message were. */
  lemma HttpExceptionsBecomeInternal(kind: HttpKind, message: string)
    ensures HandleDatabaseError(Http(kind, message)) == Http(InternalServerError, InternalMessage)
  {
  }

  /** Feeding back anything the handler threw yields the generic internal
      server error: a second catch-and-rethrow loses a conflict. */
  lemma RehandlingIsInternal(error: Thrown)
    ensures HandleDatabaseError(HandleDatabaseError(error)) == Http(InternalServerError, InternalMessage)
  {
  }
}
