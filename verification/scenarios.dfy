/** Whole requests: a service call whose failure goes through
    `HttpExceptionFilter`, and registration followed by login. */
module Scenarios {
  import opened Exceptions
  import opened Crypto
  import opened UsersEntity
  import opened UserDtos
  import opened ErrorHandler
  import opened HttpExceptionFilter
  import UsersService
  import AuthService

  /** Every failure a service settles with is an HTTP exception: no driver
      error, and so no SQLSTATE or stack, reaches the client. */
  lemma ServicesOnlyThrowHttp(s: Store, p: Primitives, dto: CreateUserDto, login: AuthService.LoginUserDto, db: DbCall)
    ensures UsersService.CreateUser(s, dto, p, db).1.Err? ==> UsersService.CreateUser(s, dto, p, db).1.error.Http?
    ensures UsersService.FindByEmail(s, dto.email, db).Err? ==> UsersService.FindByEmail(s, dto.email, db).error.Http?
    ensures AuthService.Login(s, p, login, db).Err? ==> AuthService.Login(s, p, login, db).error.Http?
  {
  }

  /** The reply the exception filter sends for a failed service call. */
  function FailureReply(e: Thrown, timestamp: string, url: string): (reply: Reply)
    requires e.Http?
    ensures e.message != "" ==> reply == Reply(StatusOf(e.kind), ErrorBody(StatusOf(e.kind), timestamp, url, Text(e.message)))
  {
    var reply := Catch(ToHttpException(e.kind, e.message), timestamp, url);
    if e.message != "" then
      ThrownExceptionReply(e.kind, e.message, timestamp, url);
      reply
    else reply
  }

  /** Every failure of `login`, whatever the cause (unknown email, wrong
      password, database down), gets the same 500 body from the exception
      filter; never 401.  No route reaches `login` itself: the controller
      calls `loginUser`, which `AuthService` does not define. */
  lemma FailedLoginReply(s: Store, p: Primitives, dto: AuthService.LoginUserDto, db: DbCall, timestamp: string, url: string)
    requires AuthService.Login(s, p, dto, db).Err?
    ensures FailureReply(AuthService.Login(s, p, dto, db).error, timestamp, url)
         == Reply(500, ErrorBody(500, timestamp, url, Text(InternalMessage)))
  {
  }

  /** `validateUser` never fails with a conflict, even when the database
      error carries the unique-violation code: `findByEmail` has already
      replaced it by an exception without a code. */
  lemma ValidateUserNeverConflict(s: Store, p: Primitives, email: string, password: string)
    ensures AuthService.ValidateUser(s, p, email, password, Broken(Some(UniqueViolation)))
         == Err(Http(InternalServerError, InternalMessage))
  {
  }

  /** Registering an email twice: the second request is answered 409 with
      "Email already exists". */
  lemma SecondRegistrationConflicts(s: Store, dto: CreateUserDto, again: CreateUserDto, p: Primitives, timestamp: string, url: string)
    requires Valid(s) && dto.email !in s.users && again.email == dto.email
    ensures var (s1, first) := UsersService.CreateUser(s, dto, p, Healthy);
            var (s2, second) := UsersService.CreateUser(s1, again, p, Healthy);
            && first.Ok? && second.Err? && s2 == s1
            && FailureReply(second.error, timestamp, url)
               == Reply(409, ErrorBody(409, timestamp, url, Text(UsersService.EmailExistsMessage)))
  {
  }

  /** Under the bcrypt assumption that a digest verifies against its own
      plaintext, a registered user can log in with the registered password,
      and the token carries the new row's email and id. */
  lemma RegisterThenLogin(s: Store, dto: CreateUserDto, p: Primitives)
    requires Valid(s) && dto.email !in s.users
    requires CompareAcceptsOwnHash(p, SaltRounds)
    ensures var (s1, created) := UsersService.CreateUser(s, dto, p, Healthy);
            && created.Ok?
            && AuthService.Login(s1, p, AuthService.LoginUserDto(dto.email, dto.password), Healthy)
               == Ok(AuthService.AccessToken(p.sign(Claims(dto.email, created.value.id))))
  {
    var (s1, created) := UsersService.CreateUser(s, dto, p, Healthy);
    assert p.compare(dto.password, p.hash(dto.password, SaltRounds));
    assert s1.users[dto.email].password == p.hash(dto.password, SaltRounds);
  }

  /** Without that assumption nothing lets a user log in: with a `compare`
      that accepts nothing, even the registered password fails. */
  lemma LoginNeedsCompare(s: Store, dto: CreateUserDto, p: Primitives)
    requires Valid(s) && dto.email !in s.users
    requires forall plain, digest :: !p.compare(plain, digest)
    ensures var (s1, created) := UsersService.CreateUser(s, dto, p, Healthy);
            AuthService.Login(s1, p, AuthService.LoginUserDto(dto.email, dto.password), Healthy).Err?
  {
  }
}
