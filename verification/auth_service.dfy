/** `AuthService`: the credential check and the issue of an access token. */
module AuthService {
  import opened Exceptions
  import opened Crypto
  import opened UsersEntity
  import opened ErrorHandler
  import UsersService

  type PublicUser = UsersService.PublicUser

  const InvalidCredentialsMessage: string := "Invalid email or password"

  /** `LoginUserDto`, the login request body. */
  datatype LoginUserDto = LoginUserDto(email: string, password: string)

  /** `{ access_token }`. */
  datatype AccessToken = AccessToken(access_token: string)

  /** `validateUser(email, password)`, typed `PublicUser | null`.  The
      `Unauthorized` thrown for a wrong password and the 500 thrown by
      `findByEmail` are both caught and passed to `handleDatabaseError`, which
      finds no `code` on either. */
  function ValidateUser(s: Store, p: Primitives, email: string, password: string, db: DbCall): (r: Outcome<Option<PublicUser>>)
    ensures r.Ok? <==> db.Healthy? && email in s.users && p.compare(password, s.users[email].password)
    ensures r.Ok? ==> r.value == Some(UsersService.PublicUser(s.users[email].id, s.users[email].email))
    ensures r.Err? ==> r.error == Http(InternalServerError, InternalMessage)
  {
    var body := match UsersService.FindByEmail(s, email, db)
      case Err(e) => Err(e)
      case Ok(user) =>
        if p.compare(password, user.password) then Ok(Some(UsersService.PublicUser(user.id, user.email)))
        else Err(Http(Unauthorized, InvalidCredentialsMessage));
    Rethrow(body, HandleDatabaseError)
  }

  /** `login(dto)`: validate, then sign `{ email, sub: id }`. */
  function Login(s: Store, p: Primitives, dto: LoginUserDto, db: DbCall): (r: Outcome<AccessToken>)
    ensures r.Ok? <==> db.Healthy? && dto.email in s.users && p.compare(dto.password, s.users[dto.email].password)
    ensures r.Ok? ==> r.value == AccessToken(p.sign(Claims(s.users[dto.email].email, s.users[dto.email].id)))
    ensures r.Err? ==> r.error == Http(InternalServerError, InternalMessage)
  {
    match ValidateUser(s, p, dto.email, dto.password, db)
    case Err(e) => Err(e)
    case Ok(None) => Err(Http(Unauthorized, InvalidCredentialsMessage))
    case Ok(Some(user)) => Ok(AccessToken(p.sign(Claims(user.email, user.id))))
  }

  /** `validateUser` never resolves to `null`, so the null check in `login`
      never throws. */
  lemma NullCheckUnreachable(s: Store, p: Primitives, email: string, password: string, db: DbCall)
    ensures ValidateUser(s, p, email, password, db) != Ok(None)
  {
  }

  /** A wrong password and an unknown email give the same failure, and it is
      a 500, not a 401: the outcome does not reveal whether the account
      exists. */
  lemma WrongPasswordLikeUnknownEmail(s: Store, p: Primitives, known: string, unknown: string, password: string, guess: string)
    requires known in s.users && unknown !in s.users
    requires !p.compare(guess, s.users[known].password)
    ensures Login(s, p, LoginUserDto(known, guess), Healthy) == Login(s, p, LoginUserDto(unknown, password), Healthy)
    ensures Login(s, p, LoginUserDto(known, guess), Healthy) == Err(Http(InternalServerError, InternalMessage))
  {
  }

  /** `login` hands on `validateUser`'s failure unchanged, and a failed login
      does not depend on the signer: `sign` is not reached. */
  lemma LoginFailurePropagates(s: Store, p: Primitives, sign2: Claims -> string, dto: LoginUserDto, db: DbCall)
    requires ValidateUser(s, p, dto.email, dto.password, db).Err?
    ensures Login(s, p, dto, db) == Err(ValidateUser(s, p, dto.email, dto.password, db).error)
    ensures Login(s, p, dto, db) == Login(s, p.(sign := sign2), dto, db)
  {
  }

  /** A successful login signs the claims of the user `validateUser`
      returned. */
  lemma LoginSignsValidatedUser(s: Store, p: Primitives, dto: LoginUserDto, db: DbCall)
    requires ValidateUser(s, p, dto.email, dto.password, db).Ok?
    ensures var user := ValidateUser(s, p, dto.email, dto.password, db).value.value;
            Login(s, p, dto, db) == Ok(AccessToken(p.sign(Claims(user.email, user.id))))
  {
  }
}
