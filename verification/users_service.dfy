/** `UsersService`: account creation and lookup by email.  Each method is a
    try block whose catch rethrows a fixed HTTP exception. */
module UsersService {
  import opened Exceptions
  import opened Crypto
  import opened UsersEntity
  import opened UserDtos

  const EmailExistsMessage: string := "Email already exists"
  const CreateFailedMessage: string := "An error occurred while creating the user"
  const UserNotFoundMessage: string := "User not found"
  const FindFailedMessage: string := "An error occurred while finding the user by email"

  /** The projection returned across the trust boundary: no password and no
      reset fields. */
  datatype PublicUser = PublicUser(id: nat, email: string)

  /** The catch block of `createUser`: a unique violation becomes 409,
      everything else 500. */
  function CreateUserFailure(error: Thrown): (thrown: Thrown)
    ensures thrown.Http?
    ensures thrown.kind == Conflict <==> CodeOf(error) == Some(UniqueViolation)
    ensures thrown.kind == Conflict ==> thrown.message == EmailExistsMessage
    ensures thrown.kind != Conflict ==> thrown == Http(InternalServerError, CreateFailedMessage)
  {
    if CodeOf(error) == Some(UniqueViolation) then Http(Conflict, EmailExistsMessage)
    else Http(InternalServerError, CreateFailedMessage)
  }

  /** `createUser(dto)`: `repository.create(dto)` then `save`, answering the
      saved row's `{ id, email }`.  Only the second component of the result
      is returned to the caller; the first is the store afterwards. */
  function CreateUser(s: Store, dto: CreateUserDto, p: Primitives, db: DbCall): (r: (Store, Outcome<PublicUser>))
    ensures r.1.Ok? <==> db.Healthy? && dto.email !in s.users
    ensures r.1.Ok? ==>
      && dto.email in r.0.users
      && r.0.users == s.users[dto.email := r.0.users[dto.email]]
      && r.1.value == PublicUser(r.0.users[dto.email].id, dto.email)
      && r.0.users[dto.email].password == p.hash(dto.password, SaltRounds)
      && r.0.users[dto.email].resetToken.None?
      && r.0.users[dto.email].resetTokenExpiry.None?
    ensures r.1.Err? ==> r.0 == s
    ensures r.1.Err? && db.Healthy? ==> r.1.error == Http(Conflict, EmailExistsMessage)
    ensures db.Broken? ==> r.1.error == (if db.code == Some(UniqueViolation) then Http(Conflict, EmailExistsMessage)
                                         else Http(InternalServerError, CreateFailedMessage))
    ensures Valid(s) ==> Valid(r.0)
  {
    var draft := UserDraft(dto.email, dto.password, None, None);
    var (s1, saved) := Insert(s, draft, p, db);
    var body := match saved
      case Ok(u) => Ok(PublicUser(u.id, u.email))
      case Err(e) => Err(e);
    (s1, Rethrow(body, CreateUserFailure))
  }

  /** `findByEmail(email)`: the try block throws `NotFound` for a missing
      row, and the catch turns that, like any store failure, into 500. */
  function FindByEmail(s: Store, email: string, db: DbCall): (r: Outcome<User>)
    ensures r.Ok? <==> db.Healthy? && email in s.users
    ensures r.Ok? ==> r.value == s.users[email]
    ensures r.Err? ==> r.error == Http(InternalServerError, FindFailedMessage)
  {
    var body := match FindOne(s, email, db)
      case Err(e) => Err(e)
      case Ok(None) => Err(Http(NotFound, UserNotFoundMessage))
      case Ok(Some(u)) => Ok(u);
    Rethrow(body, (_: Thrown) => Http(InternalServerError, FindFailedMessage))
  }

  /** A missing user and a failed database produce the same exception, so
      `findByEmail` never reports `NotFound`. */
  lemma MissingUserLooksLikeStoreFailure(s: Store, email: string, code: Option<string>)
    requires email !in s.users
    ensures FindByEmail(s, email, Healthy) == FindByEmail(s, email, Broken(code))
    ensures FindByEmail(s, email, Healthy).error.kind != NotFound
  {
  }

  /** In a consistent store the row found is the one with that exact email. */
  lemma FoundUserHasThatEmail(s: Store, email: string)
    requires Valid(s) && email in s.users
    ensures FindByEmail(s, email, Healthy).Ok? && FindByEmail(s, email, Healthy).value.email == email
  {
  }
}
