/** The `users` table: the `User` entity, its `@BeforeInsert` hashing hook,
    and the repository calls the services make, as pure functions over a
    store keyed by email.  A `DbCall` says whether the database answers the
    call or fails with a driver error. */
module UsersEntity {
  import opened Exceptions
  import opened Crypto

  /** A row.  `resetTokenExpiry` is a timestamp in milliseconds. */
  datatype User = User(
    id: nat,
    email: string,
    password: string,
    resetToken: Option<string>,
    resetTokenExpiry: Option<int>)

  /** An entity made by `repository.create(...)` and not yet saved: it has no
      `id` yet. */
  datatype UserDraft = UserDraft(
    email: string,
    password: string,
    resetToken: Option<string>,
    resetTokenExpiry: Option<int>)

  /** `users` maps each stored email to its row; `nextId` is the next value
      of the serial sequence behind `@PrimaryGeneratedColumn()`. */
  datatype Store = Store(users: map<string, User>, nextId: nat)

  datatype DbCall = Healthy | Broken(code: Option<string>)

  /** Every row sits under its own email (so `@Column({ unique: true })`
      holds), ids come from the sequence, and no two rows share an id.
      Nothing relates `resetToken` to `resetTokenExpiry`. */
  ghost predicate Valid(s: Store)
  {
    && 1 <= s.nextId
    && (forall e :: e in s.users ==> s.users[e].email == e && 1 <= s.users[e].id < s.nextId)
    && (forall e1, e2 :: e1 in s.users && e2 in s.users && e1 != e2 ==> s.users[e1].id != s.users[e2].id)
  }

  /** A fresh database: no rows, and the sequence starts at 1. */
  function EmptyStore(): (s: Store)
    ensures Valid(s) && |s.users| == 0
  {
    Store(map[], 1)
  }

  /** `hashPassword`, the `@BeforeInsert()` hook: replaces the plaintext by
      its bcrypt digest with cost 10 and leaves every other field alone. */
  function HashPassword(draft: UserDraft, p: Primitives): (hooked: UserDraft)
    ensures hooked.password == p.hash(draft.password, SaltRounds)
    ensures hooked.(password := draft.password) == draft
  {
    draft.(password := p.hash(draft.password, SaltRounds))
  }

  /** `repository.save(draft)` for a new entity: the hook runs, the row gets
      the next id, and a row whose email is already stored violates the
      unique constraint.  On failure the store is unchanged. */
  function Insert(s: Store, draft: UserDraft, p: Primitives, db: DbCall): (r: (Store, Outcome<User>))
    ensures r.1.Ok? <==> db.Healthy? && draft.email !in s.users
    ensures r.1.Err? ==> r.0 == s
    ensures db.Healthy? && draft.email in s.users ==> r.1 == Err(Driver(Some(UniqueViolation)))
    ensures db.Broken? ==> r.1 == Err(Driver(db.code))
    ensures r.1.Ok? ==> var u := r.1.value;
      && u.email == draft.email
      && u.password == p.hash(draft.password, SaltRounds)
      && u.resetToken == draft.resetToken
      && u.resetTokenExpiry == draft.resetTokenExpiry
      && (Valid(s) ==> forall e :: e in s.users ==> s.users[e].id != u.id)
      && r.0.users == s.users[draft.email := u]
    ensures Valid(s) ==> Valid(r.0)
  {
    if db.Broken? then (s, Err(Driver(db.code)))
    else if draft.email in s.users then (s, Err(Driver(Some(UniqueViolation))))
    else
      var hooked := HashPassword(draft, p);
      var u := User(s.nextId, hooked.email, hooked.password, hooked.resetToken, hooked.resetTokenExpiry);
      (Store(s.users[draft.email := u], s.nextId + 1), Ok(u))
  }

  /** `repository.save(user)` for an entity loaded from the store: an UPDATE
      of its row.  `@BeforeInsert()` does not fire, so the password field is
      written as given, hashed or not.  Only saves that keep the row's email
      are covered: the store is keyed by email, while TypeORM updates by id. */
  function Update(s: Store, u: User, db: DbCall): (r: (Store, Outcome<User>))
    requires u.email in s.users && s.users[u.email].id == u.id
    ensures r.1.Ok? <==> db.Healthy?
    ensures r.1.Err? ==> r.0 == s
    ensures r.0.users.Keys == s.users.Keys && r.0.nextId == s.nextId
    ensures r.1.Ok? ==> r.0.users[u.email] == u
    ensures forall e :: e in s.users && e != u.email ==> r.0.users[e] == s.users[e]
    ensures Valid(s) ==> Valid(r.0)
  {
    if db.Broken? then (s, Err(Driver(db.code)))
    else (Store(s.users[u.email := u], s.nextId), Ok(u))
  }

  /** `repository.findOne({ where: { email } })`: exact match on email. */
  function FindOne(s: Store, email: string, db: DbCall): (r: Outcome<Option<User>>)
    ensures db.Broken? <==> r.Err?
    ensures r.Ok? ==> (r.value.Some? <==> email in s.users)
    ensures r.Ok? && r.value.Some? ==> r.value.value == s.users[email]
    ensures Valid(s) && r.Ok? && r.value.Some? ==> r.value.value.email == email
  {
    if db.Broken? then Err(Driver(db.code))
    else if email in s.users then Ok(Some(s.users[email]))
    else Ok(None)
  }

  /** Saving a loaded user never rehashes: after an insert and an update of
      the same row, the stored password is exactly what the update wrote. */
  lemma HashOnlyOnInsert(s: Store, draft: UserDraft, p: Primitives, newPassword: string)
    requires Valid(s) && draft.email !in s.users
    ensures var (s1, r1) := Insert(s, draft, p, Healthy);
      && r1.Ok?
      && s1.users[draft.email].password == p.hash(draft.password, SaltRounds)
      && var (s2, r2) := Update(s1, r1.value.(password := newPassword), Healthy);
         r2.Ok? && s2.users[draft.email].password == newPassword
  {
  }

  /** A second insert of a stored email is refused by the unique constraint
      and leaves the store as it was. */
  lemma DuplicateEmailRejected(s: Store, draft: UserDraft, other: UserDraft, p: Primitives)
    requires draft.email !in s.users && other.email == draft.email
    ensures var (s1, _) := Insert(s, draft, p, Healthy);
            Insert(s1, other, p, Healthy) == (s1, Err(Driver(Some(UniqueViolation))))
  {
  }

  /** Any combination of reset token and expiry may be stored: the two
      nullable columns are independent. */
  lemma ResetFieldsIndependent(s: Store, email: string, token: Option<string>, expiry: Option<int>)
    requires Valid(s) && email in s.users
    ensures var u := s.users[email].(resetToken := token, resetTokenExpiry := expiry);
            var (s1, r) := Update(s, u, Healthy);
            Valid(s1) && s1.users[email].resetToken == token && s1.users[email].resetTokenExpiry == expiry
  {
  }
}
