# TalentMatch authentication core, modelled in Dafny

This project models the account and login core of the TalentMatch NestJS backend:

- the `User` entity and its `@BeforeInsert` bcrypt hook;
- the password rule shared by `CreateUserDto` and `VerifyResetCodeDto` (`@MinLength(8)` plus the strength pattern `^(?=.*\d)(?=.*[a-z])(?=.*[A-Z])(?=.*\W).+$`);
- `UsersService.createUser` and `findByEmail`;
- `AuthService.validateUser` and `login`;
- `handleDatabaseError`, which turns anything caught into an HTTP exception;
- `HttpExceptionFilter.catch`, which turns that exception into the response body.

How the source is rendered:

- **Exceptions.** Everything a `throw` can carry is a `Thrown` value: `Http(kind, message)` for a NestJS exception, or `Driver(code)` for a database error with its SQLSTATE. An `async` body settles as `Outcome` (`Ok(v)` or `Err(e)`). A try/catch that always rethrows is `Rethrow`. `handleDatabaseError` returns the exception it throws. Its TypeScript type is `never`, so a caller can only wrap that result in `Err`.
- **Store.** The database is a `Store`. It maps each email to its row and holds the next value of the id sequence. The repository calls are pure functions over it: `Insert`, `Update` and `FindOne`. A `DbCall` parameter says whether a call reaches the database or fails with a driver error. `async`/`await` is plain sequencing.
- **Foreign primitives.** `bcrypt.hash`, `bcrypt.compare` and `jwtService.sign` are function-valued fields of `Crypto.Primitives`. They are passed in, never defined, so every property holds for every choice of them. The fact that a bcrypt digest verifies against its own plaintext appears only as the named hypothesis `CompareAcceptsOwnHash`, stated where a lemma needs it.
- **Password rule.** The strength pattern is modelled the way an ECMAScript RegExp engine reads it with no flags (section 22.2 of ECMA-262):
  - `^` matches only at position 0, and each `(?=.*X)` looks for an `X` preceded only by characters that `.` matches;
  - `.+$` needs a non-empty input with no line terminator (LF, CR, U+2028, U+2029; section 12.3 of ECMA-262);
  - `\d` is `[0-9]` and `\W` is everything outside `[A-Za-z0-9_]`.

  `StrengthPatternCharacterised` proves this equal to the plain reading (non-empty, one line, has a digit, a lower-case letter, an upper-case letter and a non-word character). `CheckPassword` decides the same rule in one pass.

What the code does here differs from the intent its messages suggest, and the model follows the code. `validateUser` throws `UnauthorizedException` for a wrong password, but its own catch block passes that to `handleDatabaseError`. An HTTP exception has no `code` property, so it becomes a 500 with "An internal server error occurred". `findByEmail` likewise turns its own `NotFound` into a 500. So every failed login is the same 500, whether the email is unknown, the password is wrong or the database is down. No 401 is ever produced, and the `if (!user)` check in `login` cannot fire.

The entity also leaves the two reset columns unrelated: `resetToken` and `resetTokenExpiry` are separately nullable, and nothing keeps them set or cleared together. `UsersEntity.Valid` therefore says nothing about them.

Encoding assumptions:

- Dafny strings are sequences of Unicode scalar values, while JavaScript strings are UTF-16.
- `@MinLength` uses validator.js `isLength`, which counts UTF-16 code units, then subtracts one per surrogate pair and one per presentation selector (U+FE0E, U+FE0F). That is the number of scalar values other than those two selectors, and `ClassValidator.ValidatorLength` computes exactly that.
- Without the `u` flag the RegExp engine sees a scalar above U+FFFF as two surrogate code units. Both are in `\W` and neither is a line terminator, so classifying the whole scalar as `\W` gives the same match.

## Model

| member | source | states |
|---|---|---|
| ErrorHandler.HandleDatabaseError | src/common/utils/error-handler.util.ts:3-13 | always ends in an HTTP exception; it is a Conflict ("The resource already exists.") exactly when `error.code` is the string "23505", otherwise the InternalServerError "An internal server error occurred" |
| ErrorHandler.OnlyCodeMatters | src/common/utils/error-handler.util.ts:6-12 | two errors with the same `code` are handled identically |
| ErrorHandler.HttpExceptionsBecomeInternal | src/common/utils/error-handler.util.ts:11-12 | any HTTP exception passed in, a 401 or 404 included, becomes the generic 500 |
| ErrorHandler.RehandlingIsInternal | src/common/utils/error-handler.util.ts:6-12 | handling an exception this function produced yields the generic 500, so a conflict does not survive a second catch |
| HttpExceptionFilter.Catch | src/common/filters/http-exception.filter.ts:6-22 | the status sent is `getStatus()` (500 when the exception has no such method); `body.statusCode` equals it; `path` is the request URL and `timestamp` the clock reading; the message is the response's truthy `message`, else "An unexpected error occurred"; the body message is never falsy |
| HttpExceptionFilter.OtherFieldsDropped | src/common/filters/http-exception.filter.ts:14-19 | response properties other than `message` have no influence on the reply (the other-properties map never holds a `message` key, which the encoding keeps separate) |
| HttpExceptionFilter.FallbackWhenFalsy | src/common/filters/http-exception.filter.ts:11-12 | a bare-string response, a missing message and an empty message all show "An unexpected error occurred" |
| HttpExceptionFilter.ThrownExceptionReply | src/common/filters/http-exception.filter.ts:9-21 | an exception the core throws with a non-empty message reaches the client with its class's status and that message |
| ClassValidator.PresentationSelectorCount | src/users/dto/create-user.dto.ts:9 | a string never holds more presentation selectors than characters, so the measured length is never negative |
| ClassValidator.ValidatorLength | src/users/dto/create-user.dto.ts:9 | the length `@MinLength` measures never exceeds the number of characters |
| ClassValidator.PlainLength | src/users/dto/create-user.dto.ts:9 | for a string without presentation selectors, such as any ASCII string, the measured length is the plain length |
| PasswordPolicy.LookaheadOnSingleLine | src/users/dto/create-user.dto.ts:10 | on a line-terminator-free string, `(?=.*X)` succeeds exactly when the string contains an `X` |
| PasswordPolicy.StrengthPatternCharacterised | src/users/dto/create-user.dto.ts:10 | the pattern matches exactly the non-empty, line-terminator-free strings with a digit, a lower-case letter, an upper-case letter and a character outside `[A-Za-z0-9_]` |
| PasswordPolicy.PasswordValidCharacterised | src/users/dto/create-user.dto.ts:8-13 | a password passes the three decorators exactly when it is a string of measured length at least 8 that satisfies the plain reading of the pattern |
| PasswordPolicy.ShortPasswordRejected | src/users/dto/create-user.dto.ts:9 | a password of fewer than 8 characters is rejected |
| PasswordPolicy.NonStringRejected | src/users/dto/create-user.dto.ts:8 | a value that is not a string is rejected |
| PasswordPolicy.UnderscoreIsNotSpecial | src/users/dto/create-user.dto.ts:10 | underscore is not a special character, space is |
| PasswordPolicy.AcceptsMixedWithBang | src/users/dto/create-user.dto.ts:9-10 | "Abcdef1!" is accepted |
| PasswordPolicy.AcceptsSpaceAsSpecial | src/users/dto/create-user.dto.ts:9-10 | "Abc 1efg" is accepted |
| PasswordPolicy.RejectsWithoutUpper | src/users/dto/create-user.dto.ts:10 | "abcdef1!" is rejected |
| PasswordPolicy.RejectsWithoutDigit | src/users/dto/create-user.dto.ts:10 | "Abcdefg!" is rejected |
| PasswordPolicy.RejectsUnderscoreAsOnlySpecial | src/users/dto/create-user.dto.ts:10 | "Abcdef1_" is rejected |
| PasswordPolicy.RejectsSevenCharacters | src/auth/dto/reset-password.dto.ts:8-9 | "Abc1!de" matches the pattern and is still rejected by `@MinLength(8)` |
| PasswordPolicy.CheckPassword | src/users/dto/create-user.dto.ts:8-13 | a single left-to-right scan accepts exactly the passwords the decorators accept |
| UserDtos.ValidateCreateUser | src/users/dto/create-user.dto.ts:4-14 | a body is admitted exactly when it has just `email` and `password`, the email is a string the email check accepts, and the password is a string of measured length at least 8 meeting the plain strength rule; the DTO carries those two strings |
| AuthDtos.ValidateVerifyResetCode | src/auth/dto/reset-password.dto.ts:3-13 | a body is admitted exactly when it has just `resetCode` and `newPassword`, `resetCode` is any string, and `newPassword` meets the password rule |
| AuthDtos.SamePolicyAsCreateUser | src/auth/dto/reset-password.dto.ts:7-12 | a new password is admitted exactly when the same value is admitted as a registration password |
| AuthDtos.EmptyResetCodeAccepted | src/auth/dto/reset-password.dto.ts:4-5 | the empty reset code is admitted |
| AuthDtos.ExtraPropertyRefused | src/main.ts:9 | a body with an undeclared property is refused |
| UsersEntity.EmptyStore | src/users/entity/users.entity.ts:6-10 | the empty table satisfies the entity invariant |
| UsersEntity.HashPassword | src/users/entity/users.entity.ts:21-24 | the hook stores `hash(plaintext, 10)` in place of the password and changes nothing else |
| UsersEntity.Insert | src/users/entity/users.entity.ts:6-24 | saving a new entity succeeds exactly when the database answers and the email is not stored; the row gets the hashed password, the draft's reset fields and an id no other row has; a duplicate email fails with SQLSTATE 23505 and leaves the store unchanged; the invariant (row under its own email, distinct ids) is preserved |
| UsersEntity.Update | src/users/entity/users.entity.ts:21 | saving a loaded row writes every field exactly as given (so the password unhashed and the reset fields as set), touches no other row, and keeps the invariant |
| UsersEntity.FindOne | src/users/users.service.ts:31 | the lookup finds a row exactly when that exact email is stored, and in a consistent store the row has that email |
| UsersEntity.HashOnlyOnInsert | src/users/entity/users.entity.ts:21-24 | after an insert the stored password is the digest; a later save of the loaded row stores what it is given, without rehashing |
| UsersEntity.DuplicateEmailRejected | src/users/entity/users.entity.ts:9-10 | inserting a second row with a stored email is refused by the unique constraint and changes nothing |
| UsersEntity.ResetFieldsIndependent | src/users/entity/users.entity.ts:15-19 | any combination of present and absent reset token and expiry can be stored |
| UsersService.CreateUserFailure | src/users/users.service.ts:21-26 | a caught error becomes the Conflict "Email already exists" exactly when its code is 23505, and otherwise the InternalServerError "An error occurred while creating the user" |
| UsersService.CreateUser | src/users/users.service.ts:16-27 | succeeds exactly when the database answers and the email is new; it then answers only `{id, email}` of the new row, whose password is `hash(password, 10)` and which has no reset token or expiry; a duplicate email yields Conflict "Email already exists"; any other failure yields a 500 "An error occurred while creating the user"; on failure the store is unchanged |
| UsersService.FindByEmail | src/users/users.service.ts:29-39 | yields the stored row for exactly that email; never `undefined` and never NotFound; every failure, a missing user included, is the 500 "An error occurred while finding the user by email" |
| UsersService.MissingUserLooksLikeStoreFailure | src/users/users.service.ts:32-37 | a missing user and a database failure produce the identical exception |
| UsersService.FoundUserHasThatEmail | src/users/users.service.ts:31-35 | in a consistent store the user found has exactly the email asked for |
| AuthService.ValidateUser | src/auth/auth.service.ts:16-26 | resolves exactly when the email is stored and `compare(password, storedDigest)` holds, and then to that user's `{id, email}`, never `null`; every failure is the generic 500, never 401 or 409 |
| AuthService.Login | src/auth/auth.service.ts:28-35 | succeeds exactly when the credentials check passes and then returns `sign({email, sub: id})` of that user; every failure is the generic 500 |
| AuthService.NullCheckUnreachable | src/auth/auth.service.ts:29-32 | `validateUser` never resolves to `null`, so the null check in `login` never throws |
| AuthService.WrongPasswordLikeUnknownEmail | src/auth/auth.service.ts:18-24 | a wrong password for a known email and any password for an unknown email give the same 500 result |
| AuthService.LoginFailurePropagates | src/auth/auth.service.ts:29-34 | a failed `validateUser` is passed on unchanged, and a failed login does not depend on `sign` |
| AuthService.LoginSignsValidatedUser | src/auth/auth.service.ts:33-34 | the token signs the email and id of the user `validateUser` returned |
| Scenarios.ServicesOnlyThrowHttp | src/users/users.service.ts:21-38 | `createUser`, `findByEmail` and `login` only ever fail with HTTP exceptions, so no raw database error reaches the client |
| Scenarios.FailureReply | src/common/filters/http-exception.filter.ts:9-21 | a service failure with a non-empty message is answered with its status and message |
| Scenarios.FailedLoginReply | src/auth/auth.service.ts:23-25 | every failure of `login` gets the same body from the filter: status 500 and "An internal server error occurred" |
| Scenarios.ValidateUserNeverConflict | src/auth/auth.service.ts:18-24 | even a database error carrying code 23505 reaches `validateUser`'s caller as the generic 500 |
| Scenarios.SecondRegistrationConflicts | src/users/users.service.ts:22-23 | registering a stored email again is answered 409 "Email already exists" and leaves the store as it was |
| Scenarios.RegisterThenLogin | src/auth/auth.service.ts:19-34 | if a bcrypt digest verifies against its own plaintext, a newly registered user logs in with the registered password and gets a token for the new row's email and id |
| Scenarios.LoginNeedsCompare | src/auth/auth.service.ts:19 | with a `compare` that accepts nothing, even the registered password fails to log in |

## Left out

- The reset-token flow (request a reset, send mail, verify the code, set the new password). `AuthController` calls `loginUser`, `requestPasswordReset` and `verifyResetCodeAndResetPassword`, but `AuthService` defines none of them. Only the `VerifyResetCodeDto` validation and the two nullable reset columns are modelled.
- `AuthController`, `AppModule` and the bootstrap in `main.ts`: routing, dependency injection and configuration. The one assumption taken from `main.ts:9` is that the ValidationPipe refuses undeclared properties.
- `LoginUserDto` and `users.interfaces.ts` are not part of this model. `LoginUserDto` is taken to carry two strings, and `PublicUser` to be `{id, email}`.
- `@IsEmail()` is a validator.js call. It is the parameter `isEmail`.
- bcrypt and JWT internals, including the random salt. `hash` is a function of plaintext and cost, so the model says nothing about two hashes of one password differing.
- UsersEntity.Insert: does not prove that the stored password differs from the plaintext, because `hash` is uninterpreted and could return its input.
- A `bcrypt.hash`, `bcrypt.compare` or `jwtService.sign` that throws. All three are taken to be total. A rejected `hash` in the insert hook would make `save` fail with an error that has no `code`, so `createUser` would answer the 500 "An error occurred while creating the user". A throwing `compare` would surface as the generic 500 of `validateUser`.
- Logging, the clock and the request object. The timestamp and URL are parameters of `Catch`.
- Promise scheduling and concurrency. Each request is a sequence of store calls on one store value.
- The id sequence advances only on a successful insert. PostgreSQL also consumes a value on a failed insert, which changes nothing the model states (ids stay distinct).
- A `message` property of a type other than string or string array.
- JavaScript strings with unpaired surrogates, which Dafny strings cannot hold.
