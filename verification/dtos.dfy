/** `CreateUserDto`: a request body as the global ValidationPipe (with
    `whitelist` and `forbidNonWhitelisted`) admits it.  `@IsEmail()` is a
    validator.js call and stays a parameter. */
module UserDtos {
  import opened Exceptions
  import opened ClassValidator
  import opened PasswordPolicy

  datatype CreateUserDto = CreateUserDto(email: string, password: string)

  /** The DTO the pipe hands on, or `None` when it answers 400.  A property
      outside the class is refused and a missing one is `undefined`, which
      fails `@IsString()`, so exactly the two declared properties must be
      present. */
  function ValidateCreateUser(body: map<string, JsValue>, isEmail: string -> bool): (r: Option<CreateUserDto>)
    ensures r.Some? <==> && body.Keys == {"email", "password"}
                         && body["email"].JsString? && isEmail(body["email"].text)
                         && body["password"].JsString?
                         && ValidatorLength(body["password"].text) >= MinPasswordLength
                         && StrongPassword(body["password"].text)
    ensures r.Some? ==> r.value.email == body["email"].text && r.value.password == body["password"].text
  {
    PasswordValidCharacterised(if "password" in body then body["password"] else JsOther);
    if body.Keys == {"email", "password"} && body["email"].JsString? && isEmail(body["email"].text)
       && PasswordValid(body["password"])
    then Some(CreateUserDto(body["email"].text, body["password"].text))
    else None
  }
}

/** `VerifyResetCodeDto`: `resetCode` only has to be a string; `newPassword`
    obeys the same rule as `CreateUserDto.password`. */
module AuthDtos {
  import opened Exceptions
  import opened ClassValidator
  import opened PasswordPolicy
  import UserDtos

  datatype VerifyResetCodeDto = VerifyResetCodeDto(resetCode: string, newPassword: string)

  function ValidateVerifyResetCode(body: map<string, JsValue>): (r: Option<VerifyResetCodeDto>)
    ensures r.Some? <==> && body.Keys == {"resetCode", "newPassword"}
                         && body["resetCode"].JsString?
                         && body["newPassword"].JsString?
                         && ValidatorLength(body["newPassword"].text) >= MinPasswordLength
                         && StrongPassword(body["newPassword"].text)
    ensures r.Some? ==> r.value.resetCode == body["resetCode"].text && r.value.newPassword == body["newPassword"].text
  {
    PasswordValidCharacterised(if "newPassword" in body then body["newPassword"] else JsOther);
    if body.Keys == {"resetCode", "newPassword"} && IsString(body["resetCode"]) && PasswordValid(body["newPassword"])
    then Some(VerifyResetCodeDto(body["resetCode"].text, body["newPassword"].text))
    else None
  }

  /** A new password passes exactly when the same value would pass as the
      password of a new account with an acceptable email. */
  lemma SamePolicyAsCreateUser(code: string, email: string, password: JsValue, isEmail: string -> bool)
    requires isEmail(email)
    ensures ValidateVerifyResetCode(map["resetCode" := JsString(code), "newPassword" := password]).Some?
        <==> UserDtos.ValidateCreateUser(map["email" := JsString(email), "password" := password], isEmail).Some?
  {
    var reset := map["resetCode" := JsString(code), "newPassword" := password];
    var create := map["email" := JsString(email), "password" := password];
    assert reset.Keys == {"resetCode", "newPassword"};
    assert create.Keys == {"email", "password"};
  }

  /** Any string is a reset code, the empty string included. */
  lemma EmptyResetCodeAccepted(password: string)
    requires PasswordValid(JsString(password))
    ensures ValidateVerifyResetCode(map["resetCode" := JsString(""), "newPassword" := JsString(password)])
         == Some(VerifyResetCodeDto("", password))
  {
    var body := map["resetCode" := JsString(""), "newPassword" := JsString(password)];
    assert body.Keys == {"resetCode", "newPassword"};
  }

  /** A body with a property the class does not declare is refused. */
  lemma ExtraPropertyRefused(body: map<string, JsValue>, extra: string)
    requires extra in body && extra != "resetCode" && extra != "newPassword"
    ensures ValidateVerifyResetCode(body).None?
  {
  }
}
