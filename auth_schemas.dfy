/** The authentication request schemas and the token payload schema. */
module AuthSchemas {
  import opened Wrappers
  import opened Requests

  const PasswordMinLength := 8
  const UsernameMinLength := 3
  const UsernameMaxLength := 50
  const FullNameMaxLength := 100

  /** The token type a `TokenResponse` carries unless told otherwise. */
  const DefaultTokenType := "bearer"

  /** A validated `UserSignup`. */
  datatype UserSignup = UserSignup(email: string, password: string, username: string, fullName: Option<string>)

  /** A validated `UserLogin`. */
  datatype UserLogin = UserLogin(email: string, password: string)

  /** What a validated `UserSignup` guarantees. */
  predicate ValidSignup(s: UserSignup) {
    && |s.password| >= PasswordMinLength
    && UsernameMinLength <= |s.username| <= UsernameMaxLength
    && (s.fullName.Some? ==> |s.fullName.value| <= FullNameMaxLength)
  }

  datatype UserSignupBody = UserSignupBody(email: Patch<string>, password: Patch<string>, username: Patch<string>, fullName: Patch<string>)

  datatype UserLoginBody = UserLoginBody(email: Patch<string>, password: Patch<string>)

  /** A required, non-null string field. */
  predicate Given(p: Patch<string>) {
    p.Set? && p.value.Some?
  }

  /** Pydantic's reading of a `UserSignup` body: email, password and username required, `full_name` optional. */
  function ParseUserSignup(b: UserSignupBody): (r: Result<UserSignup, ValidationError>)
    ensures r.Success? <==>
      && Given(b.email) && Given(b.password) && Given(b.username)
      && ValidSignup(UserSignup(b.email.value.value, b.password.value.value, b.username.value.value,
                                if b.fullName.Set? then b.fullName.value else None))
    ensures r.Success? ==> ValidSignup(r.value)
    ensures r.Success? ==> Set(Some(r.value.email)) == b.email && Set(Some(r.value.username)) == b.username
    ensures r.Success? ==> Set(Some(r.value.password)) == b.password
    ensures r.Success? ==> r.value.fullName == (if b.fullName.Set? then b.fullName.value else None)
  {
    if !Given(b.email) then Failure(ValidationError("email", "field required"))
    else if !Given(b.password) then Failure(ValidationError("password", "field required"))
    else if !Given(b.username) then Failure(ValidationError("username", "field required"))
    else
      var s := UserSignup(b.email.value.value, b.password.value.value, b.username.value.value,
                          if b.fullName.Set? then b.fullName.value else None);
      if |s.password| < PasswordMinLength then Failure(ValidationError("password", "at least 8 characters"))
      else if |s.username| < UsernameMinLength || |s.username| > UsernameMaxLength then
        Failure(ValidationError("username", "length must be within 3..50"))
      else if s.fullName.Some? && |s.fullName.value| > FullNameMaxLength then
        Failure(ValidationError("full_name", "at most 100 characters"))
      else Success(s)
  }

  /** Pydantic's reading of a `UserLogin` body: both fields required, no length bounds. */
  function ParseUserLogin(b: UserLoginBody): (r: Result<UserLogin, ValidationError>)
    ensures r.Success? <==> Given(b.email) && Given(b.password)
    ensures r.Success? ==> Set(Some(r.value.email)) == b.email && Set(Some(r.value.password)) == b.password
  {
    if !Given(b.email) then Failure(ValidationError("email", "field required"))
    else if !Given(b.password) then Failure(ValidationError("password", "field required"))
    else Success(UserLogin(b.email.value.value, b.password.value.value))
  }

  /** A password too short for signup is still accepted at login. */
  lemma ShortPasswordLogsIn(email: string)
    ensures ParseUserLogin(UserLoginBody(Set(Some(email)), Set(Some("")))).Success?
    ensures ParseUserSignup(UserSignupBody(Set(Some(email)), Set(Some("")), Set(Some("abc")), Unset)).Failure?
  {
  }

  /** The claims the token verifier hands on; both are optional and absent by default. */
  datatype TokenData = TokenData(userId: Option<int>, email: Option<string>)

  const DefaultTokenData := TokenData(None, None)
}
