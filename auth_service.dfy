/**
 * The authentication service: access-token issue and verification, the
 * local and the provider-backed signup and login.
 *
 * A token is abstracted to its claims and whether its HS256 signature
 * (section 3.2 of RFC 7518) verifies under the server's key; the
 * cryptography itself is not modelled. Clock values are whole seconds.
 * The identity provider is not called: its answer is an input.
 */
module AuthService {
  import opened Wrappers
  import opened Http
  import opened Text
  import opened Seqs
  import opened UserModel
  import opened AuthSchemas

  const Algorithm := "HS256"
  const SecondsPerMinute := 60

  const CredentialsDetail := "Could not validate credentials"
  const InvalidLoginDetail := "Invalid email or password"
  const InactiveDetail := "Inactive user account"
  const NotLocalDetail := "User not found in local database"
  const ConflictDetail := "Email or username already registered"
  const EmailRegisteredDetail := "Email already registered"
  const NoProviderUserDetail := "Failed to create user account"

  /** The 401 `verify_token` raises for every rejected token. */
  const CredentialsError := HttpError(Unauthorized, CredentialsDetail)

  // ---------------------------------------------------------------------------
  // Tokens
  // ---------------------------------------------------------------------------

  /** A JSON value of a claim, as far as the verifier tells them apart. */
  datatype ClaimValue = IntClaim(i: int) | StrClaim(s: string) | NullClaim

  type Claims = map<string, ClaimValue>

  /** A signed token: its claims and whether the signature checks out under the server's key. */
  datatype Token = Token(claims: Claims, signatureValid: bool)

  /** The `exp` a token issued at `now` gets. */
  function ExpiresAt(now: int, minutes: int): int {
    now + SecondsPerMinute * minutes
  }

  /**
   * `create_access_token`: the caller's claims plus `exp` (section 4.1.4
   * of RFC 7519), signed with the server's key. The caller's map is a
   * value and so is never changed.
   */
  function CreateAccessToken(data: Claims, now: int, minutes: int): (t: Token)
    ensures t.signatureValid
    ensures t.claims.Keys == data.Keys + {"exp"}
    ensures t.claims["exp"] == IntClaim(ExpiresAt(now, minutes))
    ensures forall k :: k in data && k != "exp" ==> t.claims[k] == data[k]
  {
    Token(data["exp" := IntClaim(ExpiresAt(now, minutes))], true)
  }

  /**
   * Why `jwt.decode` refuses a token. `NullNumericClaim` is not a
   * `JWTError`: `int(None)` on a null `iat`, `nbf` or `exp` raises a `TypeError`.
   */
  datatype DecodeError = BadSignature | BadClaim(name: string) | NotYetValid | Expired | InvalidAudience | NullNumericClaim

  /** `int(claims[k])` on a claim that is present: a string is refused as not an integer, a null raises. */
  function IntOf(c: Claims, k: string): (r: Result<int, DecodeError>)
    requires k in c
    ensures r.Success? <==> c[k].IntClaim?
    ensures r.Success? ==> r.value == c[k].i
    ensures r.Failure? ==> r.error == (if c[k].NullClaim? then NullNumericClaim else BadClaim(k))
  {
    match c[k]
    case IntClaim(i) => Success(i)
    case StrClaim(_) => Failure(BadClaim(k))
    case NullClaim => Failure(NullNumericClaim)
  }

  /**
   * What python-jose's claim checks accept when no audience, issuer,
   * subject or access token is passed and there is no leeway: integer
   * `iat`, `nbf` and `exp`, with `nbf` not in the future and `exp` not in
   * the past (sections 4.1.4 to 4.1.6 of RFC 7519), no `aud` and no
   * `at_hash` at all, and a string `sub` and `jti` when present.
   */
  predicate AcceptedClaims(c: Claims, now: int) {
    && ("iat" in c ==> c["iat"].IntClaim?)
    && ("nbf" in c ==> c["nbf"].IntClaim? && c["nbf"].i <= now)
    && ("exp" in c ==> c["exp"].IntClaim? && now <= c["exp"].i)
    && "aud" !in c
    && ("sub" in c ==> c["sub"].StrClaim?)
    && ("jti" in c ==> c["jti"].StrClaim?)
    && "at_hash" !in c
  }

  /** python-jose's claim checks in the order it makes them: `iat`, `nbf`, `exp`, `aud`, `sub`, `jti`, `at_hash`. */
  function CheckClaims(c: Claims, now: int): (r: Option<DecodeError>)
    ensures r.None? <==> AcceptedClaims(c, now)
    ensures "iat" in c && c["iat"].NullClaim? ==> r == Some(NullNumericClaim)
    ensures r == Some(NullNumericClaim) ==>
      ("iat" in c && c["iat"].NullClaim?) || ("nbf" in c && c["nbf"].NullClaim?) || ("exp" in c && c["exp"].NullClaim?)
  {
    if "iat" in c && IntOf(c, "iat").Failure? then Some(IntOf(c, "iat").error)
    else if "nbf" in c && IntOf(c, "nbf").Failure? then Some(IntOf(c, "nbf").error)
    else if "nbf" in c && IntOf(c, "nbf").value > now then Some(NotYetValid)
    else if "exp" in c && IntOf(c, "exp").Failure? then Some(IntOf(c, "exp").error)
    else if "exp" in c && IntOf(c, "exp").value < now then Some(Expired)
    else if "aud" in c then Some(InvalidAudience)
    else if "sub" in c && !c["sub"].StrClaim? then Some(BadClaim("sub"))
    else if "jti" in c && !c["jti"].StrClaim? then Some(BadClaim("jti"))
    else if "at_hash" in c then Some(BadClaim("at_hash"))
    else None
  }

  /** `jwt.decode` with python-jose's default options: the signature first, then the claim checks. */
  function Decode(t: Token, now: int): (r: Result<Claims, DecodeError>)
    ensures r.Success? <==> t.signatureValid && AcceptedClaims(t.claims, now)
    ensures r.Success? ==> r.value == t.claims
    ensures !t.signatureValid ==> r == Failure(BadSignature)
    ensures t.signatureValid && "exp" in t.claims && t.claims["exp"].IntClaim? && t.claims["exp"].i < now ==> r.Failure?
    ensures r == Failure(NullNumericClaim) ==>
      && t.signatureValid
      && (("iat" in t.claims && t.claims["iat"].NullClaim?) || ("nbf" in t.claims && t.claims["nbf"].NullClaim?)
          || ("exp" in t.claims && t.claims["exp"].NullClaim?))
  {
    if !t.signatureValid then Failure(BadSignature)
    else
      match CheckClaims(t.claims, now)
      case Some(e) => Failure(e)
      case None => Success(t.claims)
  }

  /** `payload.get(k)`: nothing for a missing claim or a JSON null. */
  function ClaimGet(c: Claims, k: string): (r: Option<ClaimValue>)
    ensures r.Some? <==> k in c && !c[k].NullClaim?
    ensures r.Some? ==> r.value == c[k]
  {
    if k in c && !c[k].NullClaim? then Some(c[k]) else None
  }

  /**
   * `verify_token`: a refused token and a missing claim are the same 401;
   * an integer `user_id` and a string `email` are returned as they are;
   * claims of other JSON types fail `TokenData` validation, which escapes
   * as a 500.
   */
  function VerifyToken(t: Token, now: int): (r: Result<TokenData, HttpError>)
    ensures r.Success? ==> Decode(t, now).Success?
    ensures r.Success? ==>
      && r.value.userId.Some? && r.value.email.Some?
      && ClaimGet(t.claims, "user_id") == Some(IntClaim(r.value.userId.value))
      && ClaimGet(t.claims, "email") == Some(StrClaim(r.value.email.value))
    ensures Decode(t, now).Failure? && Decode(t, now).error != NullNumericClaim ==> r == Failure(CredentialsError)
    ensures Decode(t, now) == Failure(NullNumericClaim) ==> r == Failure(HttpError(InternalServerError, UnhandledDetail))
    ensures Decode(t, now).Success? && (ClaimGet(t.claims, "user_id").None? || ClaimGet(t.claims, "email").None?) ==>
      r == Failure(CredentialsError)
    ensures Decode(t, now).Success? && ClaimGet(t.claims, "user_id").Some? && ClaimGet(t.claims, "email").Some? ==>
      (r.Success? <==> ClaimGet(t.claims, "user_id").value.IntClaim? && ClaimGet(t.claims, "email").value.StrClaim?)
    ensures r.Failure? ==> r.error == CredentialsError || r.error == HttpError(InternalServerError, UnhandledDetail)
  {
    match Decode(t, now)
    case Failure(NullNumericClaim) => Failure(HttpError(InternalServerError, UnhandledDetail))
    case Failure(_) => Failure(CredentialsError)
    case Success(payload) =>
      var userId := ClaimGet(payload, "user_id");
      var email := ClaimGet(payload, "email");
      if userId.None? || email.None? then Failure(CredentialsError)
      else if userId.value.IntClaim? && email.value.StrClaim? then
        Success(TokenData(Some(userId.value.i), Some(email.value.s)))
      else Failure(HttpError(InternalServerError, UnhandledDetail))
  }

  /** The claims every issued access token starts from. */
  function UserClaims(userId: int, email: string): Claims {
    map["user_id" := IntClaim(userId), "email" := StrClaim(email)]
  }

  /**
   * A token issued for a user verifies, giving back that user's id and
   * email, exactly until its expiry; afterwards it is the same 401 as a
   * forged one.
   */
  lemma IssuedTokenVerifies(userId: int, email: string, issuedAt: int, minutes: int, now: int)
    ensures var t := CreateAccessToken(UserClaims(userId, email), issuedAt, minutes);
      && (now <= ExpiresAt(issuedAt, minutes) ==> VerifyToken(t, now) == Success(TokenData(Some(userId), Some(email))))
      && (now > ExpiresAt(issuedAt, minutes) ==> VerifyToken(t, now) == Failure(CredentialsError))
  {
    var t := CreateAccessToken(UserClaims(userId, email), issuedAt, minutes);
    assert "user_id" in t.claims && t.claims["user_id"] == IntClaim(userId);
    assert "email" in t.claims && t.claims["email"] == StrClaim(email);
  }

  /**
   * A correctly signed token is still the 401 when it names an audience or
   * is not valid yet, as long as no numeric claim is null.
   */
  lemma AudienceOrEarlyTokenRefused(claims: Claims, now: int)
    requires "aud" in claims || ("nbf" in claims && claims["nbf"].IntClaim? && claims["nbf"].i > now)
    requires "iat" in claims ==> !claims["iat"].NullClaim?
    requires "nbf" in claims ==> !claims["nbf"].NullClaim?
    requires "exp" in claims ==> !claims["exp"].NullClaim?
    ensures VerifyToken(Token(claims, true), now) == Failure(CredentialsError)
  {
  }

  /** A token with a bad signature is refused whatever it claims. */
  lemma ForgedTokenRefused(claims: Claims, now: int)
    ensures VerifyToken(Token(claims, false), now) == Failure(CredentialsError)
  {
  }

  // ---------------------------------------------------------------------------
  // Login
  // ---------------------------------------------------------------------------

  /** The dictionary signup and login return. */
  datatype AuthResult = AuthResult(accessToken: Token, tokenType: string, user: User)

  /** The result for a user: a fresh token with their id and email, of the default type. */
  function IssueFor(u: User, now: int, minutes: int): (r: AuthResult)
    ensures r.user == u && r.tokenType == DefaultTokenType
    ensures r.accessToken == CreateAccessToken(UserClaims(u.id, u.email), now, minutes)
  {
    AuthResult(CreateAccessToken(UserClaims(u.id, u.email), now, minutes), DefaultTokenType, u)
  }

  /** `filter(...).first()`: the first user, in store order, that satisfies `p`. */
  function FirstWhere(users: seq<User>, p: User -> bool): (r: Option<User>)
    ensures r.Some? ==> r.value in users && p(r.value)
    ensures r.None? <==> forall u :: u in users ==> !p(u)
  {
    var m := Filter(users, p);
    if |m| == 0 then None
    else
      assert m[0] in m;
      Some(m[0])
  }

  /** `filter(User.email == email).first()`. */
  function FindByEmail(users: seq<User>, email: string): Option<User>
  {
    FirstWhere(users, (u: User) => u.email == email)
  }

  /** The local user linked to a provider identity, first in store order. */
  function FindByExternalId(users: seq<User>, externalId: string): Option<User>
  {
    FirstWhere(users, (u: User) => u.externalId == externalId)
  }

  /** The checks both login paths make on the local user they found. */
  function CheckAndIssue(found: Option<User>, missing: HttpError, now: int, minutes: int): (r: Result<AuthResult, HttpError>)
    ensures found.None? ==> r == Failure(missing)
    ensures found.Some? && !found.value.isActive ==> r == Failure(HttpError(BadRequest, InactiveDetail))
    ensures found.Some? && found.value.isActive ==> r == Success(IssueFor(found.value, now, minutes))
  {
    match found
    case None => Failure(missing)
    case Some(u) =>
      if !u.isActive then Failure(HttpError(BadRequest, InactiveDetail))
      else Success(IssueFor(u, now, minutes))
  }

  /**
   * `_local_login`: an unknown email is 401, an inactive user 400;
   * otherwise that user's token. The password is never looked at.
   */
  function LocalLogin(users: seq<User>, data: UserLogin, now: int, minutes: int): (r: Result<AuthResult, HttpError>)
    ensures (forall u :: u in users ==> u.email != data.email) <==> r == Failure(HttpError(Unauthorized, InvalidLoginDetail))
    ensures r.Success? ==> r.value.user in users && r.value.user.email == data.email && r.value.user.isActive
    ensures r.Success? ==> r == Success(IssueFor(r.value.user, now, minutes))
    ensures r.Failure? ==> r.error == HttpError(Unauthorized, InvalidLoginDetail) || r.error == HttpError(BadRequest, InactiveDetail)
    ensures var found := FindByEmail(users, data.email);
      found.Some? && !found.value.isActive ==> r == Failure(HttpError(BadRequest, InactiveDetail))
    ensures var found := FindByEmail(users, data.email);
      found.Some? && found.value.isActive ==> r == Success(IssueFor(found.value, now, minutes))
  {
    CheckAndIssue(FindByEmail(users, data.email), HttpError(Unauthorized, InvalidLoginDetail), now, minutes)
  }

  /** Any password logs in as well as any other. */
  lemma LocalLoginIgnoresPassword(users: seq<User>, email: string, p1: string, p2: string, now: int, minutes: int)
    ensures LocalLogin(users, UserLogin(email, p1), now, minutes) == LocalLogin(users, UserLogin(email, p2), now, minutes)
  {
  }

  /** What the identity provider answers to a sign-in. */
  datatype LoginAnswer = LoginRaised(message: string) | LoginNoUser | LoginUser(externalId: string)

  /**
   * The provider branch of `login` as intended: a raised error is 500, no
   * user 401, no linked local user 404, an inactive one 400.
   */
  function ProviderLogin(users: seq<User>, answer: LoginAnswer, now: int, minutes: int): (r: Result<AuthResult, HttpError>)
    ensures answer.LoginRaised? ==> r == Failure(HttpError(InternalServerError, "Login failed: " + answer.message))
    ensures answer.LoginNoUser? ==> r == Failure(HttpError(Unauthorized, InvalidLoginDetail))
    ensures answer.LoginUser? && FindByExternalId(users, answer.externalId).None? ==>
      r == Failure(HttpError(NotFound, NotLocalDetail))
    ensures r.Success? ==>
      answer.LoginUser? && r.value.user in users && r.value.user.externalId == answer.externalId && r.value.user.isActive
    ensures answer.LoginUser? ==> var found := FindByExternalId(users, answer.externalId);
      found.Some? && !found.value.isActive ==> r == Failure(HttpError(BadRequest, InactiveDetail))
    ensures answer.LoginUser? ==> var found := FindByExternalId(users, answer.externalId);
      found.Some? && found.value.isActive ==> r == Success(IssueFor(found.value, now, minutes))
  {
    match answer
    case LoginRaised(message) => Failure(HttpError(InternalServerError, "Login failed: " + message))
    case LoginNoUser => Failure(HttpError(Unauthorized, InvalidLoginDetail))
    case LoginUser(externalId) =>
      CheckAndIssue(FindByExternalId(users, externalId), HttpError(NotFound, NotLocalDetail), now, minutes)
  }

  /** `login`: with no provider configured, the local variant. */
  function Login(users: seq<User>, data: UserLogin, provider: Option<LoginAnswer>, now: int, minutes: int): (r: Result<AuthResult, HttpError>)
    ensures provider.None? ==> r == LocalLogin(users, data, now, minutes)
    ensures provider.Some? ==> r == ProviderLogin(users, provider.value, now, minutes)
  {
    if provider.None? then LocalLogin(users, data, now, minutes) else ProviderLogin(users, provider.value, now, minutes)
  }

  /** Whatever path it takes, a successful login hands out a token that verifies to the user it names. */
  lemma LoginTokenVerifies(users: seq<User>, data: UserLogin, provider: Option<LoginAnswer>, now: int, minutes: int)
    requires minutes >= 0
    requires Login(users, data, provider, now, minutes).Success?
    ensures var r := Login(users, data, provider, now, minutes).value;
      VerifyToken(r.accessToken, now) == Success(TokenData(Some(r.user.id), Some(r.user.email)))
  {
    var r := Login(users, data, provider, now, minutes).value;
    IssuedTokenVerifies(r.user.id, r.user.email, now, minutes, now);
  }

  /** The message of the `AttributeError` the as-written provider login raises. */
  const NoExternalIdAttribute := "type object 'User' has no attribute 'supabase_user_id'"

  /**
   * The provider branch of `login` as written: the linked user is looked
   * up through `User.supabase_user_id`, an attribute `User` does not have,
   * so every sign-in the provider accepts ends in 500.
   */
  function ProviderLoginAsWritten(users: seq<User>, answer: LoginAnswer, now: int, minutes: int): (r: Result<AuthResult, HttpError>)
    ensures r.Failure?
    ensures answer.LoginUser? ==> r == Failure(HttpError(InternalServerError, "Login failed: " + NoExternalIdAttribute))
  {
    match answer
    case LoginRaised(message) => Failure(HttpError(InternalServerError, "Login failed: " + message))
    case LoginNoUser => Failure(HttpError(Unauthorized, InvalidLoginDetail))
    case LoginUser(_) => Failure(HttpError(InternalServerError, "Login failed: " + NoExternalIdAttribute))
  }

  /** An active linked user logs in under the intended lookup and not under the written one. */
  lemma ProviderLoginAsWrittenRejectsLinkedUser(now: int, minutes: int)
    ensures var u := User(1, "a@b.c", "abc", None, "ext-1", true, false, 0);
      && ProviderLogin([u], LoginUser("ext-1"), now, minutes).Success?
      && ProviderLoginAsWritten([u], LoginUser("ext-1"), now, minutes).Failure?
  {
    var u := User(1, "a@b.c", "abc", None, "ext-1", true, false, 0);
    assert FindByExternalId([u], "ext-1").Some? by {
      assert u in [u];
    }
  }

  // ---------------------------------------------------------------------------
  // Signup
  // ---------------------------------------------------------------------------

  /** What the identity provider answers to a sign-up. */
  datatype SignUpAnswer = SignUpRaised(message: string) | SignUpNoUser | SignUpUser(externalId: string)

  /** How the `except` of `signup` reports an error: 400 when its text says "already registered", 500 otherwise. */
  function SignupError(message: string): (e: HttpError)
    ensures e.status == BadRequest <==> Contains(Lower(message), "already registered")
    ensures e.status == BadRequest ==> e.detail == EmailRegisteredDetail
    ensures e.status != BadRequest ==> e == HttpError(InternalServerError, "Registration failed: " + message)
  {
    if Contains(Lower(message), "already registered") then HttpError(BadRequest, EmailRegisteredDetail)
    else HttpError(InternalServerError, "Registration failed: " + message)
  }

  /** `str()` of the 400 raised when the provider returns no user, as the `except` sees it. */
  const NoProviderUserText := "400: " + NoProviderUserDetail

  /** Stands for the database driver's text for a violated unique constraint, which is not modelled. */
  const UniqueViolationText := "UNIQUE constraint failed: users.email"

  /** The 400 for a missing provider user is caught and turned into a 500. */
  lemma NoProviderUserIsServerError()
    ensures SignupError(NoProviderUserText) == HttpError(InternalServerError, "Registration failed: " + NoProviderUserText)
  {
    NoProviderUserLacksPair();
    NotRegisteredIsServerError(NoProviderUserText);
  }

  /** A message whose folded text never has `y` before a space cannot say "already registered". */
  lemma NotRegisteredIsServerError(message: string)
    requires PairAbsent(Lower(message), 'y', ' ')
    ensures SignupError(message) == HttpError(InternalServerError, "Registration failed: " + message)
  {
    var needle := "already registered";
    assert needle[6] == 'y' && needle[7] == ' ';
    AbsentPairRulesOut(Lower(message), needle, 6);
  }

  /** The folded text of that 400 never has `y` before a space. */
  lemma NoProviderUserLacksPair()
    ensures PairAbsent(Lower(NoProviderUserText), 'y', ' ')
  {
    DetailLacksPair('y');
    DetailLacksPair('Y');
    PairAbsentConcat("400: ", NoProviderUserDetail, 'y', ' ');
    PairAbsentConcat("400: ", NoProviderUserDetail, 'Y', ' ');
    LowerPairAbsent(NoProviderUserText, 'y', ' ');
  }

  lemma DetailLacksPair(x: char)
    requires x == 'y' || x == 'Y'
    ensures PairAbsent(NoProviderUserDetail, x, ' ')
  {
  }

  /** The constructor's `TypeError` is not mistaken for a clash. */
  lemma InvalidKeywordIsServerError()
    ensures SignupError(InvalidKeywordText) == HttpError(InternalServerError, "Registration failed: " + InvalidKeywordText)
  {
    InvalidKeywordLacksPair();
    NotRegisteredIsServerError(InvalidKeywordText);
  }

  /** The folded `TypeError` text never has `y` before a space; it is checked piece by piece. */
  lemma InvalidKeywordLacksPair()
    ensures PairAbsent(Lower(InvalidKeywordText), 'y', ' ')
  {
    var p1, p2 := "'supabase_user_id' is ", "an invalid keyword argument for User";
    FirstHalfLacksPair();
    SecondHalfLacksPair('y');
    SecondHalfLacksPair('Y');
    PairAbsentConcat(p1, p2, 'y', ' ');
    PairAbsentConcat(p1, p2, 'Y', ' ');
    LowerPairAbsent(InvalidKeywordText, 'y', ' ');
  }

  /** Neither half of the `TypeError` text has `y` or `Y` before a space. */
  lemma FirstHalfLacksPair()
    ensures PairAbsent("'supabase_user_id' is ", 'y', ' ') && PairAbsent("'supabase_user_id' is ", 'Y', ' ')
  {
  }

  lemma SecondHalfLacksPair(x: char)
    requires x == 'y' || x == 'Y'
    ensures PairAbsent("an invalid keyword argument for User", x, ' ')
  {
  }

  /** A clash in the local table is reported as a 500, not as the 400 a provider-side clash gets. */
  lemma LocalClashIsServerError()
    ensures SignupError(UniqueViolationText) == HttpError(InternalServerError, "Registration failed: " + UniqueViolationText)
  {
    ViolationLacksPair('y');
    ViolationLacksPair('Y');
    LowerPairAbsent(UniqueViolationText, 'y', ' ');
    NotRegisteredIsServerError(UniqueViolationText);
  }

  lemma ViolationLacksPair(x: char)
    requires x == 'y' || x == 'Y'
    ensures PairAbsent(UniqueViolationText, x, ' ')
  {
  }

  /** The provider's own wording is recognised whatever its case. */
  lemma ProviderClashIsBadRequest()
    ensures SignupError("User Already Registered") == HttpError(BadRequest, EmailRegisteredDetail)
  {
    assert Lower("User Already Registered") == "user " + "already registered";
    ContainsInside("user ", "already registered", "");
    assert "user " + "already registered" + "" == "user " + "already registered";
  }

  /** The message of the `TypeError` the as-written `User(...)` call raises, written in two pieces. */
  const InvalidKeywordText := "'supabase_user_id' is " + "an invalid keyword argument for User"

  /**
   * `_local_signup` as written: after the clash check, `User(...)` gets the
   * keyword `supabase_user_id`, which is not a column, so the constructor
   * raises and every signup that passes the check is a 500.
   */
  function LocalSignupAsWritten(users: seq<User>, data: UserSignup): (r: Result<AuthResult, HttpError>)
    ensures "supabase_user_id" !in UserColumns
    ensures Clashes(users, data.email, data.username) ==> r == Failure(HttpError(BadRequest, ConflictDetail))
    ensures !Clashes(users, data.email, data.username) ==>
      r == Failure(HttpError(InternalServerError, "Registration failed: " + InvalidKeywordText))
  {
    if Clashes(users, data.email, data.username) then Failure(HttpError(BadRequest, ConflictDetail))
    else Failure(HttpError(InternalServerError, "Registration failed: " + InvalidKeywordText))
  }

  /**
   * The provider branch of `signup` as written: the same constructor call
   * raises once the provider has created the user, and the `except` turns
   * it into a 500.
   */
  function ProviderSignupAsWritten(answer: SignUpAnswer): (r: HttpError)
    ensures answer.SignUpUser? ==> r == HttpError(InternalServerError, "Registration failed: " + InvalidKeywordText)
    ensures answer.SignUpNoUser? ==> r == HttpError(InternalServerError, "Registration failed: " + NoProviderUserText)
    ensures answer.SignUpRaised? ==> r == SignupError(answer.message)
  {
    InvalidKeywordIsServerError();
    NoProviderUserIsServerError();
    match answer
    case SignUpRaised(message) => SignupError(message)
    case SignUpNoUser => SignupError(NoProviderUserText)
    case SignUpUser(_) => SignupError(InvalidKeywordText)
  }

  /** A signup nobody clashes with fails as written and succeeds as intended. */
  lemma LocalSignupAsWrittenRejectsFreshUser(data: UserSignup)
    ensures LocalSignupAsWritten([], data).Failure?
    ensures LocalSignupAsWritten([], data).error.status == InternalServerError
  {
  }

  /** The `users` table: rows in store order and the next primary key. */
  class UserStore {
    var users: seq<User>
    var nextId: int

    /** Ids are positive and below `nextId`; ids, emails and usernames are unique. */
    predicate Valid()
      reads this
    {
      nextId >= 1 && UniqueUsers(users) && forall i :: 0 <= i < |users| ==> 1 <= users[i].id < nextId
    }

    constructor ()
      ensures Valid() && users == [] && nextId == 1
    {
      users := [];
      nextId := 1;
    }

    /** The user the next insert writes. */
    function NewUser(data: UserSignup, externalId: string, now: int): (u: User)
      reads this
      ensures u.id == nextId && u.email == data.email && u.username == data.username && u.fullName == data.fullName
      ensures u.externalId == externalId && u.isActive == DefaultIsActive && u.isSuperuser == DefaultIsSuperuser
      ensures u.createdAt == now
    {
      User(nextId, data.email, data.username, data.fullName, externalId, DefaultIsActive, DefaultIsSuperuser, now)
    }

    /** `db.add`/`commit` of a user that clashes with nobody. */
    method Insert(u: User)
      requires Valid() && u.id == nextId && !Clashes(users, u.email, u.username)
      modifies this
      ensures Valid()
      ensures users == old(users) + [u] && nextId == old(nextId) + 1
    {
      AppendKeepsUnique(users, u);
      users := users + [u];
      nextId := nextId + 1;
    }

    /**
     * `_local_signup` as intended: a clash on email or username is 400 and
     * changes nothing; otherwise exactly one active, non-superuser row with
     * the fresh external id is added, and its token is returned. Logging
     * in with that email right away returns the same result.
     */
    method LocalSignup(data: UserSignup, localUuid: string, now: int, minutes: int) returns (r: Result<AuthResult, HttpError>)
      requires Valid()
      requires forall u :: u in users ==> u.externalId != localUuid
      modifies this
      ensures Valid()
      ensures Clashes(old(users), data.email, data.username) <==> r == Failure(HttpError(BadRequest, ConflictDetail))
      ensures Clashes(old(users), data.email, data.username) ==> users == old(users) && nextId == old(nextId)
      ensures !Clashes(old(users), data.email, data.username) ==>
        var u := User(old(nextId), data.email, data.username, data.fullName, localUuid, true, false, now);
        && users == old(users) + [u]
        && r == Success(IssueFor(u, now, minutes))
        && LocalLogin(users, UserLogin(data.email, data.password), now, minutes) == r
    {
      if Clashes(users, data.email, data.username) {
        return Failure(HttpError(BadRequest, ConflictDetail));
      }
      var u := NewUser(data, localUuid, now);
      ghost var before := users;
      Insert(u);
      SignedUpUserFound(before, u);
      r := Success(IssueFor(u, now, minutes));
    }

    /**
     * `signup`: with no provider configured, the local variant; otherwise
     * any failure leaves the table as it was and is reported through
     * `SignupError`, the provider's missing user included.
     */
    method Signup(data: UserSignup, provider: Option<SignUpAnswer>, localUuid: string, now: int, minutes: int)
      returns (r: Result<AuthResult, HttpError>)
      requires Valid()
      requires forall u :: u in users ==> u.externalId != localUuid
      modifies this
      ensures Valid()
      ensures provider.Some? && provider.value.SignUpRaised? ==>
        r == Failure(SignupError(provider.value.message)) && users == old(users)
      ensures provider.Some? && provider.value.SignUpNoUser? ==>
        r == Failure(HttpError(InternalServerError, "Registration failed: " + NoProviderUserText)) && users == old(users)
      ensures provider.Some? && provider.value.SignUpUser? && Clashes(old(users), data.email, data.username) ==>
        r == Failure(HttpError(InternalServerError, "Registration failed: " + UniqueViolationText)) && users == old(users)
      ensures provider.Some? && provider.value.SignUpUser? && !Clashes(old(users), data.email, data.username) ==>
        var u := User(old(nextId), data.email, data.username, data.fullName, provider.value.externalId, true, false, now);
        users == old(users) + [u] && r == Success(IssueFor(u, now, minutes))
      ensures provider.None? ==> (r == Failure(HttpError(BadRequest, ConflictDetail)) <==> Clashes(old(users), data.email, data.username))
      ensures provider.None? && Clashes(old(users), data.email, data.username) ==> users == old(users) && nextId == old(nextId)
      ensures provider.None? && !Clashes(old(users), data.email, data.username) ==>
        var u := User(old(nextId), data.email, data.username, data.fullName, localUuid, true, false, now);
        && users == old(users) + [u]
        && r == Success(IssueFor(u, now, minutes))
        && LocalLogin(users, UserLogin(data.email, data.password), now, minutes) == r
    {
      if provider.None? {
        r := LocalSignup(data, localUuid, now, minutes);
        return;
      }
      match provider.value
      case SignUpRaised(message) =>
        r := Failure(SignupError(message));
      case SignUpNoUser =>
        NoProviderUserIsServerError();
        r := Failure(SignupError(NoProviderUserText));
      case SignUpUser(externalId) =>
        if Clashes(users, data.email, data.username) {
          LocalClashIsServerError();
          r := Failure(SignupError(UniqueViolationText));
        } else {
          var u := NewUser(data, externalId, now);
          Insert(u);
          r := Success(IssueFor(u, now, minutes));
        }
    }
  }

  /** After a clash-free insert, looking the email up finds the new user. */
  lemma SignedUpUserFound(before: seq<User>, u: User)
    requires !Clashes(before, u.email, u.username)
    ensures FindByEmail(before + [u], u.email) == Some(u)
  {
    assert u in before + [u];
    assert forall x :: x in before ==> x.email != u.email;
  }
}
