/**
 * Password login (`PostLoginWithPassword`): check the input, verify the
 * password against the stored credential without revealing whether the
 * username exists, mint a session token set as the `user_sess` cookie, and
 * hand back a bearer token (a JWT, or the session token when JWT issuance
 * fails).
 */
module PasswordLogin {
  import opened Wrappers
  import opened Text
  import opened Decimal
  import opened UserModel
  import opened AuthUserModel
  import Session

  /** The JSON body `{"username": ..., "password": ...}`. */
  datatype LoginRequest = LoginRequest(username: string, password: string)

  /** The JSON answer; "" and 0 stand for the omitted optional fields. */
  datatype LoginResponse = LoginResponse(success: bool, message: string, token: string, expiresIn: int)

  datatype Cookie = Cookie(name: string, value: string)

  /** What the handler writes: a status, a body and at most one cookie. */
  datatype Outcome = Outcome(status: int, body: LoginResponse, cookie: Option<Cookie>)

  /** An unsigned token: its type and its claims. */
  datatype UnsignedToken = UnsignedToken(kind: Session.TokenType, claims: map<string, string>)

  datatype AuthLookup = AuthFound(auth: AuthUser) | AuthNotFound | AuthFailed
  datatype UserLookup = UserFound(user: User) | UserNotFound | UserFailed

  /** The collaborators: the store, bcrypt's comparison (`passwordMatches(hash,
      password)`), the token library's `SignExpires(token, secret, exp)` and
      `auth.IssueJWT`; a failing call answers `None`. */
  datatype Services = Services(
    authByUsername: string -> AuthLookup,
    getUser: int -> UserLookup,
    passwordMatches: (string, string) -> bool,
    sign: (UnsignedToken, string, int) -> Option<string>,
    issueJwt: User -> Option<string>)

  const NanosPerSecond: int := 1_000_000_000
  const SessionCookie: string := "user_sess"
  const InvalidCredentials: string := "invalid credentials"
  const InternalError: string := "internal error"

  /** `time.Now().Add(d).Unix()` for a clock reading `now` in Unix
      nanoseconds: seconds rounded down. */
  function ExpiryUnix(now: int, sessionExpires: int): (exp: int)
    ensures exp * NanosPerSecond <= now + sessionExpires < (exp + 1) * NanosPerSecond
  {
    (now + sessionExpires) / NanosPerSecond
  }

  /** `int64(d.Seconds())`: whole seconds, truncated toward zero. */
  function WholeSeconds(d: int): (s: int)
    ensures d >= 0 ==> 0 <= s * NanosPerSecond <= d < (s + 1) * NanosPerSecond
    ensures d < 0 ==> (s - 1) * NanosPerSecond < d <= s * NanosPerSecond <= 0
  {
    if d >= 0 then d / NanosPerSecond else -((-d) / NanosPerSecond)
  }

  /** The session token minted for `u`: a session-type token whose `user-id`
      claim is `u.id` in decimal. */
  function SessionTokenFor(u: User): (t: UnsignedToken)
    ensures t.kind == Session.SessToken && t.claims.Keys == {"user-id"}
    ensures Int64Min <= u.id <= Int64Max ==> ParseInt(t.claims["user-id"]) == Some(u.id)
  {
    var t := UnsignedToken(Session.SessToken, map["user-id" := FormatInt(u.id)]);
    if Int64Min <= u.id <= Int64Max then ParseFormatInt(u.id); t else t
  }

  function Failure(message: string): LoginResponse {
    LoginResponse(false, message, "", 0)
  }

  /** A rejection that must not reveal why: unknown username, wrong
      password, or a credential whose user row is gone. */
  predicate Rejected(username: string, password: string, svc: Services) {
    match svc.authByUsername(username)
    case AuthNotFound => true
    case AuthFailed => false
    case AuthFound(a) =>
      !svc.passwordMatches(a.passwordHash, password) ||
      svc.getUser(a.userId).UserNotFound?
  }

  /** A store error, or a failure to sign the session token. */
  predicate Broken(username: string, password: string, svc: Services, exp: int) {
    match svc.authByUsername(username)
    case AuthNotFound => false
    case AuthFailed => true
    case AuthFound(a) =>
      svc.passwordMatches(a.passwordHash, password) &&
      match svc.getUser(a.userId)
      case UserNotFound => false
      case UserFailed => true
      case UserFound(u) => svc.sign(SessionTokenFor(u), u.hash, exp).None?
  }

  /** `PostLoginWithPassword`. `payload` is `None` when the body is not a
      login request; `now` is the clock in Unix nanoseconds and
      `sessionExpires` the configured session lifetime in nanoseconds. */
  method PostLoginWithPassword(payload: Option<LoginRequest>, svc: Services, now: int, sessionExpires: int)
    returns (o: Outcome)
    ensures payload.None? ==> o == Outcome(400, Failure("invalid payload"), None)
    // only the username is trimmed
    ensures payload.Some? && (TrimSpace(payload.value.username) == "" || payload.value.password == "") ==>
      o == Outcome(400, Failure("username and password required"), None)
    // the three ways of being wrong answer identically
    ensures
      && payload.Some? && TrimSpace(payload.value.username) != "" && payload.value.password != ""
      && Rejected(TrimSpace(payload.value.username), payload.value.password, svc)
      ==> o == Outcome(401, Failure(InvalidCredentials), None)
    ensures
      && payload.Some? && TrimSpace(payload.value.username) != "" && payload.value.password != ""
      && Broken(TrimSpace(payload.value.username), payload.value.password, svc, ExpiryUnix(now, sessionExpires))
      ==> o == Outcome(500, Failure(InternalError), None)
    // every failure leaves success false and sets no cookie
    // when every check and the signing succeed the login succeeds, whether or not a JWT is issued
    ensures
      && payload.Some? && TrimSpace(payload.value.username) != "" && payload.value.password != ""
      && !Rejected(TrimSpace(payload.value.username), payload.value.password, svc)
      && !Broken(TrimSpace(payload.value.username), payload.value.password, svc, ExpiryUnix(now, sessionExpires))
      ==> o.status == 200 && o.body.success
    ensures o.status != 200 ==> !o.body.success && o.cookie.None? && o.body.token == ""
    ensures o.status in {200, 400, 401, 500}
    // success: the cookie carries the signed session token of the user the credential belongs to
    ensures o.status == 200 ==>
      && payload.Some?
      && var name := TrimSpace(payload.value.username);
      && svc.authByUsername(name).AuthFound?
      && var a := svc.authByUsername(name).auth;
      && svc.passwordMatches(a.passwordHash, payload.value.password)
      && svc.getUser(a.userId).UserFound?
      && var u := svc.getUser(a.userId).user;
      && var signed := svc.sign(SessionTokenFor(u), u.hash, ExpiryUnix(now, sessionExpires));
      && signed.Some?
      && o.cookie == Some(Cookie(SessionCookie, signed.value))
      && o.body == LoginResponse(true, "", if svc.issueJwt(u).Some? then svc.issueJwt(u).value else signed.value,
                                 WholeSeconds(sessionExpires))
  {
    if payload.None? {
      return Outcome(400, Failure("invalid payload"), None);
    }
    var req := payload.value;
    req := req.(username := TrimSpace(req.username));
    if req.username == "" || req.password == "" {
      return Outcome(400, Failure("username and password required"), None);
    }

    var authUser := svc.authByUsername(req.username);
    if authUser.AuthNotFound? {
      return Outcome(401, Failure(InvalidCredentials), None);
    } else if authUser.AuthFailed? {
      return Outcome(500, Failure(InternalError), None);
    }

    if !svc.passwordMatches(authUser.auth.passwordHash, req.password) {
      return Outcome(401, Failure(InvalidCredentials), None);
    }

    var user := svc.getUser(authUser.auth.userId);
    if user.UserNotFound? {
      return Outcome(401, Failure(InvalidCredentials), None);
    } else if user.UserFailed? {
      return Outcome(500, Failure(InternalError), None);
    }

    var exp := ExpiryUnix(now, sessionExpires);
    var sessionToken := SessionTokenFor(user.user);
    var signed := svc.sign(sessionToken, user.user.hash, exp);
    if signed.None? {
      return Outcome(500, Failure(InternalError), None);
    }

    var cookie := Cookie(SessionCookie, signed.value);

    var jwtToken := svc.issueJwt(user.user);
    var token := if jwtToken.Some? then jwtToken.value else signed.value;

    o := Outcome(200, LoginResponse(true, "", token, WholeSeconds(sessionExpires)), Some(cookie));
  }

  /** The session token login mints is one the identity middleware resolves
      back to the same user and the same signing secret. */
  lemma SessionTokenResolvesToUser(u: User, getUser: int -> Session.UserFetch)
    requires Int64Min <= u.id <= Int64Max
    requires getUser(u.id) == Session.Fetched(u)
    ensures Session.RunResolver(SessionTokenFor(u).claims["user-id"], getUser) ==
      Session.ResolverRun(Some(u), Some(u.hash), false)
  {
  }
}
