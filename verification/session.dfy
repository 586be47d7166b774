/**
 * The request-identity middleware (`SetUser`) and the authorization gates
 * that read the identity it binds (`MustAdmin`, `MustRepoAdmin`, `MustUser`,
 * `MustOrgMember`).
 *
 * Credentials are tried in a fixed order: first a signed user or session
 * token (with a CSRF check for session tokens only), then a static token
 * from the `Authorization` or `X-Woodpecker-Token` header compared against
 * the configured admin token. The token library, the CSRF check and the
 * store are outside the model; their answers are inputs.
 */
module Session {
  import opened Wrappers
  import opened Text
  import opened Decimal
  import opened UserModel

  // ---------------------------------------------------------------------
  // The request context

  /** A value stored under a key of the request context (`c.Set`). */
  datatype CtxValue = UserValue(user: User) | OtherValue

  /** `User(c)`: the user bound under the key "user", if the value stored
      there is a user at all. */
  function CurrentUser(keys: map<string, CtxValue>): (u: Option<User>)
    ensures u.Some? <==> "user" in keys && keys["user"].UserValue?
    ensures u.Some? ==> keys["user"] == UserValue(u.value)
  {
    if "user" in keys && keys["user"].UserValue? then Some(keys["user"].user) else None
  }

  // ---------------------------------------------------------------------
  // Static token extraction

  /** `extractFromAuthorizationHeader`: the credential of an
      `Authorization: <scheme> <credential>` header whose scheme is `Bearer`
      (section 2.1 of RFC 6750) or the non-standard `Token`, the scheme
      compared case-insensitively (section 2.1 of RFC 7235); "" otherwise. */
  function ExtractFromAuthorizationHeader(header: string): (r: string)
    ensures NoSpace(r)
    ensures r != [] <==>
      |Fields(header)| == 2 && ToLower(Fields(header)[0]) in {"bearer", "token"}
    ensures r != [] ==> r == Fields(header)[1]
  {
    if header == "" then ""
    else
      FieldsAreWords(header);
      var parts := Fields(header);
      if |parts| != 2 then ""
      else if ToLower(parts[0]) == "bearer" || ToLower(parts[0]) == "token" then parts[1]
      else ""
  }

  /** A well-formed header gives back exactly the credential it carries. */
  lemma ExtractRoundTrip(scheme: string, sep: string, credential: string)
    requires ToLower(scheme) == "bearer" || ToLower(scheme) == "token"
    requires sep != [] && AllSpace(sep)
    requires credential != [] && NoSpace(credential)
    ensures ExtractFromAuthorizationHeader(scheme + sep + credential) == credential
  {
    assert NoSpace(scheme) by {
      forall i | 0 <= i < |scheme| ensures !IsSpace(scheme[i]) {
        assert ToLower(scheme)[i] == ToLowerChar(scheme[i]);
      }
    }
    FieldsOfTwo(scheme, sep, credential);
  }

  /** `getStaticAPIToken`: the credential from `Authorization`, or else the
      raw `X-Woodpecker-Token` header (an absent header reads as ""). */
  function GetStaticAPIToken(authorization: string, woodpeckerToken: string): (r: string)
    ensures ExtractFromAuthorizationHeader(authorization) != "" ==>
      r == ExtractFromAuthorizationHeader(authorization)
    ensures ExtractFromAuthorizationHeader(authorization) == "" ==> r == woodpeckerToken
  {
    var fromHeader := ExtractFromAuthorizationHeader(authorization);
    if fromHeader != "" then fromHeader else woodpeckerToken
  }

  // ---------------------------------------------------------------------
  // Admin token

  /** The forge id tried when no forge is configured. */
  const DefaultForgeId: int := 1

  /** The answer of `GetUserByLogin(forgeID, login)`: found, the
      record-not-found error, or any other store error. */
  datatype Lookup = Found(user: User) | NotFound | Failed

  /** Why the static token path did not yield a user. */
  datatype AuthError =
    | ForgeListFailed
    | LookupFailed(forgeId: int)
    | AdminNotFound(login: string)
    | NoAdminLogin
    | NotAdmin(login: string)

  datatype AdminLookup = AdminFound(user: User) | AdminLookupError(error: AuthError)

  /** The loop of `findAdminUserByLogin` over configured forges, in list
      order: the first lookup that finds the user wins, any error other
      than record-not-found stops the search, and a list where every
      lookup misses ends in "not found". */
  function SearchForges(ids: seq<int>, login: string, lookup: (int, string) -> Lookup): (r: AdminLookup)
    ensures r.AdminFound? ==>
      exists k :: 0 <= k < |ids| && lookup(ids[k], login) == Found(r.user) &&
        forall j :: 0 <= j < k ==> lookup(ids[j], login) == NotFound
    ensures r.AdminLookupError? && r.error.LookupFailed? ==>
      exists k :: 0 <= k < |ids| && ids[k] == r.error.forgeId && lookup(ids[k], login) == Failed &&
        forall j :: 0 <= j < k ==> lookup(ids[j], login) == NotFound
    ensures r.AdminFound? || r == AdminLookupError(AdminNotFound(login)) ||
      (r.AdminLookupError? && r.error.LookupFailed?)
    ensures r == AdminLookupError(AdminNotFound(login)) <==>
      forall j :: 0 <= j < |ids| ==> lookup(ids[j], login) == NotFound
  {
    if ids == [] then AdminLookupError(AdminNotFound(login))
    else
      match lookup(ids[0], login)
      case Found(u) => AdminFound(u)
      case Failed => AdminLookupError(LookupFailed(ids[0]))
      case NotFound =>
        var rest := SearchForges(ids[1..], login, lookup);
        assert forall j :: 1 <= j < |ids| ==> ids[1..][j - 1] == ids[j];
        rest
  }

  /** `findAdminUserByLogin`: a failing forge list is an error; with no
      forge configured the default forge is tried first; then the forges
      are searched in order. */
  function FindAdmin(forges: Result<seq<int>>, login: string, lookup: (int, string) -> Lookup): (r: AdminLookup)
    ensures forges.Err? ==> r == AdminLookupError(ForgeListFailed)
    ensures forges.Ok? && forges.value != [] ==> r == SearchForges(forges.value, login, lookup)
    ensures forges.Ok? && forges.value == [] ==>
      match lookup(DefaultForgeId, login)
      case Found(u) => r == AdminFound(u)
      case Failed => r == AdminLookupError(LookupFailed(DefaultForgeId))
      case NotFound => r == AdminLookupError(AdminNotFound(login))
  {
    match forges
    case Err(_) => AdminLookupError(ForgeListFailed)
    case Ok(ids) =>
      if ids != [] then SearchForges(ids, login, lookup)
      else
        match lookup(DefaultForgeId, login)
        case Found(u) => AdminFound(u)
        case Failed => AdminLookupError(LookupFailed(DefaultForgeId))
        case NotFound => SearchForges(ids, login, lookup)
  }

  /** The search as the source runs it: a loop with early returns. */
  method FindAdminUserByLogin(forges: Result<seq<int>>, login: string, lookup: (int, string) -> Lookup)
    returns (r: AdminLookup)
    ensures r == FindAdmin(forges, login, lookup)
  {
    if forges.Err? {
      return AdminLookupError(ForgeListFailed);
    }
    var ids := forges.value;
    if |ids| == 0 {
      var first := lookup(DefaultForgeId, login);
      if first.Failed? {
        return AdminLookupError(LookupFailed(DefaultForgeId));
      }
      if first.Found? {
        return AdminFound(first.user);
      }
    }
    var i := 0;
    while i < |ids|
      invariant 0 <= i <= |ids|
      invariant ids != [] ==> SearchForges(ids[i..], login, lookup) == FindAdmin(forges, login, lookup)
    {
      var found := lookup(ids[i], login);
      if found.Found? {
        return AdminFound(found.user);
      }
      if found.Failed? {
        return AdminLookupError(LookupFailed(ids[i]));
      }
      assert ids[i..][1..] == ids[i + 1..];
      i := i + 1;
    }
    return AdminLookupError(AdminNotFound(login));
  }

  /** The server's static-token configuration. */
  datatype Config = Config(adminToken: string, adminTokenUser: string)

  /** The outcome of the static token path: fall through (no user, no
      error), a user, or an error. */
  datatype StaticAuth = Anonymous | Authenticated(user: User) | Rejected(error: AuthError)

  /** `authenticateAdminToken`: a disabled admin token or a different
      presented value falls through; a match must resolve, through the
      configured admin login, to a user who is an administrator. */
  function AuthenticateAdminToken(
    presented: string, cfg: Config, forges: Result<seq<int>>, lookup: (int, string) -> Lookup): (r: StaticAuth)
    ensures r.Anonymous? <==> cfg.adminToken == "" || presented != cfg.adminToken
    ensures r.Authenticated? ==>
      presented == cfg.adminToken && cfg.adminTokenUser != "" && r.user.admin &&
      FindAdmin(forges, cfg.adminTokenUser, lookup) == AdminFound(r.user)
    ensures cfg.adminToken != "" && presented == cfg.adminToken && cfg.adminTokenUser == "" ==>
      r == Rejected(NoAdminLogin)
    ensures cfg.adminToken != "" && presented == cfg.adminToken && cfg.adminTokenUser != "" ==>
      match FindAdmin(forges, cfg.adminTokenUser, lookup)
      case AdminFound(u) => r == (if u.admin then Authenticated(u) else Rejected(NotAdmin(u.login)))
      case AdminLookupError(e) => r == Rejected(e)
  {
    if cfg.adminToken == "" || presented != cfg.adminToken then Anonymous
    else if cfg.adminTokenUser == "" then Rejected(NoAdminLogin)
    else
      match FindAdmin(forges, cfg.adminTokenUser, lookup)
      case AdminLookupError(e) => Rejected(e)
      case AdminFound(u) => if u.admin then Authenticated(u) else Rejected(NotAdmin(u.login))
  }

  /** `authenticateRequestToken`: an empty value falls through; otherwise
      the admin token decides. Only administrators come out of this path. */
  function AuthenticateRequestToken(
    presented: string, cfg: Config, forges: Result<seq<int>>, lookup: (int, string) -> Lookup): (r: StaticAuth)
    ensures presented == "" ==> r == Anonymous
    ensures presented != "" ==> r == AuthenticateAdminToken(presented, cfg, forges, lookup)
    ensures r.Authenticated? ==> r.user.admin && presented == cfg.adminToken != ""
  {
    if presented == "" then Anonymous
    else AuthenticateAdminToken(presented, cfg, forges, lookup)
  }

  // ---------------------------------------------------------------------
  // Signed tokens

  /** Token types; the middleware accepts the first two. */
  datatype TokenType = UserToken | SessToken | OtherToken

  /** The answer of `store.GetUser(id)`: Go returns a record and an error
      together; on error the record may be nil or not. */
  datatype UserFetch = Fetched(user: User) | FetchFailed(leftover: Option<User>)

  /** What the token library did with the request. Either it stopped
      before asking for a secret (no token, a malformed token), or it
      called the resolver with the token's type and `user-id` claim ("" when
      absent) and then checked signature and expiry against the secret the
      resolver returned (`verifies`, opaque). */
  datatype TokenParse =
    | NoResolve
    | Resolve(kind: TokenType, userIdClaim: string, verifies: string -> bool)

  /** The effect of the resolver closure: what it assigned to the outer
      `user` variable, the secret it returned (`None` for an error), and
      whether it panicked reading the hash of a nil user. */
  datatype ResolverRun = ResolverRun(userVar: Option<User>, secret: Option<string>, panicked: bool)

  /** The resolver: parse the `user-id` claim, load that user, hand back its
      hash. The outer `user` is assigned as soon as the store answers, even
      when the store reports an error; `user.Hash` is read either way, so a
      store error without a record is a nil dereference. */
  function RunResolver(claim: string, getUser: int -> UserFetch): (r: ResolverRun)
    ensures ParseInt(claim).None? ==> r == ResolverRun(None, None, false)
    ensures r.secret.Some? <==> ParseInt(claim).Some? && getUser(ParseInt(claim).value).Fetched?
    ensures r.secret.Some? ==>
      && r.userVar.Some? && r.secret.value == r.userVar.value.hash
      && getUser(ParseInt(claim).value) == Fetched(r.userVar.value)
    ensures r.panicked <==> ParseInt(claim).Some? && getUser(ParseInt(claim).value) == FetchFailed(None)
    ensures r.panicked ==> r.secret.None? && r.userVar.None?
  {
    match ParseInt(claim)
    case None => ResolverRun(None, None, false)
    case Some(id) =>
      match getUser(id)
      case Fetched(u) => ResolverRun(Some(u), Some(u.hash), false)
      case FetchFailed(left) => ResolverRun(left, None, left.None?)
  }

  /** `token.ParseRequest` with the accepted types `UserToken`, `SessToken`,
      seen from the middleware: whether it succeeded, the token type, the
      user the resolver left behind, and whether the resolver panicked
      (then nothing after it runs). */
  datatype Verdict = Verdict(ok: bool, kind: TokenType, user: Option<User>, panicked: bool)

  function ParseRequest(tp: TokenParse, getUser: int -> UserFetch): (v: Verdict)
    ensures v.ok ==> v.user.Some? && v.kind != OtherToken
    ensures tp.NoResolve? ==> !v.ok && v.user.None? && !v.panicked
    ensures v.panicked <==>
      tp.Resolve? && ParseInt(tp.userIdClaim).Some? && getUser(ParseInt(tp.userIdClaim).value) == FetchFailed(None)
    ensures v.panicked ==> !v.ok
    ensures v.ok ==>
      && tp.Resolve? && ParseInt(tp.userIdClaim).Some?
      && getUser(ParseInt(tp.userIdClaim).value) == Fetched(v.user.value)
      && tp.verifies(v.user.value.hash)
  {
    match tp
    case NoResolve => Verdict(false, OtherToken, None, false)
    case Resolve(kind, claim, verifies) =>
      var run := RunResolver(claim, getUser);
      Verdict(kind != OtherToken && run.secret.Some? && verifies(run.secret.value), kind, run.userVar, run.panicked)
  }

  // ---------------------------------------------------------------------
  // SetUser

  /** Everything `SetUser` reads from the request: the token library's
      verdict, the CSRF check against a secret (`token.CheckCsrf`, opaque),
      and the two static-token headers ("" when absent). */
  datatype Request = Request(
    token: TokenParse,
    csrfValid: string -> bool,
    authorization: string,
    woodpeckerToken: string)

  /** The store operations `SetUser` may call. */
  datatype Backend = Backend(
    getUser: int -> UserFetch,
    forges: Result<seq<int>>,
    userByLogin: (int, string) -> Lookup)

  /** What `SetUser` decides: the user bound under "user" (if any), whether
      it aborts with 401, whether the static-token path ran, the error that
      path logged, and whether the resolver panicked. */
  datatype Decision = Decision(
    bound: Option<User>,
    aborted: bool,
    staticTried: bool,
    staticError: Option<AuthError>,
    panicked: bool)

  /** The precedence chain of `SetUser`. */
  function Decide(req: Request, cfg: Config, be: Backend): (d: Decision)
    // a resolver that dereferences a nil user ends the request before anything is bound
    ensures d.panicked <==> ParseRequest(req.token, be.getUser).panicked
    ensures d.panicked ==> d.bound.None? && !d.aborted && !d.staticTried
    // a verified token binds its user, whatever the headers say
    ensures ParseRequest(req.token, be.getUser).ok ==> d.bound == ParseRequest(req.token, be.getUser).user
    // a session token with a failing CSRF check aborts with 401, before the static path
    ensures d.aborted <==>
      ParseRequest(req.token, be.getUser).ok && ParseRequest(req.token, be.getUser).kind == SessToken &&
      !req.csrfValid(ParseRequest(req.token, be.getUser).user.value.hash)
    ensures d.aborted ==> !d.staticTried
    // API tokens are never subject to the CSRF check
    ensures ParseRequest(req.token, be.getUser).kind == UserToken ==> !d.aborted
    // the static path runs only while no user has been assigned, and only for a non-empty value
    ensures d.staticTried <==>
      !ParseRequest(req.token, be.getUser).panicked && ParseRequest(req.token, be.getUser).user.None? &&
      GetStaticAPIToken(req.authorization, req.woodpeckerToken) != ""
    // the static path binds the user it authenticates and logs the error it reports
    ensures d.staticTried ==>
      var a := AuthenticateRequestToken(GetStaticAPIToken(req.authorization, req.woodpeckerToken),
                                        cfg, be.forges, be.userByLogin);
      && d.bound == (if a.Authenticated? then Some(a.user) else None)
      && d.staticError == (if a.Rejected? then Some(a.error) else None)
    ensures d.staticError.Some? ==> d.staticTried && d.bound.None? && !d.aborted
    // a user bound without a verified token is the administrator the admin token names
    ensures d.bound.Some? && !ParseRequest(req.token, be.getUser).ok ==>
      && d.staticTried && d.bound.value.admin
      && GetStaticAPIToken(req.authorization, req.woodpeckerToken) == cfg.adminToken
      && AuthenticateRequestToken(GetStaticAPIToken(req.authorization, req.woodpeckerToken),
                                  cfg, be.forges, be.userByLogin) == Authenticated(d.bound.value)
  {
    var v := ParseRequest(req.token, be.getUser);
    if v.panicked then
      Decision(None, false, false, None, true)
    else if v.ok && v.kind == SessToken && !req.csrfValid(v.user.value.hash) then
      Decision(v.user, true, false, None, false)
    else if v.user.Some? then
      Decision(if v.ok then v.user else None, false, false, None, false)
    else
      var raw := GetStaticAPIToken(req.authorization, req.woodpeckerToken);
      if raw == "" then Decision(None, false, false, None, false)
      else
        match AuthenticateRequestToken(raw, cfg, be.forges, be.userByLogin)
        case Anonymous => Decision(None, false, true, None, false)
        case Authenticated(u) => Decision(Some(u), false, true, None, false)
        case Rejected(e) => Decision(None, false, true, Some(e), false)
  }

  /** The parts of a gin request context the middleware touches. */
  class RequestContext {
    var keys: map<string, CtxValue>
    var abortStatus: Option<int>
    var nextCalled: bool
    var errorLog: seq<AuthError>

    constructor ()
      ensures keys == map[] && abortStatus == None && !nextCalled && errorLog == []
    {
      keys := map[];
      abortStatus := None;
      nextCalled := false;
      errorLog := [];
    }

    /** `SetUser`, run once per request. A panic in the resolver unwinds
        out of the middleware; it is recorded as the 500 abort that gin's
        recovery middleware turns it into, with no later handler run. */
    method SetUser(req: Request, cfg: Config, be: Backend)
      modifies this
      ensures var d := Decide(req, cfg, be);
        && keys == (if d.bound.Some? then old(keys)["user" := UserValue(d.bound.value)] else old(keys))
        && abortStatus == (if d.panicked then Some(500) else if d.aborted then Some(401) else old(abortStatus))
        && nextCalled == (old(nextCalled) || (!d.aborted && !d.panicked))
        && errorLog == old(errorLog) + (if d.staticError.Some? then [d.staticError.value] else [])
    {
      ghost var d := Decide(req, cfg, be);
      var user: Option<User> := None;
      var verdict := ParseRequest(req.token, be.getUser);
      if verdict.panicked {
        assert d == Decision(None, false, false, None, true);
        abortStatus := Some(500);
        return;
      }
      user := verdict.user;
      if verdict.ok {
        keys := keys["user" := UserValue(user.value)];
        if verdict.kind == SessToken {
          if !req.csrfValid(user.value.hash) {
            assert d == Decision(user, true, false, None, false);
            abortStatus := Some(401);
            return;
          }
        }
      }
      if user.None? {
        var raw := GetStaticAPIToken(req.authorization, req.woodpeckerToken);
        if raw != "" {
          var auth := AuthenticateRequestToken(raw, cfg, be.forges, be.userByLogin);
          if auth.Rejected? {
            assert d == Decision(None, false, true, Some(auth.error), false);
            errorLog := errorLog + [auth.error];
          } else if auth.Authenticated? {
            assert d == Decision(Some(auth.user), false, true, None, false);
            user := Some(auth.user);
            keys := keys["user" := UserValue(auth.user)];
          } else {
            assert d == Decision(None, false, true, None, false);
          }
        } else {
          assert d == Decision(None, false, false, None, false);
        }
      } else {
        assert d == Decision(if verdict.ok then user else None, false, false, None, false);
      }
      nextCalled := true;
    }
  }

  // ---------------------------------------------------------------------
  // Authorization gates

  /** Continue the handler chain, or abort with a status. */
  datatype Gate = Next | Abort(status: int)

  /** `MustAdmin`: anonymous is 401, a non-administrator 403. */
  function MustAdmin(user: Option<User>): (g: Gate)
    ensures g == Abort(401) <==> user.None?
    ensures g == Abort(403) <==> user.Some? && !user.value.admin
    ensures g == Next <==> user.Some? && user.value.admin
  {
    if user.None? then Abort(401) else if !user.value.admin then Abort(403) else Next
  }

  /** `MustRepoAdmin`: anonymous is 401, no admin permission on the
      repository 403. */
  function MustRepoAdmin(user: Option<User>, perm: Perm): (g: Gate)
    ensures g == Abort(401) <==> user.None?
    ensures g == Abort(403) <==> user.Some? && !perm.admin
    ensures g == Next <==> user.Some? && perm.admin
  {
    if user.None? then Abort(401) else if !perm.admin then Abort(403) else Next
  }

  /** `MustUser`: anonymous is 401. */
  function MustUser(user: Option<User>): (g: Gate)
    ensures g == Abort(401) <==> user.None?
    ensures g == Next <==> user.Some?
  {
    if user.None? then Abort(401) else Next
  }

  /** The forge and membership services `MustOrgMember` consults, as one
      answer: the forge could not be found, the membership check failed,
      or the membership (nil when the user is no member). */
  datatype MembershipAnswer = ForgeError | MembershipError | Membership(perm: Option<OrgPerm>)

  /** `MustOrgMember(admin)`. */
  function MustOrgMember(admin: bool, user: Option<User>, org: Option<Org>, answer: MembershipAnswer): (g: Gate)
    ensures g == Abort(401) <==> user.None?
    ensures g == Abort(400) <==> user.Some? && org.None?
    // the organization's own account and global administrators always pass
    ensures user.Some? && org.Some? && (org.value.name == user.value.login || user.value.admin) ==> g == Next
    ensures g == Abort(500) <==>
      user.Some? && org.Some? && org.value.name != user.value.login && !user.value.admin &&
      !answer.Membership?
    // anyone else needs the member (or, when `admin`, the admin) flag
    ensures g == Next <==>
      user.Some? && org.Some? &&
      (org.value.name == user.value.login || user.value.admin ||
       (answer.Membership? && answer.perm.Some? &&
        (if admin then answer.perm.value.admin else answer.perm.value.member)))
    ensures g == Next || g == Abort(400) || g == Abort(401) || g == Abort(403) || g == Abort(500)
  {
    if user.None? then Abort(401)
    else if org.None? then Abort(400)
    else if org.value.name == user.value.login || user.value.admin then Next
    else
      match answer
      case ForgeError => Abort(500)
      case MembershipError => Abort(500)
      case Membership(perm) =>
        if perm.None? || (!admin && !perm.value.member) || (admin && !perm.value.admin) then Abort(403)
        else Next
  }
}
