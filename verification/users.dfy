/**
 * The admin user handlers of the server API (`GetUser`, `PatchUser`,
 * `PostUser`, `DeleteUser`), run against the in-memory `Datastore.Store`.
 * Each store call takes a fault flag from the caller, so every error path
 * of the handlers can be reached.
 */
module UsersApi {
  import opened Wrappers
  import opened Text
  import opened Decimal
  import opened UserModel
  import opened AuthUserModel
  import opened Datastore

  const DefaultForgeId: int := 1

  /** What a handler writes: a user as JSON with status 200, a bare status,
      a status with a fixed text, or a store error handed to the shared
      database-error responder (which tells not-found apart from the rest). */
  datatype Reply =
    | UserJson(user: User)
    | Status(code: int)
    | Message(code: int, text: string)
    | DbError(notFound: bool)

  function ReplyOf(g: Get<User>): (r: Reply)
    ensures r.UserJson? <==> g.Hit?
    ensures g.Hit? ==> r.user == g.value
    ensures g.Miss? <==> r == DbError(true)
    ensures g.Fault? <==> r == DbError(false)
  {
    match g
    case Hit(u) => UserJson(u)
    case Miss => DbError(true)
    case Fault => DbError(false)
  }

  /** The `forge_id` query parameter, defaulting to the text of forge 1. */
  function QueryForgeId(query: map<string, string>): (r: Option<int>)
    ensures "forge_id" !in query ==> r == Some(DefaultForgeId)
    ensures "forge_id" in query ==> r == ParseInt(query["forge_id"])
    ensures "forge_id" in query && query["forge_id"] == "" ==> r == None
    ensures r.Some? ==> Int64Min <= r.value <= Int64Max
  {
    ParseFormatInt(DefaultForgeId);
    ParseIntEmpty();
    ParseInt(if "forge_id" in query then query["forge_id"] else FormatInt(DefaultForgeId))
  }

  /** The `forge_remote_id` query parameter, empty when absent. */
  function QueryRemoteId(query: map<string, string>): string {
    if "forge_remote_id" in query then query["forge_remote_id"] else ""
  }

  /** The user `GetUser` and `DeleteUser` address: by remote id when the
      given one is valid, otherwise by the login path parameter. */
  function Addressed(users: seq<User>, forgeId: int, remoteId: string, login: string,
                     remoteIdValid: string -> bool, fault: bool): (r: Get<User>)
    ensures r.Hit? ==> r.value in users && r.value.forgeId == forgeId
    ensures r.Hit? && remoteIdValid(remoteId) ==> r.value.forgeRemoteId == remoteId
    ensures r.Hit? && !remoteIdValid(remoteId) ==> r.value.login == login
    ensures !fault && remoteIdValid(remoteId) ==>
      (r == Miss <==> forall u :: u in users ==> !(u.forgeId == forgeId && u.forgeRemoteId == remoteId))
    ensures !fault && !remoteIdValid(remoteId) ==>
      (r == Miss <==> forall u :: u in users ==> !(u.forgeId == forgeId && u.login == login))
    ensures fault ==> r == Fault
  {
    if remoteIdValid(remoteId) then UserByRemoteID(users, forgeId, remoteId, fault)
    else UserByLogin(users, forgeId, login, fault)
  }

  /** `GetUser`. */
  method GetUser(store: Store, query: map<string, string>, login: string,
                 remoteIdValid: string -> bool, fault: bool) returns (reply: Reply)
    ensures QueryForgeId(query).None? <==> reply == Status(400)
    ensures QueryForgeId(query).Some? ==>
      reply == ReplyOf(Addressed(store.users, QueryForgeId(query).value, QueryRemoteId(query),
                                 login, remoteIdValid, fault))
  {
    var forgeId := QueryForgeId(query);
    if forgeId.None? {
      return Status(400);
    }
    var found := Addressed(store.users, forgeId.value, QueryRemoteId(query), login, remoteIdValid, fault);
    reply := ReplyOf(found);
  }

  /** `DeleteUser`: the addressed user's row is removed and 204 returned. */
  method DeleteUser(store: Store, query: map<string, string>, login: string,
                    remoteIdValid: string -> bool, lookupFault: bool, deleteFault: bool)
    returns (reply: Reply)
    requires store.Valid()
    modifies store
    ensures store.Valid() && store.auths == old(store.auths)
    ensures QueryForgeId(query).None? ==> reply == Status(400) && store.users == old(store.users)
    ensures QueryForgeId(query).Some? ==>
      var found := Addressed(old(store.users), QueryForgeId(query).value, QueryRemoteId(query),
                             login, remoteIdValid, lookupFault);
      && (!found.Hit? ==> reply == ReplyOf(found) && store.users == old(store.users))
      && (found.Hit? && deleteFault ==> reply == DbError(false) && store.users == old(store.users))
      && (found.Hit? && !deleteFault ==>
            reply == Status(204) && store.users == RemoveUser(old(store.users), found.value.id))
  {
    var forgeId := QueryForgeId(query);
    if forgeId.None? {
      return Status(400);
    }
    var found := Addressed(store.users, forgeId.value, QueryRemoteId(query), login, remoteIdValid, lookupFault);
    if !found.Hit? {
      return ReplyOf(found);
    }
    var ok := store.DeleteUser(found.value.id, deleteFault);
    if !ok {
      return DbError(false);
    }
    reply := Status(204);
  }

  /** The forge id `PatchUser` uses: anything below forge 1 becomes forge 1. */
  function ClampForgeId(forgeId: int): (r: int)
    ensures r >= DefaultForgeId
    ensures forgeId >= DefaultForgeId ==> r == forgeId
    ensures forgeId < DefaultForgeId ==> r == DefaultForgeId
  {
    if forgeId < DefaultForgeId then DefaultForgeId else forgeId
  }

  /** The user `PatchUser` edits: found by remote id, or, only when that
      finds nothing, by the login path parameter. */
  function PatchTarget(users: seq<User>, forgeId: int, remoteId: string, login: string,
                       remoteFault: bool, loginFault: bool): (r: Get<User>)
    ensures r.Hit? ==> r.value in users && r.value.forgeId == forgeId
    ensures remoteFault ==> r == Fault
    ensures !remoteFault && (exists u :: u in users && u.forgeId == forgeId && u.forgeRemoteId == remoteId) ==>
      r.Hit? && r.value.forgeRemoteId == remoteId
    ensures r.Hit? && r.value.forgeRemoteId != remoteId ==> r.value.login == login
    // after a miss by remote id, the login lookup decides
    ensures !remoteFault && (forall u :: u in users ==> !(u.forgeId == forgeId && u.forgeRemoteId == remoteId)) ==>
      && (loginFault ==> r == Fault)
      && (!loginFault ==> (r.Hit? <==> exists u :: u in users && u.forgeId == forgeId && u.login == login))
      && (r.Hit? ==> r.value.login == login)
  {
    match UserByRemoteID(users, forgeId, remoteId, remoteFault)
    case Fault => Fault
    case Hit(u) => Hit(u)
    case Miss => UserByLogin(users, forgeId, login, loginFault)
  }

  /** The stored user with only the four editable fields taken from the input. */
  function Patched(stored: User, input: User): (r: User)
    ensures r.login == input.login && r.email == input.email
    ensures r.avatar == input.avatar && r.admin == input.admin
    ensures r.id == stored.id && r.hash == stored.hash
    ensures r.forgeId == stored.forgeId && r.forgeRemoteId == stored.forgeRemoteId
  {
    stored.(login := input.login, email := input.email, avatar := input.avatar, admin := input.admin)
  }

  datatype PatchFaults = PatchFaults(byRemoteId: bool, byLogin: bool, update: bool)

  /** `PatchUser`; `input` is `None` when the body does not bind. */
  method PatchUser(store: Store, input: Option<User>, login: string, faults: PatchFaults)
    returns (reply: Reply)
    requires store.Valid()
    modifies store
    ensures store.Valid() && store.auths == old(store.auths)
    ensures input.None? ==> reply == Status(400) && store.users == old(store.users)
    ensures input.Some? ==>
      var target := PatchTarget(old(store.users), ClampForgeId(input.value.forgeId),
                                input.value.forgeRemoteId, login, faults.byRemoteId, faults.byLogin);
      && (!target.Hit? ==> reply == ReplyOf(target) && store.users == old(store.users))
      && (target.Hit? && faults.update ==> reply == Status(409) && store.users == old(store.users))
      && (target.Hit? && !faults.update ==>
            var patched := Patched(target.value, input.value);
            reply == UserJson(patched) && store.users == ReplaceById(old(store.users), UserKey, patched))
    // a patch never adds, removes or re-keys a row
    ensures |store.users| == |old(store.users)|
    ensures forall i :: 0 <= i < |store.users| ==> store.users[i].id == old(store.users)[i].id
  {
    if input.None? {
      return Status(400);
    }
    var forgeId := ClampForgeId(input.value.forgeId);
    var target := PatchTarget(store.users, forgeId, input.value.forgeRemoteId, login,
                              faults.byRemoteId, faults.byLogin);
    if !target.Hit? {
      return ReplyOf(target);
    }
    var patched := Patched(target.value, input.value);
    var ok := store.UpdateUser(patched, faults.update);
    if !ok {
      return Status(409);
    }
    reply := UserJson(patched);
  }

  /** The body `PostUser` binds. */
  datatype CreateRequest = CreateRequest(
    login: string,
    email: string,
    avatar: string,
    forgeId: int,
    admin: bool,
    password: string)

  /** What `PostUser` takes from outside: the random per-user hash, the user
      validation rules, and password hashing (which may fail). */
  datatype PostEnv = PostEnv(
    freshHash: string,
    userValid: User -> bool,
    hashPassword: string -> Option<string>)

  /** Which store calls of `PostUser` fail with a database error. */
  datatype PostFaults = PostFaults(
    byLogin: bool,
    byEmail: bool,
    create: bool,
    authFind: bool,
    authWrite: bool,
    rollback: bool)

  function PostForgeId(forgeId: int): (r: int)
    ensures forgeId == 0 ==> r == DefaultForgeId
    ensures forgeId != 0 ==> r == forgeId
  {
    if forgeId == 0 then DefaultForgeId else forgeId
  }

  /** The existing user `PostUser` reuses: by login, then, only when that
      finds nothing and an email is given, by email. */
  function Existing(users: seq<User>, forgeId: int, login: string, email: string,
                    faults: PostFaults): (r: Get<User>)
    ensures r.Hit? ==> r.value in users && r.value.forgeId == forgeId
    ensures r.Hit? ==> r.value.login == login || (email != "" && r.value.email == email)
    ensures faults.byLogin ==> r == Fault
    ensures !faults.byLogin && email == "" ==>
      (r == Miss <==> forall u :: u in users ==> !(u.forgeId == forgeId && u.login == login))
    ensures !faults.byLogin && (exists u :: u in users && u.forgeId == forgeId && u.login == login) ==>
      r.Hit? && r.value.login == login
    // after a miss by login, a given email decides
    ensures !faults.byLogin && email != "" && (forall u :: u in users ==> !(u.forgeId == forgeId && u.login == login)) ==>
      && (faults.byEmail ==> r == Fault)
      && (!faults.byEmail ==> (r.Hit? <==> exists u :: u in users && u.forgeId == forgeId && u.email == email))
      && (r.Hit? ==> r.value.email == email)
  {
    match UserByLogin(users, forgeId, login, faults.byLogin)
    case Fault => Fault
    case Hit(u) => Hit(u)
    case Miss => if email == "" then Miss else UserByEmail(users, forgeId, email, faults.byEmail)
  }

  /** The account `PostUser` creates when none exists (id still unassigned). */
  function NewUser(input: CreateRequest, env: PostEnv): (u: User)
    ensures u.login == TrimSpace(input.login) && u.email == TrimSpace(input.email)
    ensures u.avatar == input.avatar && u.admin == input.admin && u.hash == env.freshHash
    ensures u.forgeId == PostForgeId(input.forgeId) && u.forgeRemoteId == "0"
  {
    User(0, TrimSpace(input.login), TrimSpace(input.email), input.avatar, input.admin,
         env.freshHash, PostForgeId(input.forgeId), "0")
  }

  /** How the credential step of `PostUser` ends. */
  datatype CredentialOutcome =
    | NoPassword
    | Saved(auths: seq<AuthUser>)
    | FailedKeep        // the error leaves a user created in this request in place
    | FailedRollback    // the error deletes a user created in this request

  /** The credential step for the account `userId`: nothing for an empty
      password; otherwise the row keyed by `login` is updated if present,
      created if not. */
  function SaveCredential(auths: seq<AuthUser>, nextAuthId: int, userId: int, login: string,
                          password: string, env: PostEnv, faults: PostFaults): (r: CredentialOutcome)
    ensures password == "" <==> r == NoPassword
    // only a failed update of an existing credential keeps a new user
    ensures r.FailedKeep? ==> env.hashPassword(password).Some? && AuthByUsername(auths, login, faults.authFind).Hit?
    ensures r.FailedRollback? ==> env.hashPassword(password).None? || !AuthByUsername(auths, login, faults.authFind).Hit?
  {
    if password == "" then NoPassword
    else
      match env.hashPassword(password)
      case None => FailedRollback
      case Some(hash) =>
        match AuthByUsername(auths, login, faults.authFind)
        case Fault => FailedRollback
        case Hit(a) =>
          var updated := a.(userId := userId, username := login, passwordHash := hash);
          if !faults.authWrite && AuthUpdateOk(auths, updated)
          then Saved(ReplaceById(auths, AuthKey, updated))
          else FailedKeep
        case Miss =>
          if !faults.authWrite && forall b :: b in auths ==> b.username != login && b.userId != userId
          then Saved(auths + [AuthUser(nextAuthId, userId, login, hash, 0, 0)])
          else FailedRollback
  }

  /** An empty password leaves the credentials alone; a stored credential
      is keyed by the login, bound to the account and holds the hash of the
      password. */
  lemma SaveCredentialStores(auths: seq<AuthUser>, nextAuthId: int, userId: int, login: string,
                             password: string, env: PostEnv, faults: PostFaults)
    ensures var out := SaveCredential(auths, nextAuthId, userId, login, password, env, faults);
      out.Saved? ==>
        && env.hashPassword(password).Some?
        && exists a :: a in out.auths && a.username == login && a.userId == userId
                       && a.passwordHash == env.hashPassword(password).value
    ensures var out := SaveCredential(auths, nextAuthId, userId, login, password, env, faults);
      out.Saved? ==> forall b :: b in out.auths && b.username != login ==> b in auths
  {
    var out := SaveCredential(auths, nextAuthId, userId, login, password, env, faults);
    if out.Saved? {
      var hash := env.hashPassword(password).value;
      match AuthByUsername(auths, login, faults.authFind)
      case Hit(a) =>
        var updated := a.(userId := userId, username := login, passwordHash := hash);
        var k :| 0 <= k < |auths| && auths[k] == a;
        assert out.auths[k] == updated;
        forall b | b in out.auths && b.username != login ensures b in auths {
          var j :| 0 <= j < |out.auths| && out.auths[j] == b;
        }
      case Miss =>
        assert out.auths[|auths|] == AuthUser(nextAuthId, userId, login, hash, 0, 0);
    }
  }

  /** The credential step as the handler is written. `AuthUserFindByUsername`
      hands back a record reference that is never nil, an empty record
      alongside the not-found error, and the handler tests that reference,
      not the error: a login without a credential takes the update path
      with the empty record's id 0. As written the step never adds a row. */
  function SaveCredentialAsWritten(auths: seq<AuthUser>, userId: int, login: string,
                                   password: string, env: PostEnv, faults: PostFaults): (r: CredentialOutcome)
    ensures password == "" <==> r == NoPassword
    ensures r.Saved? ==> |r.auths| == |auths|
    ensures r.Saved? ==> forall b :: b in r.auths && b.username != login ==> b in auths
  {
    if password == "" then NoPassword
    else
      match env.hashPassword(password)
      case None => FailedRollback
      case Some(hash) =>
        match AuthByUsername(auths, login, faults.authFind)
        case Fault => FailedRollback
        case Hit(a) => UpdateAsWritten(auths, a.(userId := userId, username := login, passwordHash := hash), faults)
        case Miss => UpdateAsWritten(auths, AuthUser(0, userId, login, hash, 0, 0), faults)
  }

  /** The update path of the credential step as written: an update by
      `updated`'s id, which can only rewrite a row in place. */
  function UpdateAsWritten(auths: seq<AuthUser>, updated: AuthUser, faults: PostFaults): (r: CredentialOutcome)
    ensures r.Saved? || r.FailedKeep?
    ensures r.Saved? ==> |r.auths| == |auths|
    ensures r.Saved? ==> forall b :: b in r.auths && b.username != updated.username ==> b in auths
  {
    if !faults.authWrite && AuthUpdateOk(auths, updated) then
      var out := ReplaceById(auths, AuthKey, updated);
      assert forall b :: b in out && b.username != updated.username ==> b in auths by {
        forall b | b in out && b.username != updated.username ensures b in auths {
          var j :| 0 <= j < |out| && out[j] == b;
        }
      }
      Saved(out)
    else FailedKeep
  }

  /** As written, a new login with a password gets no credential: the
      update by id 0 matches no row, the table is left as it was, and the
      step reports success. The intended step stores a row for the login,
      or fails (and rolls the new user back) when the account already has
      a credential under another login. */
  lemma AsWrittenDropsNewCredential(auths: seq<AuthUser>, nextAuthId: int, userId: int, login: string,
                                    password: string, env: PostEnv, faults: PostFaults)
    requires password != "" && env.hashPassword(password).Some?
    requires !faults.authFind && !faults.authWrite
    requires forall b :: b in auths ==> b.id >= 1 && b.username != login
    ensures SaveCredentialAsWritten(auths, userId, login, password, env, faults) == Saved(auths)
    ensures (forall b :: b in auths ==> b.userId != userId) ==>
      var out := SaveCredential(auths, nextAuthId, userId, login, password, env, faults);
      out.Saved? && exists a :: a in out.auths && a.username == login
    ensures (exists b :: b in auths && b.userId == userId) ==>
      SaveCredential(auths, nextAuthId, userId, login, password, env, faults) == FailedRollback
  {
    var hash := env.hashPassword(password).value;
    var updated := AuthUser(0, userId, login, hash, 0, 0);
    assert AuthByUsername(auths, login, false) == Miss;
    assert forall b :: b in auths ==> AuthKey(b) != AuthKey(updated);
    assert AuthUpdateOk(auths, updated);
    SaveCredentialStores(auths, nextAuthId, userId, login, password, env, faults);
  }

  /** The credential step of `PostUser` on the store; `rollback` tells
      whether the failure calls for deleting a user created in this request. */
  method StoreCredential(store: Store, userId: int, login: string, password: string,
                         env: PostEnv, faults: PostFaults)
    returns (ok: bool, rollback: bool)
    requires store.Valid()
    modifies store
    ensures store.Valid() && store.users == old(store.users) && store.nextUserId == old(store.nextUserId)
    ensures var out := SaveCredential(old(store.auths), old(store.nextAuthId), userId, login, password, env, faults);
      && (out.NoPassword? ==> ok && store.auths == old(store.auths))
      && (out.Saved? ==> ok && store.auths == out.auths)
      && (out.FailedKeep? ==> !ok && !rollback && store.auths == old(store.auths))
      && (out.FailedRollback? ==> !ok && rollback && store.auths == old(store.auths))
  {
    if password == "" {
      return true, false;
    }
    var hash := env.hashPassword(password);
    if hash.None? {
      return false, true;
    }
    var existing := AuthByUsername(store.auths, login, faults.authFind);
    if existing.Fault? {
      return false, true;
    }
    if existing.Hit? {
      var updated := existing.value.(userId := userId, username := login, passwordHash := hash.value);
      ok := store.AuthUserUpdate(updated, faults.authWrite);
      rollback := false;
    } else {
      var row;
      ok, row := store.AuthUserCreate(AuthUser(0, userId, login, hash.value, 0, 0), faults.authWrite);
      rollback := !ok;
    }
  }

  /** `PostUser`; `input` is `None` when the body does not bind. */
  method PostUser(store: Store, input: Option<CreateRequest>, env: PostEnv, faults: PostFaults)
    returns (reply: Reply)
    requires store.Valid()
    modifies store
    ensures store.Valid()
    ensures input.None? ==> reply == Status(400) && store.users == old(store.users) && store.auths == old(store.auths)
    ensures input.Some? && TrimSpace(input.value.login) == "" ==>
      reply == Message(400, "login is required") && store.users == old(store.users) && store.auths == old(store.auths)
    ensures input.Some? && TrimSpace(input.value.login) != "" ==>
      var login := TrimSpace(input.value.login);
      var forgeId := PostForgeId(input.value.forgeId);
      var found := Existing(old(store.users), forgeId, login, TrimSpace(input.value.email), faults);
      && (found.Fault? ==> reply == Status(500) && store.users == old(store.users) && store.auths == old(store.auths))
      && (found.Miss? && !env.userValid(NewUser(input.value, env)) ==> reply == Status(400) && store.users == old(store.users) && store.auths == old(store.auths))
      && (found.Miss? && env.userValid(NewUser(input.value, env)) && faults.create ==>
            reply == Status(500) && store.users == old(store.users) && store.auths == old(store.auths))
    // an existing account is answered with its fields unchanged, or the request fails
    ensures input.Some? && TrimSpace(input.value.login) != "" ==>
      var found := Existing(old(store.users), PostForgeId(input.value.forgeId), TrimSpace(input.value.login),
                            TrimSpace(input.value.email), faults);
      found.Hit? ==>
        var out := SaveCredential(old(store.auths), old(store.nextAuthId), found.value.id,
                                  TrimSpace(input.value.login), TrimSpace(input.value.password), env, faults);
        && store.users == old(store.users)
        && (out.NoPassword? ==> reply == UserJson(found.value) && store.auths == old(store.auths))
        && (out.Saved? ==> reply == UserJson(found.value) && store.auths == out.auths)
        && (out.FailedKeep? || out.FailedRollback? ==> reply == Status(500) && store.auths == old(store.auths))
    // a created account is kept unless a rolling-back step fails
    ensures input.Some? && TrimSpace(input.value.login) != "" ==>
      var found := Existing(old(store.users), PostForgeId(input.value.forgeId), TrimSpace(input.value.login),
                            TrimSpace(input.value.email), faults);
      found.Miss? && env.userValid(NewUser(input.value, env)) && !faults.create ==>
        var created := NewUser(input.value, env).(id := old(store.nextUserId));
        var out := SaveCredential(old(store.auths), old(store.nextAuthId), created.id,
                                  TrimSpace(input.value.login), TrimSpace(input.value.password), env, faults);
        && (out.NoPassword? ==> reply == UserJson(created) && store.users == old(store.users) + [created]
                                && store.auths == old(store.auths))
        && (out.Saved? ==> reply == UserJson(created) && store.users == old(store.users) + [created]
                           && store.auths == out.auths)
        && (out.FailedKeep? ==> reply == Status(500) && store.users == old(store.users) + [created]
                                && store.auths == old(store.auths))
        && (out.FailedRollback? ==> reply == Status(500) && store.auths == old(store.auths)
                                    && store.users == (if faults.rollback then old(store.users) + [created]
                                                       else old(store.users)))
  {
    if input.None? {
      return Status(400);
    }
    var login := TrimSpace(input.value.login);
    if login == "" {
      return Message(400, "login is required");
    }
    var email := TrimSpace(input.value.email);
    var forgeId := PostForgeId(input.value.forgeId);
    var found := Existing(store.users, forgeId, login, email, faults);
    if found.Fault? {
      return Status(500);
    }
    ghost var users0 := store.users;
    var user: User;
    var createdUser := false;
    if found.Hit? {
      user := found.value;
    } else {
      var candidate := NewUser(input.value, env);
      if !env.userValid(candidate) {
        return Status(400);
      }
      var ok;
      ok, user := store.CreateUser(candidate, faults.create);
      if !ok {
        return Status(500);
      }
      createdUser := true;
      RemoveFresh(users0, user);
    }
    var ok, rollback := StoreCredential(store, user.id, login, TrimSpace(input.value.password), env, faults);
    if !ok {
      if rollback && createdUser {
        var _ := store.DeleteUser(user.id, faults.rollback);
      }
      return Status(500);
    }
    reply := UserJson(user);
  }
}
