/**
 * Application-local credentials (`model.AuthUser`): a username and a
 * password hash bound to one Woodpecker user.
 */
module AuthUserModel {
  import opened Wrappers
  import opened Text

  datatype AuthUser = AuthUser(
    id: int,
    userId: int,
    username: string,
    passwordHash: string,
    created: int,
    updated: int)

  datatype ValidationError = InvalidLogin | InvalidPassword

  /** The login-name rules shared with user accounts: a bound on the length
      in bytes and the username pattern. */
  datatype LoginRules = LoginRules(maxLoginLen: nat, usernamePattern: string -> bool)

  /** The three checks on the login side of a record. */
  predicate LoginOk(a: AuthUser, rules: LoginRules) {
    && a.userId != 0
    && 0 < Utf8Length(a.username) <= rules.maxLoginLen
    && rules.usernamePattern(a.username)
  }

  /** `AuthUser.Validate`: a missing user id, an empty or over-long username,
      or a username outside the pattern is an invalid login; only a record
      whose login is fine can be reported for an empty password hash. */
  function Validate(a: AuthUser, rules: LoginRules): (r: Option<ValidationError>)
    ensures r.None? <==> LoginOk(a, rules) && a.passwordHash != []
    ensures r == Some(InvalidLogin) <==> !LoginOk(a, rules)
    ensures r == Some(InvalidPassword) <==> LoginOk(a, rules) && a.passwordHash == []
    ensures a.userId == 0 || a.username == [] ==> r == Some(InvalidLogin)
  {
    if a.userId == 0 then Some(InvalidLogin)
    else if Utf8Length(a.username) == 0 || Utf8Length(a.username) > rules.maxLoginLen then Some(InvalidLogin)
    else if !rules.usernamePattern(a.username) then Some(InvalidLogin)
    else if |a.passwordHash| == 0 then Some(InvalidPassword)
    else None
  }
}
