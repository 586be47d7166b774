/**
 * The `woodpecker-cli admin user add` command after its form: checking the
 * values entered, the account it asks the server to create, and the
 * message it reports when the server refuses.
 */
module UserAddCommand {
  import opened Wrappers
  import opened Text
  import opened Decimal

  /** The values the form leaves behind. */
  datatype FormValues = FormValues(login: string, email: string, admin: bool, password: string)

  /** The account sent to the server. */
  datatype NewAccount = NewAccount(login: string, email: string, admin: bool, password: string)

  /** How the server call went: the created account's login, a client
      error with the HTTP status and the server's message, or any other
      error (kept as its text). */
  datatype PostResult =
    | Created(login: string)
    | ClientError(status: int, message: string)
    | OtherError(text: string)

  /** How the command ends. */
  datatype CommandResult = Added(login: string) | Failed(message: string)

  /** The checked values: login and password trimmed and required, in that
      order; the email trimmed and optional. */
  function CheckForm(f: FormValues): (r: Result<NewAccount>)
    ensures TrimSpace(f.login) == "" ==> r == Err("username is required")
    ensures TrimSpace(f.login) != "" && TrimSpace(f.password) == "" ==> r == Err("password is required")
    ensures r.Ok? <==> TrimSpace(f.login) != "" && TrimSpace(f.password) != ""
    ensures r.Ok? ==> r.value == NewAccount(TrimSpace(f.login), TrimSpace(f.email), f.admin, TrimSpace(f.password))
  {
    var login := TrimSpace(f.login);
    if login == "" then Err("username is required")
    else
      var password := TrimSpace(f.password);
      if password == "" then Err("password is required")
      else Ok(NewAccount(login, TrimSpace(f.email), f.admin, password))
  }

  const XmlPrefix: string := "<?xml"
  const StatusPrefix: string := "server responded with status "

  /** The server's message as shown: trimmed; the status text when empty;
      a generic line naming the status when it is an XML document.
      `statusText` is Go's `http.StatusText`. */
  function ShownMessage(status: int, message: string, statusText: int -> string): (msg: string)
    ensures !HasPrefix(msg, XmlPrefix)
    ensures var m := TrimSpace(message);
      var candidate := if m == "" then statusText(status) else m;
      msg == if HasPrefix(candidate, XmlPrefix) then StatusPrefix + FormatInt(status) else candidate
  {
    var m := TrimSpace(message);
    var msg := if m == "" then statusText(status) else m;
    if HasPrefix(msg, XmlPrefix) then
      StatusLineIsNotXml(FormatInt(status));
      StatusPrefix + FormatInt(status)
    else msg
  }

  /** The generic status line does not look like an XML document. */
  lemma StatusLineIsNotXml(digits: string)
    ensures !HasPrefix(StatusPrefix + digits, XmlPrefix)
  {
    assert (StatusPrefix + digits)[0] == StatusPrefix[0];
  }

  /** A refusal that means the account exists: 409 Conflict, or a message
      mentioning "already exist" or "duplicate" in any case. */
  predicate Conflict(status: int, msg: string) {
    var lower := ToLower(msg);
    status == 409 || Contains(lower, "already exist") || Contains(lower, "duplicate")
  }

  /** The error a client error becomes. */
  function ClientErrorMessage(login: string, status: int, message: string, statusText: int -> string): (r: string)
    ensures var msg := ShownMessage(status, message, statusText);
      r == if Conflict(status, msg) then "user " + login + " already exists" else "failed to create user: " + msg
  {
    var msg := ShownMessage(status, message, statusText);
    if Conflict(status, msg) then "user " + login + " already exists" else "failed to create user: " + msg
  }

  /** `userAdd` from the checks on: `post` stands for `client.UserPost`. */
  function UserAdd(f: FormValues, post: NewAccount -> PostResult, statusText: int -> string): (r: CommandResult)
    ensures CheckForm(f).Err? ==> r == Failed(CheckForm(f).message)
    ensures CheckForm(f).Ok? ==>
      match post(CheckForm(f).value)
      case Created(login) => r == Added(login)
      case ClientError(status, message) =>
        r == Failed(ClientErrorMessage(TrimSpace(f.login), status, message, statusText))
      case OtherError(text) => r == Failed(text)
  {
    match CheckForm(f)
    case Err(e) => Failed(e)
    case Ok(account) =>
      match post(account)
      case Created(login) => Added(login)
      case ClientError(status, message) => Failed(ClientErrorMessage(account.login, status, message, statusText))
      case OtherError(text) => Failed(text)
  }

  /** A rejected form fails before the server is asked: the outcome does
      not depend on the server at all. */
  lemma RejectedFormSkipsServer(f: FormValues, post1: NewAccount -> PostResult, post2: NewAccount -> PostResult,
                                statusText: int -> string)
    requires TrimSpace(f.login) == "" || TrimSpace(f.password) == ""
    ensures UserAdd(f, post1, statusText) == UserAdd(f, post2, statusText)
    ensures UserAdd(f, post1, statusText).Failed?
  {
  }

  /** A 409 reply always reports the existing account, whatever the
      server's message. */
  lemma ConflictStatusReportsExisting(login: string, message: string, statusText: int -> string)
    ensures ClientErrorMessage(login, 409, message, statusText) == "user " + login + " already exists"
  {
  }
}
