# Woodpecker identity, accounts and small decision procedures in Dafny

This project models the decision logic around identity and accounts in the
Woodpecker CI server, and the small pure or state-machine pieces next to it.
It states and proves properties of that model:

- **Request identity** (`Session`): the `SetUser` middleware resolves the caller.
  - It first tries a signed user or session token, with a CSRF check for session tokens only.
  - It then tries a static token from `Authorization: Bearer|Token <v>` or `X-Woodpecker-Token`. The Bearer syntax follows section 2.1 of RFC 6750, and the scheme is matched case-insensitively as in section 2.1 of RFC 7235.
  - The static token is compared against the configured admin token and resolved to an administrator across forges.
  - The module also holds the 401/403/400 gates `MustAdmin`, `MustRepoAdmin`, `MustUser` and `MustOrgMember`.
- **Password login** (`PasswordLogin`): checks the input, then rejects wrong credentials without saying why. On success it mints the `user_sess` cookie and returns a bearer token.
- **Credential records** (`AuthUserModel`): `AuthUser.Validate`.
- **User administration** (`UsersApi`, over the in-memory store `Datastore.Store`): `GetUser`, `PatchUser`, `PostUser` and `DeleteUser`, covering:
  - forge-id defaulting;
  - lookup precedence;
  - field-restricted patching;
  - credential upsert;
  - deleting a freshly created user again when a later step fails.
- **Manual actions** (`ManualActionModel`, `ManualActions`):
  - definition validation;
  - field value resolution;
  - building the outgoing request (query, headers, JSON body, timeout);
  - decoding the trigger payload;
  - the trigger handlers' replies.
- **Pipeline tabs** (`PipelineTabModel`, `PipelineTabs`): tab validation and the push-permission filter.
- **Web client** (`ApiClientModel`, `AuthToken`, `ScaffoldLayout`):
  - the canonical query string;
  - per-request headers and reply handling;
  - the three-segment token check (the compact serialization of section 7.1 of RFC 7515) and token storage;
  - the saturating counter behind the fluid layout.
- **CLI `user add`** (`UserAddCommand`): input checks and the mapping of server errors to messages.

Shared helpers:

- `Wrappers`: `Option`, `Result` and a first-match search.
- `Text`: Go's `strings.TrimSpace`, `Fields`, `ToLower`, `ToUpper`, `HasPrefix` and `Contains`, and JavaScript's `split`/`join`.
- `Decimal`: `strconv.ParseInt` and `FormatInt` on 64-bit integers.
- `UserModel`: the user, permission and organization records.

Everything outside the modelled code becomes a parameter or a value: the store, bcrypt, the token library, JWT issuance, URL/JSON/duration parsing, HTTP, the forge and membership services, clocks and randomness. A handler that can hit a store error takes a fault flag per store call, so every error path can be reached.

The model follows these details of the code, each of which is easy to expect otherwise:

- Only the username is trimmed at password login; the password is not.
- There is no third "API token looked up in the store" strategy: the static token path only compares against the admin token.
- An admin-token error (no admin login configured, the user not an admin, no forge with the user) is logged and leaves the request anonymous. It does not abort the request.
- The default forge 1 is tried only when the forge list is empty. It is not tried before every configured forge.
- A failing credential create in `PostUser` answers 500, not 409. 409 is only the answer to a failing update in `PatchUser`.
- The body rule of a manual action compares the configured method exactly as written with "GET". A definition whose method is written "get" passes validation and still sends a body.

## Model

| member | source | states |
|---|---|---|
| Session.CurrentUser | server/router/middleware/session/user.go:35-45 | a user comes back exactly when the value under "user" is a user, and it is that user |
| Session.ExtractFromAuthorizationHeader | server/router/middleware/session/user.go:260-276 | non-empty exactly when the header has two white-space separated fields and the first is `bearer` or `token` in any case; the result is then the second field and holds no white space |
| Session.ExtractRoundTrip | server/router/middleware/session/user.go:260-276 | a header built as scheme, white space, credential gives back exactly that credential |
| Session.GetStaticAPIToken | server/router/middleware/session/user.go:253-258 | the Authorization credential wins; `X-Woodpecker-Token` is used only when that credential is empty |
| Session.SearchForges | server/router/middleware/session/user.go:240-250 | a found user comes from the first forge whose lookup succeeds, with every earlier forge answering not-found; a store error at a forge stops the search with all earlier forges not-found; "not found" happens exactly when every forge misses |
| Session.FindAdmin | server/router/middleware/session/user.go:223-251 | a failing forge list is an error; with no forge configured, forge 1 is tried; otherwise the forges are searched in list order |
| Session.FindAdminUserByLogin | server/router/middleware/session/user.go:223-251 | the loop with early returns computes exactly `FindAdmin` |
| Session.AuthenticateAdminToken | server/router/middleware/session/user.go:197-221 | falls through exactly when no admin token is configured or the value differs; a match needs a configured admin login (else an error) and resolves to a user who must be an administrator (else an error) |
| Session.AuthenticateRequestToken | server/router/middleware/session/user.go:185-195 | an empty value falls through; otherwise the admin token decides, so only administrators holding the admin token come out of this path |
| Session.RunResolver | server/router/middleware/session/user.go:51-59 | a secret is returned exactly when the `user-id` claim parses and the store finds that user, and it is that user's hash; the outer user variable is assigned even when the store reports an error; a store error without a record panics on `user.Hash`, exactly then |
| Session.ParseRequest | server/router/middleware/session/user.go:51-60 | success means a user or session token whose claimed user exists and whose signature verifies against that user's hash; the parse panics exactly when the claimed user's lookup fails without a record |
| Session.Decide | server/router/middleware/session/user.go:47-90 | a resolver panic ends the request with nothing bound; a verified token binds its user; a session token failing the CSRF check aborts with 401 before the static path; API tokens are never CSRF-checked; the static path runs only while no user is assigned and the static value is non-empty, binds exactly the user it authenticates and logs exactly the error it reports; a user bound without a token is the administrator the admin token authenticates |
| Session.RequestContext.SetUser | server/router/middleware/session/user.go:47-90 | the context gains the decided user; the abort status is 401 only on a CSRF failure and 500 only on a resolver panic; the next handler runs unless aborted; a static-token error is appended to the log |
| Session.MustAdmin | server/router/middleware/session/user.go:92-106 | 401 exactly without a user, 403 exactly for a non-administrator, continue otherwise |
| Session.MustRepoAdmin | server/router/middleware/session/user.go:108-123 | 401 exactly without a user, 403 exactly without repository admin permission, continue otherwise |
| Session.MustUser | server/router/middleware/session/user.go:125-136 | 401 exactly without a user, continue otherwise |
| Session.MustOrgMember | server/router/middleware/session/user.go:138-183 | 401 without a user, 400 without an organization, the organization's own account and administrators pass, a failing forge or membership service is 500, anyone else passes exactly with the member (or, when `admin`, the admin) flag; otherwise 403 |
| PasswordLogin.ExpiryUnix | server/api/login_password.go:90 | the expiry is the Unix second in which now plus the session lifetime falls |
| PasswordLogin.WholeSeconds | server/api/login_password.go:112 | the lifetime in whole seconds, truncated toward zero |
| PasswordLogin.SessionTokenFor | server/api/login_password.go:91-92 | a session-type token whose only claim `user-id` parses back to the user's id |
| PasswordLogin.PostLoginWithPassword | server/api/login_password.go:48-115 | 400 for a bad payload or an empty trimmed username or empty password; an unknown user, a wrong password and a missing user row all answer 401 "invalid credentials"; store and signing failures answer 500 "internal error"; when every check and the signing succeed the answer is 200 with success true, even if JWT issuance fails; failures set no cookie and leave success false; success sets `user_sess` to the signed session token and answers the JWT, or the session token when JWT issuance fails, with the lifetime in seconds |
| PasswordLogin.SessionTokenResolvesToUser | server/api/login_password.go:90-93 | the minted session token resolves in the identity middleware to the same user and the same signing secret |
| AuthUserModel.Validate | server/model/auth_user.go:38-52 | valid exactly when the user id is non-zero, the username is non-empty, within the length limit and matches the pattern, and the hash is non-empty; login problems are reported before a missing hash |
| Datastore.GetFirst | server/api/users.go:185-193 | a store lookup returns a matching row, fails on a store error, and misses exactly when no row matches |
| Datastore.ReplaceById | server/store/datastore/auth_user.go:29-32 | an update by primary key: the row with that key is overwritten, every other row is kept in place, and nothing changes when no row has the key |
| Datastore.RemoveUser | server/api/users.go:308 | exactly the rows with another id remain |
| Datastore.RemoveFresh | server/api/users.go:235-237 | deleting a user just appended under a fresh id restores the table |
| Datastore.Store.CreateUser | server/api/users.go:224-227 | on success the user is appended under a fresh id; on failure nothing changes |
| Datastore.Store.UpdateUser | server/api/users.go:137-141 | on success the table is the old one updated by the user's id; on failure it is unchanged |
| Datastore.Store.DeleteUser | server/api/users.go:308-311 | on success the table is `RemoveUser` of the old one; on failure it is unchanged |
| Datastore.Store.AuthUserCreate | server/model/auth_user.go:25-32 | succeeds exactly when no error is injected and neither the username nor the user id is taken (the unique columns); the row is appended under a fresh id |
| Datastore.Store.AuthUserUpdate | server/store/datastore/auth_user.go:29-32 | an update by id: with no row holding the id it succeeds and writes nothing; otherwise it succeeds exactly when no error is injected and no other row holds the username or the user id, and the row is overwritten |
| UsersApi.ReplyOf | server/api/users.go:84-88 | a found user is answered as JSON; not-found and other store errors go to the database-error responder, told apart |
| UsersApi.QueryForgeId | server/api/users.go:70-74 | a missing `forge_id` reads as forge 1; a present one is the `ParseInt` of its text (so an empty one does not parse); a parsed id is a 64-bit integer |
| UsersApi.Addressed | server/api/users.go:75-83 | with a valid remote id the user of that forge with that remote id, otherwise the one with that login; a miss exactly when no such user exists |
| UsersApi.GetUser | server/api/users.go:69-89 | 400 exactly when `forge_id` does not parse; otherwise the addressed user, or the store error |
| UsersApi.DeleteUser | server/api/users.go:287-313 | 400 on a bad `forge_id`; the addressed user's row is removed and 204 answered; a lookup or delete error leaves the table unchanged |
| UsersApi.ClampForgeId | server/api/users.go:113-115 | forge ids below 1 become 1, the rest are kept |
| UsersApi.PatchTarget | server/api/users.go:117-129 | the user with the given remote id when one exists; the login lookup is used only when the remote lookup finds nothing; a remote lookup error aborts; after a remote miss, a login lookup error aborts and a user is found exactly when one of that forge has the login |
| UsersApi.Patched | server/api/users.go:131-135 | login, email, avatar and admin come from the input; id, hash and forge fields stay those of the stored user |
| UsersApi.PatchUser | server/api/users.go:103-144 | 400 on a bad body; lookup errors are answered as database errors; a failing update is 409 with the table unchanged; otherwise exactly the target's row is replaced by the patched user; no row is ever added, removed or given another id |
| UsersApi.PostForgeId | server/api/users.go:179-182 | forge id 0 becomes 1, any other is kept |
| UsersApi.Existing | server/api/users.go:184-205 | lookup by login first, then by email only when the login misses and an email is given; after a login miss with an email given, an email lookup error aborts and a user is found exactly when one of that forge has the email; a found user has that login or that email |
| UsersApi.NewUser | server/api/users.go:208-219 | the new account has the trimmed login and email, the avatar and admin flag of the input, the fresh hash, the defaulted forge and remote id "0" |
| UsersApi.SaveCredential | server/api/users.go:231-270 | the credential step branching on the lookup's answer: nothing exactly for an empty password; only a failed update of an existing credential keeps a new user; every other failure calls for rollback |
| UsersApi.SaveCredentialAsWritten | server/api/users.go:241-270 | the step as written: nothing exactly for an empty password; a success leaves as many rows as before, so it never adds a credential, and keeps the rows of other usernames |
| UsersApi.UpdateAsWritten | server/api/users.go:249-256 | the update path can only succeed or fail keeping the user; on success the row count is unchanged and rows of other usernames are kept |
| UsersApi.AsWrittenDropsNewCredential | server/api/users.go:241-270 | as written, a login without a credential row and a password leaves the credential table as it was while the step reports success, whether or not the account has a row under another login; the intended step stores a row for the login, or fails and rolls back when the account already has a row |
| UsersApi.SaveCredentialStores | server/api/users.go:231-270 | a saved credential is keyed by the login, bound to the user and holds the password's hash; rows under other usernames are kept |
| UsersApi.StoreCredential | server/api/users.go:231-270 | the store ends as `SaveCredential` says, with the user table untouched, and reports whether the failure calls for rollback |
| UsersApi.PostUser | server/api/users.go:165-273 | 400 for a bad body, a blank login or an invalid new user; store errors on lookup and a failed create are 500 with nothing changed; an existing user is answered unchanged; a new user is created under a fresh id and deleted again exactly when the credential step asks for rollback |
| ManualActionModel.CheckFields | server/model/manual_action.go:41-64 | each error exactly when every earlier check passes and its own check fails: blank id, blank title, blank URL, unparsable URL, empty method, unsupported method; no error exactly when all pass |
| ManualActionModel.Validate | server/model/manual_action.go:41-64 | valid exactly when id, title and URL are non-blank, the URL parses and the trimmed, upper-cased method is GET, POST, PUT, DELETE or PATCH |
| ManualActionModel.MethodCheckIgnoresCase | server/model/manual_action.go:54-62 | every definition is judged exactly as the same definition with its method already trimmed and upper-cased, so " post " passes as "POST" does |
| ManualActions.FindDefinition | server/api/manual_actions.go:89-96 | the first definition with that id, and none exactly when no definition has it |
| ManualActions.ResolvedValue | server/api/manual_actions.go:105-112 | a field resolves to nothing exactly when neither the supplied value nor the default has text once trimmed; any other result is one of the two, trimmed |
| ManualActions.ResolvedValuePrecedence | server/api/manual_actions.go:105-112 | a non-blank supplied value wins once trimmed; otherwise the trimmed default |
| ManualActions.CallsSound | server/api/manual_actions.go:104-122 | every setter call carries a field's key and its non-empty resolved value |
| ManualActions.CallsComplete | server/api/manual_actions.go:104-122 | every field whose value resolves to something makes its setter call |
| ManualActions.Resolve | server/api/manual_actions.go:104-122 | a resolved section makes exactly the calls of `Calls`, one per field with a value, in field order |
| ManualActions.ResolveMeaning | server/api/manual_actions.go:104-122 | a section resolves exactly when no required field resolves to nothing; otherwise the error names the first such field; the calls made are those of every field with a value, in order |
| ManualActions.ApplySectionValues | server/api/manual_actions.go:104-122 | the loop with its early return computes exactly `Resolve` |
| ManualActions.CapitalizeKeepsTokens | server/api/manual_actions.go:133-135 | header canonicalization keeps token characters and dashes in place |
| ManualActions.CanonicalKeyIdempotent | server/api/manual_actions.go:133-135 | canonicalizing a header name twice is canonicalizing it once |
| ManualActions.SetValues | server/api/manual_actions.go:124-137 | a key is present exactly when it was there or some call set it, and then holds the last value set for it alone |
| ManualActions.SetBody | server/api/manual_actions.go:141-146 | the body holds exactly the keys set, each with its last value |
| ManualActions.Timeout | server/api/manual_actions.go:158-163 | the parsed duration when the text is non-empty and parses, 30 seconds otherwise |
| ManualActions.FinalHeaders | server/api/manual_actions.go:152-154 | Content-Type becomes application/json only when a body is sent and none was set |
| ManualActions.BuildSpec | server/api/manual_actions.go:98-172 | an unparsable URL fails; otherwise a request is built exactly when the query and header sections resolve, and the body section too when a body applies |
| ManualActions.BuiltRequestFields | server/api/manual_actions.go:139-171 | the built request keeps the method and URL and has the parsed timeout; it carries a body exactly when body fields exist, the method is not "GET" and some body value resolved, and that body maps each key to its last value |
| ManualActions.BuildFailsOnMissing | server/api/manual_actions.go:113-116 | a missing value names a required field of the query, the headers or an applicable body that resolves to nothing |
| ManualActions.BuiltQueryAndHeaders | server/api/manual_actions.go:124-137 | the URL's own query parameters survive unless a field sets them; set parameters and headers hold the last value set |
| ManualActions.BuildRequest | server/api/manual_actions.go:98-172 | the step-by-step builder computes exactly `BuildSpec` |
| ManualActions.DecodeSection | server/api/manual_actions.go:237-248 | null clears a section; an object decodes exactly when every member is a string or null, each member landing under its key with its text (null as "") and earlier entries kept unless overwritten, nothing else added; a string or any other non-object value is an error |
| ManualActions.DecodeMember | server/api/manual_actions.go:235-264 | any key other than query, headers and body lands in the body with its text, leaving query and headers alone |
| ManualActions.DecodeMembers | server/api/manual_actions.go:234-265 | only a `query`, `headers` or `body` member can make decoding fail; without one, decoding succeeds and leaves query and headers alone |
| ManualActions.BodyEntryKept | server/api/manual_actions.go:249-264 | a body entry stays while later members neither reuse its key nor touch the body section |
| ManualActions.OtherMembersLandInBody | server/api/manual_actions.go:235-265 | without a `body` member, every member other than query and headers ends up in the body as its string or its printed form |
| ManualActions.DecodePayload | server/api/manual_actions.go:220-268 | an unreadable body fails; an empty or white-space body is the empty trigger; otherwise the members are decoded in order, failing on malformed JSON or a bad section |
| ManualActions.TriggerResponse | server/api/manual_actions.go:200-218 | 400 exactly when no request can be built, 502 exactly when the call fails, otherwise the upstream status and body with success exactly for 2xx |
| ManualActions.TriggerManualAction | server/api/manual_actions.go:55-69 | 404 exactly for an unknown action id; an unreadable or undecodable payload is 400; otherwise 400 exactly when no request can be built from the decoded trigger, 502 exactly when the call fails, else the upstream status and body with success exactly for 2xx |
| ManualActions.TriggerWebhookAction | server/api/manual_actions.go:80-87 | 404 exactly for an unknown id; otherwise 400 exactly when the definition cannot be built from an empty payload; a built request answers 502 exactly when the call fails, and otherwise relays the status and body with success exactly for a 2xx status |
| ManualActions.EmptyPayloadUsesDefaults | server/api/manual_actions.go:80-87 | with an empty payload a section resolves exactly when no required field has a blank default |
| PipelineTabModel.FirstUntyped | server/model/pipeline_tab.go:31-35 | the first component without a type, or none exactly when all have one |
| PipelineTabModel.Validate | server/model/pipeline_tab.go:21-37 | valid exactly when the id and title are non-empty, there is a component and every component has a type; the checks run in that order and the first failure names the error |
| PipelineTabs.VisibleTabsMembers | server/api/pipeline_tabs.go:33-38 | a tab is in the result exactly when it is configured and does not need push access or the caller has it |
| PipelineTabs.VisibleTabsOrdered | server/api/pipeline_tabs.go:32-39 | the result is an order-preserving subsequence of the configured tabs |
| PipelineTabs.PushSeesAll | server/api/pipeline_tabs.go:33-38 | with push access the result is the configured list itself |
| PipelineTabs.FilterTabs | server/api/pipeline_tabs.go:28-40 | no permission gives no result; otherwise the loop computes exactly the visible tabs |
| AuthToken.IsValidJwt | web/src/lib/authToken.ts:3-5 | a token has the right shape exactly when it is present and holds two dots, that is three segments |
| AuthToken.LocalStorage.GetItem | web/src/lib/authToken.ts:9 | reads the stored value, or fails while storage is unavailable |
| AuthToken.LocalStorage.SetItem | web/src/lib/authToken.ts:26 | stores the value, or fails and changes nothing |
| AuthToken.LocalStorage.RemoveItem | web/src/lib/authToken.ts:11 | removes the key, or fails and changes nothing |
| AuthToken.GetSpec | web/src/lib/authToken.ts:7-18 | a returned token is the stored one and well formed; a malformed or missing one is removed; other keys are untouched |
| AuthToken.StoreSpec | web/src/lib/authToken.ts:20-30 | a well-formed token is stored under `woodpecker_jwt`, anything else removes the key, a storage failure changes nothing, other keys are untouched |
| AuthToken.StoreThenGet | web/src/lib/authToken.ts:7-30 | storing then reading gives the token when it is well formed and storage works, null otherwise |
| AuthToken.GetTwice | web/src/lib/authToken.ts:7-18 | a second read returns the same and changes nothing |
| AuthToken.GetStoredAuthToken | web/src/lib/authToken.ts:7-18 | the token returned and the storage left behind are those of `GetSpec` |
| AuthToken.StoreAuthToken | web/src/lib/authToken.ts:20-30 | the storage left behind is that of `StoreSpec` |
| ApiClientModel.EncodeURIComponent | web/src/lib/api/client.ts:25 | the encoding holds only unreserved characters and `%` |
| ApiClientModel.DecodeEncode | web/src/lib/api/client.ts:25 | `decodeURIComponent` (a `%HH` run must be well-formed UTF-8 of a scalar value) gives back every encoded text |
| ApiClientModel.EncodeInjective | web/src/lib/api/client.ts:25 | two texts with the same encoding are the same text |
| ApiClientModel.EncodeUnreserved | web/src/lib/api/client.ts:25 | text of unreserved characters is left as it is |
| ApiClientModel.SortSortedPermutation | web/src/lib/api/client.ts:21-22 | the sorted keys are in ascending code-unit order and are a permutation of the entries |
| ApiClientModel.EncodeQueryString | web/src/lib/api/client.ts:10-28 | no defined value gives ""; otherwise splitting the query on `&` gives back the encoded pair of every defined parameter, in sorted key order |
| ApiClientModel.EncodeQueryStringMeaning | web/src/lib/api/client.ts:10-28 | no defined value gives ""; otherwise splitting on `&` gives back one encoded `key=value` pair per defined parameter, in sorted key order |
| ApiClientModel.QueryKeepsDefined | web/src/lib/api/client.ts:14-19 | a parameter reaches the query exactly when its value is defined |
| ApiClientModel.SingleParameter | web/src/lib/api/client.ts:101-103 | a one-parameter query is the key, `=` and the encoded value |
| ApiClientModel.RequestHeaders | web/src/lib/api/client.ts:50-54 | X-CSRF-TOKEN exactly for non-GET methods with a known CSRF token; `Authorization: Bearer` exactly for a well-formed token; the JSON content type exactly when data is sent |
| ApiClientModel.ErrorMessage | web/src/lib/api/client.ts:58-63 | the status text, followed by ": " and the body exactly when the body is non-empty |
| ApiClientModel.OutcomeOf | web/src/lib/api/client.ts:58-81 | a non-OK reply throws the status and message, after notifying a set error handler; an OK reply is read as JSON exactly when its Content-Type starts with application/json |
| ApiClientModel.ApiClient.constructor | web/src/lib/api/client.ts:39-43 | a token without the token shape is dropped |
| ApiClientModel.ApiClient.SetToken | web/src/lib/api/client.ts:129-131 | the token is kept only when well formed; nothing else changes |
| ApiClientModel.ApiClient.SetErrorHandler | web/src/lib/api/client.ts:125-127 | an error handler is set; nothing else changes |
| ApiClientModel.ApiClient.Request | web/src/lib/api/client.ts:45-82 | the request goes to server plus path with the headers of `RequestHeaders` and the data as body; the outcome is `OutcomeOf` the reply |
| ApiClientModel.ApiClient.SubscribeUrl | web/src/lib/api/client.ts:100-105 | without a token the URL is server plus path; with one, `?access_token=` and the encoded token are appended |
| ScaffoldLayout.RunCounts | web/src/compositions/useScaffoldLayout.ts:16-22 | while releases never outrun requests, the count is the start plus requests minus releases |
| ScaffoldLayout.MountsThenUnmounts | web/src/compositions/useScaffoldLayout.ts:42-45 | n requests followed by n releases restore the count |
| ScaffoldLayout.ReleasesSubtract | web/src/compositions/useScaffoldLayout.ts:20-22 | releases stop at 0 |
| ScaffoldLayout.FluidProvider.constructor | web/src/compositions/useScaffoldLayout.ts:13-14 | the count starts at 0 and the layout is not fluid |
| ScaffoldLayout.FluidProvider.RequestFluid | web/src/compositions/useScaffoldLayout.ts:16-18 | the count goes up by one and the layout is fluid |
| ScaffoldLayout.FluidProvider.ReleaseFluid | web/src/compositions/useScaffoldLayout.ts:20-22 | the count goes down by one but never below 0 |
| ScaffoldLayout.ConsumerSetup | web/src/compositions/useScaffoldLayout.ts:35-45 | a consumer requests once exactly when a provider exists and `fluid` is not false; otherwise the count is unchanged |
| ScaffoldLayout.ConsumerUnmount | web/src/compositions/useScaffoldLayout.ts:43-45 | a registered consumer releases once on unmount |
| UserAddCommand.CheckForm | cli/admin/user/user_add.go:80-88 | a blank login fails with "username is required", then a blank password with "password is required"; otherwise the account has the trimmed login, email and password |
| UserAddCommand.ShownMessage | cli/admin/user/user_add.go:104-110 | the trimmed message, or the status text when it is empty; an XML document becomes "server responded with status N", so the shown message never starts with `<?xml` |
| UserAddCommand.ClientErrorMessage | cli/admin/user/user_add.go:111-115 | 409 or a message mentioning "already exist" or "duplicate" in any case reports the existing account; anything else is "failed to create user: " and the message |
| UserAddCommand.UserAdd | cli/admin/user/user_add.go:80-120 | form errors come before any server call; a client error is mapped; other errors pass through unchanged |
| UserAddCommand.RejectedFormSkipsServer | cli/admin/user/user_add.go:80-90 | a rejected form fails the same way whatever the server would answer |
| UserAddCommand.ConflictStatusReportsExisting | cli/admin/user/user_add.go:111-113 | a 409 reply always reports the existing account |

## Findings

| source | as written | input that shows it | evidently intended | confidence | as-written member | corrected member |
|---|---|---|---|---|---|---|
| server/api/users.go:241-270 | the handler picks the update path when `existingAuth` is non-nil, but `AuthUserFindByUsername` (server/store/datastore/auth_user.go:19-22) returns its record reference even together with the not-found error, so a login without a credential "updates" an empty record with id 0, which matches no row | `PostUser` with a login no credential row holds and a non-empty password (the account may hold a row under an older login) | create a credential row when the lookup reports not-found | medium: not executed; rests on the not-found error being returned next to the empty record, as the datastore code returns the reference unconditionally | UsersApi.AsWrittenDropsNewCredential | UsersApi.SaveCredentialStores |

`UsersApi.SaveCredentialAsWritten` is the step as written. `UsersApi.SaveCredential`, on which `StoreCredential` and `PostUser` rest, branches on the lookup's answer instead.

## Left out

- The token library (`ParseRequest`, `SignExpires`, `CheckCsrf`) is modelled only through its answers: whether the resolver ran, the verification verdict for a secret, the CSRF verdict, and the signed text. No wire format or signature scheme is modelled.
- bcrypt, the constant-time comparison (modelled as equality) and the random per-user hash are inputs; JWT issuance is a function that may fail.
- `maxLoginLen`, `reUsername`, `ForgeRemoteID.IsValid`, `User.Validate`, `handleDBError` and `http.StatusText` are not part of this model. They are parameters, and `handleDBError` is represented by the reply it is handed.
- The user lookups of the user handlers are taken to answer no user on not-found, which is what `PatchUser`'s `user == nil` test expects. `GetUser` as called by the identity middleware may answer a record or none beside its error; both are modelled.
- PasswordLogin.WholeSeconds: truncates the nanosecond count exactly, where Go's `int64(d.Seconds())` goes through a float64. For lifetimes of 2^24 seconds (about 194 days) or more, a remainder within about a nanosecond of the next second rounds up there; the model does not capture that rounding.
- The store is an in-memory model. The datastore code for users is not part of this model. Uniqueness of the credential's username and user id is the database's unique constraint, assumed by the store. Record timestamps are 0.
- URL parsing, query encoding of the server-side URL, JSON marshalling and unmarshalling, and `time.ParseDuration` are parameters or values. The built request keeps the configured URL and the query map instead of the re-encoded URL text.
- The order in which Go visits the members of the trigger payload is random; the model takes it as a parameter.
- `GetManualActions`, `executeManualActionRequest`, `GetPipelineTabs`, `fetch`, `EventSource` and its event handlers, the reports component, the `huh` form, the CLI client construction and its success printout are I/O or framework glue and are not modelled. The `_get`, `_post`, `_patch` and `_delete` wrappers only pick the method for `Request`.
- ApiClientModel.KeyBefore: compares Unicode scalar values, where JavaScript compares UTF-16 code units. The two orders differ only between characters above U+FFFF and characters in U+E000 to U+FFFF.
- ApiClientModel.ApiClient.Request: the data is given as its JSON text; `JSON.stringify` itself is not modelled.
- AuthToken.LocalStorage: one availability flag decides whether every storage call throws. A storage that fails for one call and not another is not modelled.
- Text.ToLower and Text.ToUpper: cover ASCII and the non-ASCII letters whose case image is ASCII. This is exact for the comparisons the model makes against ASCII words, but not a full Unicode case mapping.
- A panic in the identity middleware (the resolver reading the hash of a nil user) is recorded as the 500 abort that gin's recovery middleware answers with; the recovery middleware itself is not part of this model.
- Concurrency (the one-time JWT configuration, concurrent user creation) is not modelled.
