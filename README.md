# tasker_api, modelled in Dafny

tasker_api is a small task manager written in Go. It has two deployments:

- **Split services.**
  - An authentication gateway (`AuthHandler`) forwards registration and login to the identity service over gRPC and mints JWTs.
  - The identity service (`UserService`, `UserAuthServer`, `UserServiceServer`, and its own bearer middleware) owns the user table and answers `GetUser(id) -> Exists`.
  - The task service (`TaskService`, `TaskHandler`, and a bearer middleware that asks the identity service about the token's subject) owns the task table and scopes every write by the pair (task id, owner id).
- **A single binary.** `main.go` holds plaintext users and tasks in one database, with its own middleware and routes.

This project models the session-validation path and the ownership-scoped task operations of both deployments. Each source file becomes one Dafny module:

| module | models |
|---|---|
| `Strconv` | `strconv.ParseUint` (base 10, 64 bits), `strconv.Itoa` and the `int(uint)` conversion |
| `Storage` | the GORM errors and the `Where(...).Find` scan |
| `Rpc` | what a gRPC client gets back |
| `Jwt` | `jwt.Parse` with an HMAC-only key callback, `parseToken`, minting, and the `Bearer ` prefix helpers |
| `Gin` | the request context, with its replies, abort flag and stored `"userID"` |
| `Tasks` | `TaskService` |
| `Users` | `UserService` |
| `UserAuth` | `UserAuthServer` |
| `UserRpc` | `UserServiceServer.GetUser` |
| `TaskMiddleware` | the task service's `AuthMiddleware` |
| `UserMiddleware` | the identity service's `AuthMiddleware` |
| `TaskHandler` | `TaskHandler` |
| `AuthHandler` | the gateway's `AuthHandler` |
| `Monolith` | `main.go` |

Objects whose fields change are classes with `modifies` frames: the two services and the monolith's database, each with a `Valid()` invariant, and the gin context, whose methods state each field's new value. The decision logic is also stated as pure functions (`Authenticate`, `ParseToken`, `CreateUserError`, `Deleted`, `EditedTable`, ...). Lemmas about those functions state what the code guarantees and where it diverges from its evident intent.

The code's own choices are modelled as written, and lemmas exhibit them:
- `UpdateTask` installs a new deadline only when that deadline is already in the past.
- The task middleware rejects a subject only when the RPC fails; `Exists = false` is admitted.
- The task handler takes the subject from the client's `userID` header and overwrites what the middleware stored.
- `Login` compares the stored bcrypt hash with the plain password.
- `LoginWithGoogle` never creates a user.
- The monolith's middleware answers a token that fails to parse without aborting, so the handler still runs.

In four of these the code departs from what its own structure evidently intends: the deadline check in `UpdateTask` is the reverse of the one in `CreateTask`; the task middleware asks the identity service whether the subject exists and then ignores the answer; the split middlewares answer every token failure with 401 while the monolith's mixes 400s, aborting and non-aborting 401s; and the task middleware authenticates a subject that the handler then replaces with the client's header. The model follows the code in each.

Collaborators the model cannot see are parameters:
- `decode: string -> Decoded` is the JWT library reading a token string with the configured secret and the current time.
- `getUser` / `userClient: string -> OracleReply` is the identity RPC.
- `hash: string -> Option<string>` is bcrypt; `None` is its refusal.
- `register` / `login` are the gateway's RPC clients.
- `now: int` is `time.Now()` in seconds.

A store's `fault` / `readFault` / `writeFault` field stands for a database that fails statements.

## Model

| member | source | states |
|---|---|---|
| Strconv.ParseUint | task/internal/handler/task_handler.go:131-136 | `ParseUint(s)` succeeds exactly when `s` is a non-empty string of decimal digits whose value fits in 64 bits, and then yields that value; a string starting with a non-digit is a syntax error |
| Strconv.Scan | user/transport/user_service.go:24-27 | the left-to-right scan accepts exactly the all-digit suffixes whose accumulated value stays within `MAX_UINT64`, returning that value |
| Strconv.ToInt | app/task/internal/middleware/middleware.go:36 | `int(uint)` is the identity below 2^63 and negative from 2^63 on |
| Strconv.DecimalValue | app/task/internal/middleware/middleware.go:36 | `Itoa` of a natural number is all digits and reads back as that number |
| Strconv.ValueAppend | user/transport/user_service.go:24 | appending a digit multiplies the decimal value by ten and adds the digit |
| Strconv.OverflowIsRange | task/internal/handler/task_handler.go:30-32 | an all-digit string whose value exceeds `MAX_UINT64` is a range error, whatever its length |
| Strconv.ItoaParseRoundTrip | user/transport/user_service.go:24-28 | `ParseUint(Itoa(int(id)))` returns `id` for every id below 2^63, and is a syntax error (the minus sign) for every larger id |
| Storage.Where | task/internal/service/task_service.go:18-24 | the scan returns every row the filter accepts and nothing else, one element per matching key |
| Jwt.LibraryParse | app/task/internal/middleware/middleware.go:49-57 | a non-HMAC token is refused with the key callback's error; the parse yields a token exactly when the token is readable, HMAC-signed and accepted, and then carries its valid flag and claims |
| Jwt.ParseToken | app/task/internal/middleware/middleware.go:48-73 | `parseToken` succeeds exactly for a readable HMAC token that the library accepted as valid, whose claims are a map with a numeric `user_id`, and returns that id; a non-HMAC token fails with "unexpected signing method" |
| Jwt.ParseTokenClaimFailures | user/middleware/middleware.go:61-73 | after the library accepts a token, the failures come in order: "invalid token", then "invalid token claims", then "user_id missing or not a number" |
| Jwt.MintedTokenParses | auth/internal/handler/auth_handler.go:119-127 | a token minted with HS256 and a `user_id` claim passes `parseToken` with that id when read no later than its `exp`, and fails with the library's "Token is expired" after it |
| Jwt.TrimPrefix | app/task/internal/middleware/middleware.go:28 | `TrimPrefix` removes exactly one leading copy of the prefix when there is one, and otherwise returns the string unchanged |
| Tasks.TaskService.constructor | task/internal/service/task_service.go:14-16 | a new service has an empty table and a working store |
| Tasks.TaskService.GetTaskByUser | task/internal/service/task_service.go:18-24 | a store fault is returned as the error; otherwise the listing holds exactly the owner's rows, one per row |
| Tasks.TaskService.CreateTask | task/internal/service/task_service.go:26-37 | an empty title fails with "empty title", then a deadline strictly before now fails with "deadline cannot be in the past", then a store fault; on success the stored row is the input with the next id, creation time now and `IsReady` false, and nothing else changes |
| Tasks.TaskService.DeleteTask | task/internal/service/task_service.go:39-48 | on a store fault, the error and no change; otherwise it removes the row only if it has that id and that owner, and reports "task not found or does not belong to user" when no row matched |
| Tasks.TaskService.UpdateTask | task/internal/service/task_service.go:50-68 | a store fault, or no row with that id and owner (`record not found`), leaves the table unchanged; otherwise only that row is replaced by its edited form |
| Tasks.TaskService.UpdateStateTask | task/internal/service/task_service.go:70-80 | same scope as `UpdateTask`; only the ready flag of the owned row changes |
| Tasks.ListingIsolation | task/internal/service/task_service.go:18-80 | one subject's listing is unchanged by another subject's create, delete, edit and state write |
| Tasks.DeleteTouchesOnlyOwnedRow | task/internal/service/task_service.go:40-46 | the table shrinks by one exactly when the owned row exists; every other row, and every row of another owner, is kept unchanged |
| Tasks.EditIsPartial | task/internal/service/task_service.go:57-62 | an edit keeps id, owner, creation time and ready flag; an empty title or description keeps the stored value and a non-empty one replaces it |
| Tasks.UpdateDeadlineIsInverted | task/internal/service/task_service.go:63-65 | `UpdateTask` stores a new deadline exactly when `CreateTask` would refuse it (strictly before now); a future deadline is dropped |
| Tasks.WritesKeepOwnership | task/internal/service/task_service.go:50-80 | neither update changes the key set, any id or any owner; the state write changes nothing but the one flag |
| Tasks.ReadySetIdempotent | task/internal/service/task_service.go:70-80 | setting the ready flag twice to the same value equals setting it once |
| Tasks.CrossOwnerIsolation | task/internal/service/task_service.go:39-80 | a row owned by one subject is untouched by another subject's delete, update and state write |
| Users.UserNamed | user/internal/service/user_service.go:108-114 | with ids as keys and unique usernames, the row holding a taken username is unique |
| Users.UserService.constructor | user/internal/service/user_service.go:14-16 | a new service has an empty user table |
| Users.UserService.GetUserByID | user/internal/service/user_service.go:31-37 | a fault is returned as the error; otherwise the row with that id, or `record not found` |
| Users.UserService.CheckByID | user/internal/service/user_service.go:39-48 | answers without error exactly when the store works, and the answer is whether the id exists; every store failure becomes "database error" |
| Users.UserService.GetUserByUsername | user/internal/service/user_service.go:108-114 | returns the single row carrying that username, `record not found` when there is none, or the store fault |
| Users.UserService.CreateUser | user/internal/service/user_service.go:50-76 | fails exactly when the first failing check (empty username, empty password, store error, username taken, hash refusal) says so, with that text; on success the user is stored under a fresh id with the hashed password, and names stay unique |
| Users.UserService.DeleteUser | user/internal/service/user_service.go:78-87 | removes the row with that id, or reports "user not found" when there is none, or returns the store fault; nothing else changes |
| Users.UserService.UpdateUser | user/internal/service/user_service.go:89-107 | the error is the first failing check (store, missing row, hash refusal, a name held by another row); on success only that row changes, to its non-empty fields with the password hashed |
| Users.CreateUserCheckOrder | user/internal/service/user_service.go:51-63 | an empty username is reported before anything else, and an empty password before any lookup; a taken name always fails |
| Users.InsertKeepsNamesUnique | user/internal/service/user_service.go:58-71 | inserting a user under an untaken name keeps usernames unique |
| UserAuth.Register | user/transport/user_auth.go:23-42 | the RPC reports exactly `CreateUser`'s outcome: its error text with `Success = false`, or the new id with the hashed password stored |
| UserAuth.Login | user/transport/user_auth.go:44-71 | a store fault or an unknown name fails; otherwise login succeeds exactly when the STORED (hashed) password equals the request's plain password |
| UserAuth.LoginWithGoogle | user/transport/user_auth.go:73-105 | logs in an existing user whose username is the e-mail; for a new e-mail the user table is unchanged and the reply is `CreateUser`'s refusal of an empty password |
| UserAuth.RegisterThenLogin | user/transport/user_auth.go:23-71 | after a successful registration, logging in with the same password succeeds only if the hasher maps the password to itself, and then returns the registered id |
| UserRpc.GetUser | user/transport/user_service.go:23-38 | the reply is the parse error for a malformed id, "database error" on a store failure, and otherwise whether the id exists |
| UserRpc.MalformedIdIsError | user/transport/user_service.go:24-27 | an id string that is not a decimal `uint64`, the empty string included, is answered with an error and no lookup |
| UserRpc.OracleReportsExistence | user/transport/user_service.go:23-38 | asked with `Itoa(int(id))`, the oracle reports exactly whether the user exists when the store works and `id < 2^63`, and fails otherwise |
| TaskMiddleware.AuthMiddleware | app/task/internal/middleware/middleware.go:14-46 | the context ends up with the reply, abort flag and stored subject of the decision for its `Authorization` header, and the oracle is asked only as that decision says |
| TaskMiddleware.RejectionsAbort | app/task/internal/middleware/middleware.go:17-41 | every rejection is a 401 that aborts; a missing or non-bearer header asks the oracle nothing |
| TaskMiddleware.BadTokenRejectedWithoutQuery | app/task/internal/middleware/middleware.go:28-33 | a token that fails `parseToken` is refused with its error text and no oracle call |
| TaskMiddleware.AbsentUserIsAdmitted | app/task/internal/middleware/middleware.go:35-43 | for a valid token, only a failed RPC rejects ("user not found"); an answer of `Exists = false` admits the token's subject |
| TaskMiddleware.AdmissionShape | app/task/internal/middleware/middleware.go:14-46 | an admitted request carried a bearer token that parses to the subject, and made exactly one oracle call, about that subject |
| TaskMiddleware.DeletedSubjectAdmitted | app/task/internal/middleware/middleware.go:35-43 | against the identity service, a valid token for a deleted user is admitted whenever the id is below 2^63; from 2^63 on it is always refused |
| UserMiddleware.AuthMiddleware | user/middleware/middleware.go:24-48 | the context ends up with the reply, abort flag and stored subject of the decision for its `Authorization` header |
| UserMiddleware.Outcomes | user/middleware/middleware.go:24-48 | a missing header is a 400; a bearer token that fails `parseToken` is a 401 carrying its text; one that parses is admitted as its subject |
| UserMiddleware.NonBearerRefused | user/middleware/middleware.go:31-35 | every non-empty header without the bearer prefix is a 400 before the token is read |
| TaskHandler.HeaderSubject | task/internal/handler/task_handler.go:30-32 | the parse error is dropped: an empty header or one starting with a non-digit gives 0, an all-digit header gives its value when it fits in 64 bits and `MAX_UINT64` when it does not, and any other header gives 0 or `MAX_UINT64` |
| TaskHandler.TaskHandler.constructor | task/internal/handler/task_handler.go:20-25 | the handler keeps the service and the identity client it is given |
| TaskHandler.TaskHandler.ValidateUser | task/internal/handler/task_handler.go:27-57 | stores the header's subject in the context whatever was there, asks the oracle once about `Itoa(int(subject))`, and passes exactly when the oracle answers `Exists = true`; otherwise 400 "user not found" |
| TaskHandler.TaskHandler.GetTasks | task/internal/handler/task_handler.go:59-72 | stores the header subject and asks the oracle once; lists exactly the confirmed subject's rows with 200; an unconfirmed subject gets 400 "user not found" and a store fault 500 with its text, both listing nothing; the abort flag and the store are untouched |
| TaskHandler.TaskHandler.AddTask | task/internal/handler/task_handler.go:74-94 | a bind error is a 400 with no oracle call and no change to the context's subject; for a confirmed header subject the reply is `CreateTask`'s error as a 400 (empty title, past deadline, store fault) or 200 with the row stored under the next id, owned by that subject whatever owner the body named, created now and not ready; nothing is stored otherwise |
| TaskHandler.TaskHandler.DeleteTask | task/internal/handler/task_handler.go:96-117 | a bind error is a 400 with no oracle call; for a confirmed header subject the table becomes the service's scoped delete, answered 200 with the echoed id when the subject owned the row and 400 "task not found or does not belong to user" otherwise; a store fault is a 400 with its text and no change; the id sequence, the fault and the abort flag are untouched |
| TaskHandler.TaskHandler.UpdateTask | task/internal/handler/task_handler.go:119-149 | a bind error or a path id that is not a decimal `uint64` is a 400 before the oracle is asked, leaving the context's subject as it was; for a confirmed subject the table becomes the service's scoped edit, answered 200 when the subject owns the row and 400 "record not found" otherwise; a store fault is a 400 with its text and no change |
| TaskHandler.TaskHandler.UpdateStateTask | task/internal/handler/task_handler.go:151-179 | same order of checks and the same fault and early-return cases as `UpdateTask`; for a confirmed subject only the owned row's ready flag changes, answered 200, and a row the subject does not own is a 400 "record not found" |
| TaskHandler.MalformedHeaderRefused | task/internal/handler/task_handler.go:30-54 | against the identity service, an empty, non-decimal or out-of-range `userID` header never passes `validateUser` |
| TaskHandler.HeaderImpersonation | task/internal/handler/task_handler.go:30-56 | a client that writes any existing user's id (below 2^63) into the `userID` header passes `validateUser` as that user |
| AuthHandler.RegisterReply | auth/internal/handler/auth_handler.go:31-71 | a bind error, empty fields, or differing passwords are 400s in that order; 200 exactly when the checks pass and the RPC reports success, carrying the id the RPC returned; a transport error is 500 and a refusal 400 with the RPC's text |
| AuthHandler.LoginReply | auth/internal/handler/auth_handler.go:73-117 | a token is issued exactly when both fields are filled and the RPC reports success, for the reported id with expiry now + 72 h; a transport error is 500 "internal error: ..." and a refusal 401 with the RPC's text |
| AuthHandler.GenerateJwt | auth/internal/handler/auth_handler.go:119-127 | the token is HS256 with the given `user_id` and `exp` 259200 seconds after now |
| AuthHandler.AuthHandler.constructor | auth/internal/handler/auth_handler.go:27-29 | the handler keeps the RPC clients it is given |
| AuthHandler.AuthHandler.Register | auth/internal/handler/auth_handler.go:31-71 | answers `RegisterReply`, whose 200 carries the registered id, and calls the RPC once, only for a body that passed the checks |
| AuthHandler.AuthHandler.Login | auth/internal/handler/auth_handler.go:73-117 | answers `LoginReply`, whose 200 carries the reported id, returns the issued token, and calls the RPC once, only when both fields are filled |
| AuthHandler.IssuedTokenAdmitted | auth/internal/handler/auth_handler.go:105-115 | a token the gateway issues is admitted by the identity service's middleware as the id the login RPC reported when read within its 72 hours, and refused with 401 "Token is expired" after them |
| Monolith.CreateToken | main.go:58-68 | the token is HS256 with the given `user_id` and `exp` 86400 seconds after now |
| Monolith.Deleted | main.go:274 | the scoped delete removes at most the requested row, removes it exactly when the caller owns it, keeps every other row unchanged and keeps every row of another owner |
| Monolith.DeleteReply | main.go:280-289 | the reply is 200 with the echoed id exactly when the caller owned the row, and 404 "Task not found or does not belong to user" otherwise |
| Monolith.ForeignDeleteRefused | main.go:274-284 | another subject's `deleteTask` on a row leaves the table, and that row, unchanged, and is answered 404 |
| Monolith.Authenticate | main.go:70-132 | an empty header is a 400 "Authorization header required" and any other header that is not "Bearer " followed by something is a 400 "Authorization header must be bearer", both aborting; only a header strictly longer than "Bearer " and starting with it can be admitted; every rejection that does not abort is a 401 |
| Monolith.PassThroughRejections | main.go:100-112 | the rejections that do not abort are exactly tokens the library fails to parse ("failed to parse token: ...") or marks invalid |
| Monolith.ForeignAlgorithmNotAborted | main.go:93-105 | a token signed with a non-HMAC method is refused with "key is invalid" without aborting |
| Monolith.BareBearerRefused | main.go:83-89 | the header "Bearer " with nothing after it is a 400 malformed header |
| Monolith.CreatedTokenAdmitted | main.go:58-132 | a token this server mints is admitted as its subject when read within its 24 hours, and after them answered 401 "failed to parse token: Token is expired" without aborting |
| Monolith.SoleHolder | main.go:147 | with unique usernames at most one row holds a pair of credentials |
| Monolith.RegisteredUserLogsIn | main.go:138-206 | after `register` stores a fresh name, `login` with the same pair finds exactly that row |
| Monolith.Db.constructor | main.go:41-56 | a new database is empty and valid |
| Monolith.Login | main.go:138-165 | a token is issued exactly when the store reads and some row holds both the username and the plaintext password; that row is unique, is the token's subject, and its id is in the 200 reply; otherwise 401 "Invalid username or password" |
| Monolith.Register | main.go:167-206 | a taken name is 400 "Username taken", a read fault 500 "Database error", a write failure 500 "Failed to create user"; otherwise the pair is stored as sent under a fresh id, which the 200 reply carries, and names stay unique |
| Monolith.GetTasks | main.go:208-222 | without a stored subject 500 "UserID not found in context"; a read fault 500; otherwise exactly the subject's rows |
| Monolith.AddTask | main.go:224-250 | empty title and past deadline are 400s; without a stored subject the handler panics and the recovery answers 500 with no body; a stored task gets the next id, now as creation time and the stored subject as owner |
| Monolith.DeleteTask | main.go:252-290 | without a stored subject 401; a write fault 500; otherwise the scoped delete, answered by `DeleteReply`: 200 with the echoed id when a row went and 404 "Task not found or does not belong to user" when none matched |
| Monolith.AuthMiddleware | main.go:70-132 | the context ends up with the reply, abort flag and stored subject of `Authenticate` for its header |
| Monolith.ServeGetTasks | main.go:70-222 | a refused token lists nothing; a non-aborting refusal is followed by the handler's 500 "UserID not found in context" |
| Monolith.ServeAddTask | main.go:70-250 | a refused token never stores a row; a non-aborting refusal of an acceptable body is followed by the recovered panic's 500 |
| Monolith.ServeDeleteTask | main.go:70-290 | a refused token never deletes a row; a non-aborting refusal is followed by the handler's 401 "User ID not found in context" |

## Left out

- The JWT library internals (base64, JSON, HMAC, `exp` validation) are behind `decode`. The `user_id` claim arrives as a number or not. The conversion of a JSON `float64` to `uint` (`uint(userIDFloat)`) is not modelled: a numeric claim is taken to be an exact unsigned id.
- `SignedString` failing ("failed to generate token"): with an HS256 method and a `[]byte` secret it does not fail, so that branch is absent.
- `sign` (token to string) is a parameter of the round-trip lemmas; it is not defined.
- bcrypt: `hash` is an arbitrary function and its salt randomness is not modelled. `comparePassword` in user/internal/service/user_service.go is not part of this model, since nothing calls it.
- GORM: ids come from a per-table sequence. A client-chosen primary key or `created_at` in a bound task body is ignored. `Save` of a row loaded in the same call is taken to succeed when the load did. A store is either working or failing as a whole; the monolith separates failing reads from failing writes.
- gin binding (`ShouldBindJSON`, `binding:"required"`) is the caller's work: each handler receives the bound body or the binder's error text. A zero id or a false `is_ready` refused by `required` is one such error text.
- gin's "headers already written" behaviour: a second reply on the same context is recorded as one more element of `replies`.
- gRPC plumbing, timeouts and the `cmd/*/main.go` wiring are not modelled. A transport error is a `TransportError` / `RpcFailed` value.
- The Google OAuth flow (auth_handler_google.go) and the HTTP user handler (user/internal/handler/user_handler.go) are not part of this model.
- Concurrency: every operation runs alone. Two concurrent registrations of one name, which the unique index would catch, are not modelled.
- `home` in main.go answers 200 with an empty string and has no logic to prove.
- Monolith: a `bigserial` key is taken to end at 2^63 - 1; an insert beyond it fails like any write failure.
- TaskHandler.TaskHandler.ValidateUser: the source's "userID missing" and "invalid userID" replies are not modelled as branches, because the value just stored under "userID" is always present and a `uint`.
- Reply bodies: a login's 200 body carries the token string, and a created task's 200 body carries the task. `Body` records the message and id only, and the handlers return the minted token or stored task beside the reply.
