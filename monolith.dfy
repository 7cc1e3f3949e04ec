/**
 * The single-binary server: plaintext users and tasks in one database,
 * its own bearer middleware, and the `login`, `register`, `getTasks`,
 * `addTask` and `deleteTask` routes. The middleware answers a token that
 * fails to parse, or that is not valid, WITHOUT aborting, so the handler
 * still runs, with no "userID" in the context.
 */
module Monolith {
  import opened Wrappers
  import opened Strconv
  import opened Storage
  import opened Jwt
  import opened Gin
  import Tasks

  /** A row of `users`; the password is kept as sent. */
  datatype User = User(id: Uint, username: string, password: string)

  /** A row of `tasks`. */
  datatype Task = Task(id: Uint, title: string, description: string, deadline: Option<int>, userId: Uint, createdAt: int)

  /** A `bigserial` key ends at 2^63 - 1: an insert with the sequence at this value fails. */
  const SequenceEnd: nat := INT64_LIMIT

  /** The filter of `Where("username = ?", username)`. */
  function NamedAs(username: string): User -> bool
  {
    (u: User) => u.username == username
  }

  /** The filter of `Where("username = ? AND password = ?", username, password)`. */
  function Holding(username: string, password: string): User -> bool
  {
    (u: User) => u.username == username && u.password == password
  }

  /** The filter of `Where("user_id = ?", userId)`. */
  function OwnedBy(userId: Uint): Task -> bool
  {
    (t: Task) => t.userId == userId
  }

  /** Some row carries this username. */
  predicate NameTaken(users: map<nat, User>, username: string)
  {
    exists k :: k in users && users[k].username == username
  }

  /** No two rows share a username (the `unique` column constraint). */
  predicate UniqueNames(users: map<nat, User>)
  {
    forall a, b :: a in users && b in users && users[a].username == users[b].username ==> a == b
  }

  /** The ids whose row holds exactly these credentials. */
  function Credited(users: map<nat, User>, username: string, password: string): set<nat>
  {
    Matching(users, Holding(username, password))
  }

  /** `createToken`: HS256, the subject, and an expiry 24 hours after `now`. */
  function CreateToken(userId: Uint, now: int): (t: Minted)
    ensures t.alg == HS256 && t.userId == userId && t.exp == now + 86400
  {
    Issue(userId, now, 24 * HOUR)
  }

  /**
   * The table after `deleteTask`'s delete scoped by id and owner: only the
   * requested row can go, only when the caller owns it, and every row
   * that stays is untouched.
   */
  function Deleted(tasks: map<nat, Task>, taskId: nat, userId: Uint): (r: map<nat, Task>)
    ensures r.Keys <= tasks.Keys && tasks.Keys - r.Keys <= {taskId}
    ensures taskId !in r <==> taskId !in tasks || tasks[taskId].userId == userId
    ensures forall k :: k in r ==> r[k] == tasks[k]
    ensures forall k :: k in tasks && tasks[k].userId != userId ==> k in r
  {
    if taskId in tasks && tasks[taskId].userId == userId then tasks - {taskId} else tasks
  }

  const HeaderRequired: string := "Authorization header required"
  const MustBeBearer: string := "Authorization header must be bearer"
  /** The text of `jwt.ErrInvalidKey`, which the key callback returns for a non-HMAC token. */
  const KeyInvalid: string := "key is invalid"
  const BadCredentials: string := "Invalid username or password"
  const NoUserInContext: string := "UserID not found in context"
  const NoUserIdInContext: string := "User ID not found in context"
  const TaskNotFound: string := "Task not found or does not belong to user"

  /** What `deleteTask` answers once the scoped delete has run: the echoed id, or 404 when no row was affected. */
  function DeleteReply(tasks: map<nat, Task>, taskId: nat, userId: Uint): (r: Reply)
    ensures r.status == StatusOK <==> taskId in tasks && tasks[taskId].userId == userId
    ensures r.status == StatusOK ==> r.body == OkWithId("Task deleted successfully", taskId)
    ensures r.status != StatusOK ==> r == Reply(StatusNotFound, ErrorJson(TaskNotFound))
  {
    if taskId in tasks && tasks[taskId].userId == userId then Reply(StatusOK, OkWithId("Task deleted successfully", taskId))
    else Reply(StatusNotFound, ErrorJson(TaskNotFound))
  }

  /** Another subject's `deleteTask` on a row leaves the row where it is and is answered 404. */
  lemma ForeignDeleteRefused(tasks: map<nat, Task>, taskId: nat, other: Uint)
    requires taskId in tasks && tasks[taskId].userId != other
    ensures taskId in Deleted(tasks, taskId, other) && Deleted(tasks, taskId, other)[taskId] == tasks[taskId]
    ensures Deleted(tasks, taskId, other) == tasks
    ensures DeleteReply(tasks, taskId, other) == Reply(StatusNotFound, ErrorJson(TaskNotFound))
  {
    assert Deleted(tasks, taskId, other).Keys == tasks.Keys;
  }

  /**
   * `authMiddleware`. The header must be strictly longer than "Bearer ";
   * parse failures and invalid tokens are answered but do not abort.
   */
  function Authenticate(header: string, decode: string -> Decoded): (v: Verdict)
    ensures header == "" ==> v == Reject(StatusBadRequest, HeaderRequired, true)
    ensures header != "" && !(HasPrefix(header, BearerPrefix) && |header| > |BearerPrefix|) ==>
      v == Reject(StatusBadRequest, MustBeBearer, true)
    ensures v.Admit? ==> HasPrefix(header, BearerPrefix) && |header| > |BearerPrefix|
    ensures v.Reject? && !v.abort ==> v.status == StatusUnauthorized
  {
    if header == "" then Reject(StatusBadRequest, HeaderRequired, true)
    else if |BearerPrefix| >= |header| || header[..|BearerPrefix|] != BearerPrefix then Reject(StatusBadRequest, MustBeBearer, true)
    else
      match LibraryParse(decode(header[|BearerPrefix|..]), KeyInvalid)
      case ParseError(m) => Reject(StatusUnauthorized, "failed to parse token: " + m, false)
      case Token(valid, claims) =>
        if !valid then Reject(StatusUnauthorized, "invalid token", false)
        else
          match claims
          case OtherClaims => Reject(StatusUnauthorized, "Invalid token claims", true)
          case MapClaims(userId) =>
            match userId
            case Number(id) => Admit(id)
            case _ => Reject(StatusUnauthorized, "Invalid user_id in token", true)
  }

  /**
   * Which tokens the middleware turns away without aborting: exactly those
   * the library could not parse or did not mark valid.
   */
  lemma {:induction false} PassThroughRejections(token: string, decode: string -> Decoded)
    requires token != ""
    ensures var v := Authenticate(BearerPrefix + token, decode);
      v.Reject? && !v.abort <==>
        LibraryParse(decode(token), KeyInvalid).ParseError? || !LibraryParse(decode(token), KeyInvalid).valid
    ensures LibraryParse(decode(token), KeyInvalid).ParseError? ==>
      Authenticate(BearerPrefix + token, decode)
      == Reject(StatusUnauthorized, "failed to parse token: " + LibraryParse(decode(token), KeyInvalid).message, false)
  {
    var h := BearerPrefix + token;
    assert h[..|BearerPrefix|] == BearerPrefix;
    assert h[|BearerPrefix|..] == token;
  }

  /** A token signed with any method outside HMAC is a parse failure with the key error, and is not aborted. */
  lemma {:induction false} ForeignAlgorithmNotAborted(token: string, decode: string -> Decoded)
    requires token != "" && decode(token).Readable? && !IsHmac(decode(token).alg)
    ensures Authenticate(BearerPrefix + token, decode) == Reject(StatusUnauthorized, "failed to parse token: " + KeyInvalid, false)
  {
    PassThroughRejections(token, decode);
  }

  /** "Bearer " with nothing after it is a malformed header here, not an empty token. */
  lemma BareBearerRefused(decode: string -> Decoded)
    ensures Authenticate(BearerPrefix, decode) == Reject(StatusBadRequest, MustBeBearer, true)
  {
  }

  /**
   * A token this server mints is admitted as its subject when it is read
   * within its 24 hours, and answered 401 as expired, without aborting,
   * after them.
   */
  lemma {:induction false} CreatedTokenAdmitted(decode: string -> Decoded, sign: Minted -> string, readAt: int, userId: Uint, now: int)
    requires ReadsBack(decode, sign, readAt) && sign(CreateToken(userId, now)) != ""
    ensures readAt <= now + 86400 ==> Authenticate(BearerPrefix + sign(CreateToken(userId, now)), decode) == Admit(userId)
    ensures readAt > now + 86400 ==>
      Authenticate(BearerPrefix + sign(CreateToken(userId, now)), decode)
      == Reject(StatusUnauthorized, "failed to parse token: " + TokenExpired, false)
  {
    var t := CreateToken(userId, now);
    var token := sign(t);
    assert decode(token) == Readable(t.alg, if readAt <= t.exp then Accepted(true, MapClaims(Number(userId))) else Rejected(TokenExpired));
    var h := BearerPrefix + token;
    assert h[..|BearerPrefix|] == BearerPrefix;
    assert h[|BearerPrefix|..] == token;
  }

  /** With unique usernames, at most one row holds a given pair of credentials. */
  lemma SoleHolder(users: map<nat, User>, username: string, password: string, k: nat)
    requires UniqueNames(users) && k in Credited(users, username, password)
    ensures Credited(users, username, password) == {k}
  {
  }

  /** After `register` inserts a fresh name, `login` with the same pair finds exactly that row. */
  lemma RegisteredUserLogsIn(users: map<nat, User>, id: Uint, username: string, password: string)
    requires !NameTaken(users, username)
    ensures Credited(users[id := User(id, username, password)], username, password) == {id}
  {
    var after := users[id := User(id, username, password)];
    forall k | k in Credited(after, username, password)
      ensures k == id
    {
    }
  }

  class Db {
    var users: map<nat, User>
    var tasks: map<nat, Task>
    /** The next values of the two key sequences. */
    var nextUserId: nat
    var nextTaskId: nat
    /** While set, every read (respectively every write) fails. */
    var readFault: bool
    var writeFault: bool

    predicate Valid()
      reads this
    {
      && 0 < nextUserId <= SequenceEnd && 0 < nextTaskId <= SequenceEnd
      && (forall k :: k in users ==> users[k].id == k && k < nextUserId)
      && (forall k :: k in tasks ==> tasks[k].id == k && k < nextTaskId)
      && UniqueNames(users)
    }

    constructor (readFault: bool, writeFault: bool)
      ensures Valid() && users == map[] && tasks == map[]
      ensures this.readFault == readFault && this.writeFault == writeFault
    {
      users, tasks := map[], map[];
      nextUserId, nextTaskId := 1, 1;
      this.readFault, this.writeFault := readFault, writeFault;
    }
  }

  /** `login`: the first row holding both the username and the password as sent. */
  method Login(c: Context, db: Db, input: Result<User, string>, now: int) returns (token: Option<Minted>)
    requires db.Valid()
    modifies c
    ensures c.userID == old(c.userID) && c.aborted == old(c.aborted)
    ensures input.Failure? ==> token == None && c.replies == old(c.replies) + [Reply(StatusBadRequest, ErrorJson(input.error))]
    ensures input.Success? && (db.readFault || Credited(db.users, input.value.username, input.value.password) == {}) ==>
      token == None && c.replies == old(c.replies) + [Reply(StatusUnauthorized, ErrorJson(BadCredentials))]
    ensures token.Some? <==>
      input.Success? && !db.readFault && Credited(db.users, input.value.username, input.value.password) != {}
    ensures token.Some? ==>
      && Credited(db.users, input.value.username, input.value.password) == {token.value.userId}
      && token.value == CreateToken(token.value.userId, now)
      && c.replies == old(c.replies) + [Reply(StatusOK, OkWithId("Login successful", token.value.userId))]
  {
    token := None;
    if input.Failure? {
      c.JSON(StatusBadRequest, ErrorJson(input.error));
      return;
    }
    var holding := Holding(input.value.username, input.value.password);
    if db.readFault {
      c.JSON(StatusUnauthorized, ErrorJson(BadCredentials));
      return;
    }
    var found := Where(db.users, holding);
    if found == [] {
      assert Credited(db.users, input.value.username, input.value.password) == {};
      c.JSON(StatusUnauthorized, ErrorJson(BadCredentials));
      return;
    }
    var user := found[0];
    assert user in db.users.Values;
    SoleHolder(db.users, input.value.username, input.value.password, user.id);
    token := Some(CreateToken(user.id, now));
    c.JSON(StatusOK, OkWithId("Login successful", user.id));
  }

  /** `register`: refuses a taken username, then stores the pair as sent. */
  method Register(c: Context, db: Db, input: Result<User, string>) returns (id: Option<Uint>)
    requires db.Valid()
    modifies c, db
    ensures db.Valid() && db.tasks == old(db.tasks) && db.nextTaskId == old(db.nextTaskId)
    ensures db.readFault == old(db.readFault) && db.writeFault == old(db.writeFault)
    ensures c.userID == old(c.userID) && c.aborted == old(c.aborted)
    ensures input.Failure? ==> c.replies == old(c.replies) + [Reply(StatusBadRequest, ErrorJson(input.error))]
    ensures input.Success? && db.readFault ==> c.replies == old(c.replies) + [Reply(StatusInternalServerError, ErrorJson("Database error"))]
    ensures input.Success? && !db.readFault && NameTaken(old(db.users), input.value.username) ==>
      c.replies == old(c.replies) + [Reply(StatusBadRequest, ErrorJson("Username taken"))]
    ensures input.Success? && !db.readFault && !NameTaken(old(db.users), input.value.username)
            && (db.writeFault || old(db.nextUserId) == SequenceEnd) ==>
      c.replies == old(c.replies) + [Reply(StatusInternalServerError, ErrorJson("Failed to create user"))]
    ensures id.Some? <==>
      input.Success? && !db.readFault && !db.writeFault && !NameTaken(old(db.users), input.value.username)
      && old(db.nextUserId) < SequenceEnd
    ensures id.Some? ==>
      && id.value == old(db.nextUserId) && id.value !in old(db.users)
      && db.users == old(db.users)[id.value := User(id.value, input.value.username, input.value.password)]
      && c.replies == old(c.replies) + [Reply(StatusOK, OkWithId("User registered successfully", id.value))]
    ensures id.None? ==> db.users == old(db.users) && db.nextUserId == old(db.nextUserId)
  {
    id := None;
    if input.Failure? {
      c.JSON(StatusBadRequest, ErrorJson(input.error));
      return;
    }
    if db.readFault {
      c.JSON(StatusInternalServerError, ErrorJson("Database error"));
      return;
    }
    var username := input.value.username;
    var same := Where(db.users, NamedAs(username));
    if same != [] {
      assert same[0] in db.users.Values;
      c.JSON(StatusBadRequest, ErrorJson("Username taken"));
      return;
    }
    assert Matching(db.users, NamedAs(username)) == {};
    forall k | k in db.users
      ensures db.users[k].username != username
    {
      assert k !in Matching(db.users, NamedAs(username));
    }
    if db.writeFault || db.nextUserId == SequenceEnd {
      c.JSON(StatusInternalServerError, ErrorJson("Failed to create user"));
      return;
    }
    var user := User(db.nextUserId, username, input.value.password);
    db.users := db.users[user.id := user];
    db.nextUserId := db.nextUserId + 1;
    id := Some(user.id);
    c.JSON(StatusOK, OkWithId("User registered successfully", user.id));
  }

  /** `getTasks`: the rows of the subject the middleware stored. */
  method GetTasks(c: Context, db: Db) returns (listed: seq<Task>)
    requires db.Valid()
    modifies c
    ensures c.userID == old(c.userID) && c.aborted == old(c.aborted)
    ensures c.userID.None? ==> listed == [] && c.replies == old(c.replies) + [Reply(StatusInternalServerError, ErrorJson(NoUserInContext))]
    ensures c.userID.Some? && db.readFault ==>
      listed == [] && c.replies == old(c.replies) + [Reply(StatusInternalServerError, ErrorJson("Failed to get tasks"))]
    ensures c.userID.Some? && !db.readFault ==>
      && c.replies == old(c.replies) + [Reply(StatusOK, Data)]
      && |listed| == |Matching(db.tasks, OwnedBy(c.userID.value))|
    ensures forall t :: t in listed <==> c.userID.Some? && !db.readFault && t in db.tasks.Values && t.userId == c.userID.value
  {
    listed := [];
    if c.userID.None? {
      c.JSON(StatusInternalServerError, ErrorJson(NoUserInContext));
      return;
    }
    if db.readFault {
      c.JSON(StatusInternalServerError, ErrorJson("Failed to get tasks"));
      return;
    }
    listed := Where(db.tasks, OwnedBy(c.userID.value));
    c.JSON(StatusOK, Data);
  }

  /** The checks `addTask` makes on the bound body before it looks at the context. */
  predicate Acceptable(t: Task, now: int)
  {
    t.title != "" && !Tasks.DeadlineRejected(t.deadline, now)
  }

  /**
   * `addTask`. Without a "userID" in the context the type assertion
   * panics, and the recovery middleware answers 500 with no body.
   */
  method AddTask(c: Context, db: Db, input: Result<Task, string>, now: int) returns (stored: Option<Task>)
    requires db.Valid()
    modifies c, db
    ensures db.Valid() && db.users == old(db.users) && db.nextUserId == old(db.nextUserId)
    ensures db.readFault == old(db.readFault) && db.writeFault == old(db.writeFault)
    ensures c.userID == old(c.userID)
    ensures input.Failure? ==> c.replies == old(c.replies) + [Reply(StatusBadRequest, ErrorJson(input.error))]
    ensures input.Success? && input.value.title == "" ==>
      c.replies == old(c.replies) + [Reply(StatusBadRequest, ErrorJson("empty title"))]
    ensures input.Success? && input.value.title != "" && !Acceptable(input.value, now) ==>
      c.replies == old(c.replies) + [Reply(StatusBadRequest, ErrorJson("Deadline cannot be in the past"))]
    ensures input.Success? && Acceptable(input.value, now) && c.userID.None? ==>
      c.aborted && c.replies == old(c.replies) + [Reply(StatusInternalServerError, NoBody)]
    ensures input.Success? && Acceptable(input.value, now) && c.userID.Some? && (db.writeFault || old(db.nextTaskId) == SequenceEnd) ==>
      c.replies == old(c.replies) + [Reply(StatusInternalServerError, ErrorJson("Failed to create task"))]
    ensures !(input.Success? && Acceptable(input.value, now) && c.userID.None?) ==> c.aborted == old(c.aborted)
    ensures stored.Some? <==>
      input.Success? && Acceptable(input.value, now) && c.userID.Some? && !db.writeFault && old(db.nextTaskId) < SequenceEnd
    ensures stored.Some? ==>
      && stored.value == input.value.(id := old(db.nextTaskId), userId := c.userID.value, createdAt := now)
      && db.tasks == old(db.tasks)[stored.value.id := stored.value]
      && c.replies == old(c.replies) + [Reply(StatusOK, Data)]
    ensures stored.None? ==> db.tasks == old(db.tasks) && db.nextTaskId == old(db.nextTaskId)
  {
    stored := None;
    if input.Failure? {
      c.JSON(StatusBadRequest, ErrorJson(input.error));
      return;
    }
    var newTask := input.value;
    if newTask.title == "" {
      c.JSON(StatusBadRequest, ErrorJson("empty title"));
      return;
    }
    if newTask.deadline.Some? && now > newTask.deadline.value {
      c.JSON(StatusBadRequest, ErrorJson("Deadline cannot be in the past"));
      return;
    }
    if c.userID.None? {
      c.Recover();
      return;
    }
    newTask := newTask.(userId := c.userID.value);
    if db.writeFault || db.nextTaskId == SequenceEnd {
      c.JSON(StatusInternalServerError, ErrorJson("Failed to create task"));
      return;
    }
    newTask := newTask.(id := db.nextTaskId, createdAt := now);
    db.tasks := db.tasks[newTask.id := newTask];
    db.nextTaskId := db.nextTaskId + 1;
    stored := Some(newTask);
    c.JSON(StatusOK, Data);
  }

  /**
   * `deleteTask`: a scoped delete; zero rows affected is a 404. The
   * "invalid type" reply cannot occur: the middleware only stores `uint`s.
   */
  method DeleteTask(c: Context, db: Db, input: Result<nat, string>)
    requires db.Valid()
    modifies c, db
    ensures db.Valid() && db.users == old(db.users) && db.nextUserId == old(db.nextUserId) && db.nextTaskId == old(db.nextTaskId)
    ensures db.readFault == old(db.readFault) && db.writeFault == old(db.writeFault)
    ensures c.userID == old(c.userID) && c.aborted == old(c.aborted)
    ensures input.Failure? ==> db.tasks == old(db.tasks) && c.replies == old(c.replies) + [Reply(StatusBadRequest, ErrorJson(input.error))]
    ensures input.Success? && c.userID.None? ==>
      db.tasks == old(db.tasks) && c.replies == old(c.replies) + [Reply(StatusUnauthorized, ErrorJson(NoUserIdInContext))]
    ensures input.Success? && c.userID.Some? && db.writeFault ==>
      db.tasks == old(db.tasks) && c.replies == old(c.replies) + [Reply(StatusInternalServerError, ErrorJson("Failed to delete task"))]
    ensures input.Success? && c.userID.Some? && !db.writeFault ==>
      && db.tasks == Deleted(old(db.tasks), input.value, c.userID.value)
      && c.replies == old(c.replies) + [DeleteReply(old(db.tasks), input.value, c.userID.value)]
  {
    if input.Failure? {
      c.JSON(StatusBadRequest, ErrorJson(input.error));
      return;
    }
    if c.userID.None? {
      c.JSON(StatusUnauthorized, ErrorJson(NoUserIdInContext));
      return;
    }
    if db.writeFault {
      c.JSON(StatusInternalServerError, ErrorJson("Failed to delete task"));
      return;
    }
    var userId := c.userID.value;
    var rowsAffected := if input.value in db.tasks && db.tasks[input.value].userId == userId then 1 else 0;
    db.tasks := Deleted(db.tasks, input.value, userId);
    if rowsAffected == 0 {
      c.JSON(StatusNotFound, ErrorJson(TaskNotFound));
      return;
    }
    c.JSON(StatusOK, OkWithId("Task deleted successfully", input.value));
  }

  /** `authMiddleware` on a request context. */
  method AuthMiddleware(c: Context, decode: string -> Decoded)
    modifies c
    ensures Applied(c, Authenticate(c.GetHeader("Authorization"), decode))
  {
    var authHeader := c.GetHeader("Authorization");
    if authHeader == "" {
      c.AbortWithError(StatusBadRequest, HeaderRequired);
      return;
    }
    if |BearerPrefix| >= |authHeader| || BearerPrefix != authHeader[..|BearerPrefix|] {
      c.AbortWithError(StatusBadRequest, MustBeBearer);
      return;
    }
    var tokenString := authHeader[|BearerPrefix|..];
    var token := LibraryParse(decode(tokenString), KeyInvalid);
    if token.ParseError? {
      c.JSON(StatusUnauthorized, ErrorJson("failed to parse token: " + token.message));
      return;
    }
    if !token.valid {
      c.JSON(StatusUnauthorized, ErrorJson("invalid token"));
      return;
    }
    if token.claims.OtherClaims? {
      c.AbortWithError(StatusUnauthorized, "Invalid token claims");
      return;
    }
    if !token.claims.userId.Number? {
      c.AbortWithError(StatusUnauthorized, "Invalid user_id in token");
      return;
    }
    c.Set(token.claims.userId.id);
  }

  /** A request on a fresh context: nothing stored, nothing answered, not aborted. */
  predicate Fresh(c: Context)
    reads c
  {
    c.userID.None? && c.replies == [] && !c.aborted
  }

  /** `GET /tasks` through the middleware. */
  method ServeGetTasks(c: Context, db: Db, decode: string -> Decoded) returns (listed: seq<Task>)
    requires db.Valid() && Fresh(c)
    modifies c
    ensures var v := Authenticate(c.GetHeader("Authorization"), decode);
      && (v.Reject? ==> listed == [])
      && (v.Reject? && !v.abort ==>
            c.replies == [Reply(v.status, ErrorJson(v.error)), Reply(StatusInternalServerError, ErrorJson(NoUserInContext))])
      && (v.Admit? ==> forall t :: t in listed <==> !db.readFault && t in db.tasks.Values && t.userId == v.subject)
  {
    listed := [];
    AuthMiddleware(c, decode);
    if !c.aborted {
      listed := GetTasks(c, db);
    }
  }

  /** `POST /tasks` through the middleware: a refused token never writes a row. */
  method ServeAddTask(c: Context, db: Db, decode: string -> Decoded, input: Result<Task, string>, now: int) returns (stored: Option<Task>)
    requires db.Valid() && Fresh(c)
    modifies c, db
    ensures db.Valid()
    ensures var v := Authenticate(c.GetHeader("Authorization"), decode);
      && (v.Reject? ==> stored == None && db.tasks == old(db.tasks))
      && (v.Reject? && !v.abort && input.Success? && Acceptable(input.value, now) ==>
            c.replies == [Reply(v.status, ErrorJson(v.error)), Reply(StatusInternalServerError, NoBody)])
      && (v.Admit? && stored.Some? ==> stored.value.userId == v.subject)
  {
    stored := None;
    AuthMiddleware(c, decode);
    if !c.aborted {
      stored := AddTask(c, db, input, now);
    }
  }

  /** `DELETE /tasks` through the middleware: a refused token never deletes a row. */
  method ServeDeleteTask(c: Context, db: Db, decode: string -> Decoded, input: Result<nat, string>)
    requires db.Valid() && Fresh(c)
    modifies c, db
    ensures db.Valid()
    ensures var v := Authenticate(c.GetHeader("Authorization"), decode);
      && (v.Reject? ==> db.tasks == old(db.tasks))
      && (v.Reject? && !v.abort && input.Success? ==>
            c.replies == [Reply(v.status, ErrorJson(v.error)), Reply(StatusUnauthorized, ErrorJson(NoUserIdInContext))])
      && (v.Admit? && !db.writeFault && input.Success? ==> db.tasks == Deleted(old(db.tasks), input.value, v.subject))
  {
    AuthMiddleware(c, decode);
    if !c.aborted {
      DeleteTask(c, db, input);
    }
  }
}
