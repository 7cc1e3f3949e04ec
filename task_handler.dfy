/**
 * The HTTP handlers of the task service (`TaskHandler`). Each one binds its
 * input, identifies the caller with `validateUser` and then calls the task
 * table; every service error is answered with 400 and the service's text.
 * Binding the JSON body is gin's work: a body arrives here already bound,
 * or as the binder's error text.
 */
module TaskHandler {
  import opened Wrappers
  import opened Strconv
  import opened Storage
  import opened Rpc
  import opened Gin
  import opened Tasks
  import UserRpc
  import Users

  const UserNotFound: string := "user not found"
  const InvalidTaskId: string := "invalid task id"

  /**
   * The subject `validateUser` takes from the client's "userID" header:
   * the parse error is dropped, so the value is whatever `ParseUint` returns
   * beside it. An empty header, or one that starts with a non-digit, gives
   * 0; a decimal header within 64 bits gives its value; an all-digit header
   * beyond 64 bits gives the largest `uint64`. A header mixing digits and
   * other characters gives 0 or the largest `uint64`, whichever fault the
   * left-to-right scan meets first.
   */
  function HeaderSubject(header: string): (id: Uint)
    ensures header == "" ==> id == 0
    ensures header != "" && !IsDigit(header[0]) ==> id == 0
    ensures header != "" && AllDigits(header) && Value(0, header) <= MAX_UINT64 ==> id == Value(0, header)
    ensures AllDigits(header) && Value(0, header) > MAX_UINT64 ==> id == MAX_UINT64
    ensures !ParseUint(header).Parsed? ==> id == 0 || id == MAX_UINT64
  {
    assert AllDigits(header) && Value(0, header) > MAX_UINT64 ==> ParseUint(header) == RangeError by {
      if AllDigits(header) && Value(0, header) > MAX_UINT64 {
        OverflowIsRange(header, 0);
      }
    }
    ReturnedValue(ParseUint(header))
  }

  /** The body of `UpdateTask`. */
  datatype TaskEdit = TaskEdit(title: string, description: string, deadline: Option<int>)

  class TaskHandler {
    const svc: TaskService
    /** The identity oracle: `GetUser` over gRPC. */
    const userClient: string -> OracleReply

    constructor (svc: TaskService, userClient: string -> OracleReply)
      ensures this.svc == svc && this.userClient == userClient
    {
      this.svc := svc;
      this.userClient := userClient;
    }

    /** The subject this request claims in its "userID" header. */
    function Subject(c: Context): Uint
    {
      HeaderSubject(c.GetHeader("userID"))
    }

    /** The id string `validateUser` sends to the oracle. */
    function Query(c: Context): string
    {
      Itoa(ToInt(Subject(c)))
    }

    /** The oracle confirms that subject: no error and `Exists = true`. */
    predicate Confirmed(c: Context)
    {
      userClient(Query(c)) == Answer(true)
    }

    /**
     * `validateUser`: stores the header's subject under "userID", replacing
     * whatever the middleware put there, and asks the oracle about it once.
     * Reading "userID" back yields the `uint` just stored, so the source's
     * "userID missing" and "invalid userID" replies cannot be produced.
     */
    method ValidateUser(c: Context) returns (userId: Uint, ok: bool, queries: seq<string>)
      modifies c
      ensures c.userID == Some(Subject(c)) && c.aborted == old(c.aborted)
      ensures queries == [Query(c)]
      ensures ok <==> Confirmed(c)
      ensures ok ==> userId == Subject(c) && c.replies == old(c.replies)
      ensures !ok ==> userId == 0 && c.replies == old(c.replies) + [Reply(StatusBadRequest, ErrorJson(UserNotFound))]
    {
      var userIdStr := c.GetHeader("userID");
      var parsed := ParseUint(userIdStr);
      var id := ReturnedValue(parsed);
      c.Set(id);
      var query := Itoa(ToInt(id));
      queries := [query];
      var resp := userClient(query);
      if resp != Answer(true) {
        c.JSON(StatusBadRequest, ErrorJson(UserNotFound));
        return 0, false, queries;
      }
      return id, true, queries;
    }

    /** `GetTasks`: the confirmed subject's rows. */
    method GetTasks(c: Context) returns (listed: seq<Task>, queries: seq<string>)
      requires svc.Valid()
      modifies c
      ensures svc.fault == old(svc.fault) && c.aborted == old(c.aborted)
      ensures queries == [Query(c)] && c.userID == Some(Subject(c))
      ensures !Confirmed(c) ==> listed == [] && c.replies == old(c.replies) + [Reply(StatusBadRequest, ErrorJson(UserNotFound))]
      ensures Confirmed(c) && svc.fault.Some? ==>
        listed == [] && c.replies == old(c.replies) + [Reply(StatusInternalServerError, ErrorJson(svc.fault.value))]
      ensures Confirmed(c) && svc.fault.None? ==>
        c.replies == old(c.replies) + [Reply(StatusOK, Data)] && |listed| == |Matching(svc.tasks, OwnerIs(Subject(c)))|
      ensures forall t :: t in listed <==> Confirmed(c) && svc.fault.None? && t in svc.tasks.Values && t.userId == Subject(c)
    {
      listed := [];
      var userId, ok;
      userId, ok, queries := ValidateUser(c);
      if !ok {
        return;
      }
      var tasks := svc.GetTaskByUser(userId);
      if tasks.Failure? {
        c.JSON(StatusInternalServerError, ErrorJson(tasks.error.Message()));
        return;
      }
      listed := tasks.value;
      c.JSON(StatusOK, Data);
    }

    /** `AddTask`: the stored owner is the confirmed subject, whatever the body said. */
    method AddTask(c: Context, input: Result<Task, string>, now: int) returns (stored: Option<Task>, queries: seq<string>)
      requires svc.Valid()
      modifies c, svc
      ensures svc.Valid() && svc.fault == old(svc.fault) && c.aborted == old(c.aborted)
      ensures input.Failure? ==>
        && stored == None && queries == [] && c.userID == old(c.userID)
        && svc.tasks == old(svc.tasks) && svc.nextId == old(svc.nextId)
        && c.replies == old(c.replies) + [Reply(StatusBadRequest, ErrorJson(input.error))]
      ensures input.Success? ==> queries == [Query(c)] && c.userID == Some(Subject(c))
      ensures input.Success? && !Confirmed(c) ==>
        && stored == None && svc.tasks == old(svc.tasks) && svc.nextId == old(svc.nextId)
        && c.replies == old(c.replies) + [Reply(StatusBadRequest, ErrorJson(UserNotFound))]
      ensures input.Success? && Confirmed(c) ==>
        var owned := input.value.(userId := Subject(c));
        var e := CreateTaskError(owned, svc.fault, now);
        && (e.Some? ==>
              && stored == None && svc.tasks == old(svc.tasks) && svc.nextId == old(svc.nextId)
              && c.replies == old(c.replies) + [Reply(StatusBadRequest, ErrorJson(e.value.Message()))])
        && (e.None? ==>
              && stored == Some(owned.(id := old(svc.nextId), createdAt := now, isReady := false))
              && svc.tasks == old(svc.tasks)[old(svc.nextId) := stored.value]
              && svc.nextId == old(svc.nextId) + 1
              && c.replies == old(c.replies) + [Reply(StatusOK, Data)])
    {
      stored, queries := None, [];
      if input.Failure? {
        c.JSON(StatusBadRequest, ErrorJson(input.error));
        return;
      }
      var userId, ok;
      userId, ok, queries := ValidateUser(c);
      if !ok {
        return;
      }
      var newTask := input.value.(userId := userId);
      var created := svc.CreateTask(newTask, now);
      if created.Failure? {
        c.JSON(StatusBadRequest, ErrorJson(created.error.Message()));
        return;
      }
      stored := Some(created.value);
      c.JSON(StatusOK, Data);
    }

    /** `DeleteTask`: deletes the row with that id owned by the confirmed subject, and echoes the id. */
    method DeleteTask(c: Context, input: Result<nat, string>) returns (queries: seq<string>)
      requires svc.Valid()
      modifies c, svc
      ensures svc.Valid() && svc.fault == old(svc.fault) && svc.nextId == old(svc.nextId) && c.aborted == old(c.aborted)
      ensures input.Failure? ==>
        && queries == [] && c.userID == old(c.userID) && svc.tasks == old(svc.tasks)
        && c.replies == old(c.replies) + [Reply(StatusBadRequest, ErrorJson(input.error))]
      ensures input.Success? ==> queries == [Query(c)] && c.userID == Some(Subject(c))
      ensures input.Success? && !Confirmed(c) ==>
        svc.tasks == old(svc.tasks) && c.replies == old(c.replies) + [Reply(StatusBadRequest, ErrorJson(UserNotFound))]
      ensures input.Success? && Confirmed(c) && svc.fault.None? ==>
        && svc.tasks == Deleted(old(svc.tasks), input.value, Subject(c))
        && c.replies == old(c.replies) + [if Owns(old(svc.tasks), input.value, Subject(c))
                                          then Reply(StatusOK, OkWithId("task deleted successfully", input.value))
                                          else Reply(StatusBadRequest, ErrorJson(NotOwned))]
      ensures input.Success? && Confirmed(c) && svc.fault.Some? ==>
        svc.tasks == old(svc.tasks) && c.replies == old(c.replies) + [Reply(StatusBadRequest, ErrorJson(svc.fault.value))]
    {
      queries := [];
      if input.Failure? {
        c.JSON(StatusBadRequest, ErrorJson(input.error));
        return;
      }
      var userId, ok;
      userId, ok, queries := ValidateUser(c);
      if !ok {
        return;
      }
      var err := svc.DeleteTask(input.value, userId);
      if err.Some? {
        c.JSON(StatusBadRequest, ErrorJson(err.value.Message()));
        return;
      }
      c.JSON(StatusOK, OkWithId("task deleted successfully", input.value));
    }

    /** `UpdateTask`: a path id that is not a decimal `uint64` is refused before the oracle is asked. */
    method UpdateTask(c: Context, input: Result<TaskEdit, string>, now: int) returns (queries: seq<string>)
      requires svc.Valid()
      modifies c, svc
      ensures svc.Valid() && svc.fault == old(svc.fault) && svc.nextId == old(svc.nextId) && c.aborted == old(c.aborted)
      ensures input.Failure? ==>
        && queries == [] && c.userID == old(c.userID) && svc.tasks == old(svc.tasks)
        && c.replies == old(c.replies) + [Reply(StatusBadRequest, ErrorJson(input.error))]
      ensures input.Success? && !ParseUint(c.Param("id")).Parsed? ==>
        && queries == [] && c.userID == old(c.userID) && svc.tasks == old(svc.tasks)
        && c.replies == old(c.replies) + [Reply(StatusBadRequest, ErrorJson(InvalidTaskId))]
      ensures input.Success? && ParseUint(c.Param("id")).Parsed? ==> queries == [Query(c)] && c.userID == Some(Subject(c))
      ensures input.Success? && ParseUint(c.Param("id")).Parsed? && !Confirmed(c) ==>
        svc.tasks == old(svc.tasks) && c.replies == old(c.replies) + [Reply(StatusBadRequest, ErrorJson(UserNotFound))]
      ensures input.Success? && ParseUint(c.Param("id")).Parsed? && Confirmed(c) && svc.fault.Some? ==>
        svc.tasks == old(svc.tasks) && c.replies == old(c.replies) + [Reply(StatusBadRequest, ErrorJson(svc.fault.value))]
      ensures input.Success? && ParseUint(c.Param("id")).Parsed? && Confirmed(c) && svc.fault.None? ==>
        var taskId := ParseUint(c.Param("id")).value;
        && svc.tasks == EditedTable(old(svc.tasks), taskId, Subject(c), input.value.title, input.value.description, input.value.deadline, now)
        && c.replies == old(c.replies) + [if Owns(old(svc.tasks), taskId, Subject(c))
                                          then Reply(StatusOK, OkJson("task updated successfully"))
                                          else Reply(StatusBadRequest, ErrorJson(RecordNotFound.Message()))]
    {
      queries := [];
      if input.Failure? {
        c.JSON(StatusBadRequest, ErrorJson(input.error));
        return;
      }
      var taskId := ParseUint(c.Param("id"));
      if !taskId.Parsed? {
        c.JSON(StatusBadRequest, ErrorJson(InvalidTaskId));
        return;
      }
      var userId, ok;
      userId, ok, queries := ValidateUser(c);
      if !ok {
        return;
      }
      var edit := input.value;
      var err := svc.UpdateTask(taskId.value, userId, edit.title, edit.description, edit.deadline, now);
      if err.Some? {
        c.JSON(StatusBadRequest, ErrorJson(err.value.Message()));
        return;
      }
      c.JSON(StatusOK, OkJson("task updated successfully"));
    }

    /** `UpdateStateTask`: same order of checks as `UpdateTask`, then the ready flag. */
    method UpdateStateTask(c: Context, input: Result<bool, string>) returns (queries: seq<string>)
      requires svc.Valid()
      modifies c, svc
      ensures svc.Valid() && svc.fault == old(svc.fault) && svc.nextId == old(svc.nextId) && c.aborted == old(c.aborted)
      ensures input.Failure? ==>
        && queries == [] && c.userID == old(c.userID) && svc.tasks == old(svc.tasks)
        && c.replies == old(c.replies) + [Reply(StatusBadRequest, ErrorJson(input.error))]
      ensures input.Success? && !ParseUint(c.Param("id")).Parsed? ==>
        && queries == [] && c.userID == old(c.userID) && svc.tasks == old(svc.tasks)
        && c.replies == old(c.replies) + [Reply(StatusBadRequest, ErrorJson(InvalidTaskId))]
      ensures input.Success? && ParseUint(c.Param("id")).Parsed? ==> queries == [Query(c)] && c.userID == Some(Subject(c))
      ensures input.Success? && ParseUint(c.Param("id")).Parsed? && !Confirmed(c) ==>
        svc.tasks == old(svc.tasks) && c.replies == old(c.replies) + [Reply(StatusBadRequest, ErrorJson(UserNotFound))]
      ensures input.Success? && ParseUint(c.Param("id")).Parsed? && Confirmed(c) && svc.fault.Some? ==>
        svc.tasks == old(svc.tasks) && c.replies == old(c.replies) + [Reply(StatusBadRequest, ErrorJson(svc.fault.value))]
      ensures input.Success? && ParseUint(c.Param("id")).Parsed? && Confirmed(c) && svc.fault.None? ==>
        var taskId := ParseUint(c.Param("id")).value;
        && svc.tasks == ReadySet(old(svc.tasks), taskId, Subject(c), input.value)
        && c.replies == old(c.replies) + [if Owns(old(svc.tasks), taskId, Subject(c))
                                          then Reply(StatusOK, OkJson("task state updated successfully"))
                                          else Reply(StatusBadRequest, ErrorJson(RecordNotFound.Message()))]
    {
      queries := [];
      if input.Failure? {
        c.JSON(StatusBadRequest, ErrorJson(input.error));
        return;
      }
      var taskId := ParseUint(c.Param("id"));
      if !taskId.Parsed? {
        c.JSON(StatusBadRequest, ErrorJson(InvalidTaskId));
        return;
      }
      var userId, ok;
      userId, ok, queries := ValidateUser(c);
      if !ok {
        return;
      }
      var err := svc.UpdateStateTask(taskId.value, userId, input.value);
      if err.Some? {
        c.JSON(StatusBadRequest, ErrorJson(err.value.Message()));
        return;
      }
      c.JSON(StatusOK, OkJson("task state updated successfully"));
    }
  }

  /**
   * With the identity service as the oracle, a "userID" header that is
   * empty, not decimal or out of range never passes `validateUser`: the
   * dropped parse error leaves subject 0, which is never a user id, or the
   * largest `uint64`, whose id string the service cannot parse.
   */
  lemma {:induction false} MalformedHeaderRefused(users: map<nat, Users.User>, fault: Option<string>, header: string)
    requires 0 !in users
    requires !ParseUint(header).Parsed?
    ensures UserRpc.Oracle(users, fault)(Itoa(ToInt(HeaderSubject(header)))) != Answer(true)
  {
    UserRpc.OracleReportsExistence(users, fault, HeaderSubject(header));
  }

  /**
   * The header alone decides the subject: a client that writes the decimal
   * id of any existing user (below 2^63) into "userID" passes
   * `validateUser` as that user, whatever token it presented.
   */
  lemma {:induction false} HeaderImpersonation(users: map<nat, Users.User>, victim: Uint)
    requires victim in users && victim < INT64_LIMIT
    ensures HeaderSubject(Itoa(victim)) == victim
    ensures UserRpc.Oracle(users, None)(Itoa(ToInt(HeaderSubject(Itoa(victim))))) == Answer(true)
  {
    ItoaParseRoundTrip(victim);
    UserRpc.OracleReportsExistence(users, None, victim);
  }
}
