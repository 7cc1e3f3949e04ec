/**
 * The task table of the task service (`TaskService` over GORM): every read
 * and write is scoped by the pair (task id, owner id).
 */
module Tasks {
  import opened Wrappers
  import opened Storage

  /** One row of the task table. Instants are seconds on one clock; `deadline` is optional. */
  datatype Task = Task(
    id: nat,
    title: string,
    description: string,
    deadline: Option<int>,
    userId: nat,
    createdAt: int,
    isReady: bool)

  /** `time.Now().After(deadline)`: the deadline lies strictly before now. */
  predicate InPast(deadline: int, now: int) { now > deadline }

  /** The deadline condition under which `CreateTask` refuses a task. */
  predicate DeadlineRejected(deadline: Option<int>, now: int)
  {
    deadline.Some? && InPast(deadline.value, now)
  }

  /** The filter of `Where("user_id = ?", userId)`. */
  function OwnerIs(userId: nat): Task -> bool
  {
    (t: Task) => t.userId == userId
  }

  /** A row with this id exists and belongs to this owner: the `(id, user_id)` scope of every write. */
  predicate Owns(tasks: map<nat, Task>, taskId: nat, userId: nat)
  {
    taskId in tasks && tasks[taskId].userId == userId
  }

  /** The row `UpdateTask` saves after loading `t`. */
  function Edited(t: Task, newTitle: string, newDescription: string, newDeadline: Option<int>, now: int): Task
  {
    t.(title := if newTitle != "" then newTitle else t.title,
       description := if newDescription != "" then newDescription else t.description,
       deadline := if newDeadline.Some? && now > newDeadline.value then newDeadline else t.deadline)
  }

  /** The table after `DeleteTask(taskId, userId)` with the store reachable. */
  function Deleted(tasks: map<nat, Task>, taskId: nat, userId: nat): map<nat, Task>
  {
    if Owns(tasks, taskId, userId) then tasks - {taskId} else tasks
  }

  /** The table after `UpdateTask` with the store reachable. */
  function EditedTable(tasks: map<nat, Task>, taskId: nat, userId: nat,
                       newTitle: string, newDescription: string, newDeadline: Option<int>, now: int): map<nat, Task>
  {
    if Owns(tasks, taskId, userId)
    then tasks[taskId := Edited(tasks[taskId], newTitle, newDescription, newDeadline, now)]
    else tasks
  }

  /** The table after `UpdateStateTask` with the store reachable. */
  function ReadySet(tasks: map<nat, Task>, taskId: nat, userId: nat, isReady: bool): map<nat, Task>
  {
    if Owns(tasks, taskId, userId) then tasks[taskId := tasks[taskId].(isReady := isReady)] else tasks
  }

  const EmptyTitle: string := "empty title"
  const DeadlineInPast: string := "deadline cannot be in the past"
  const NotOwned: string := "task not found or does not belong to user"

  /** The first check of `CreateTask` that fails, in the order the method tries them; `None` when it stores the task. */
  function CreateTaskError(task: Task, fault: Option<string>, now: int): Option<GoError>
  {
    if task.title == "" then Some(Plain(EmptyTitle))
    else if DeadlineRejected(task.deadline, now) then Some(Plain(DeadlineInPast))
    else if fault.Some? then Some(Plain(fault.value))
    else None
  }

  /** What `GetTaskByUser(userId)` can see: the owner's rows under their keys. */
  function Listing(tasks: map<nat, Task>, userId: nat): map<nat, Task>
  {
    map k | k in tasks && tasks[k].userId == userId :: tasks[k]
  }

  class TaskService {
    var tasks: map<nat, Task>
    /** The next value of the primary-key sequence. */
    var nextId: nat
    /** `Some(text)` while the database fails every statement with that error text. */
    var fault: Option<string>

    ghost predicate Valid()
      reads this
    {
      && 0 < nextId
      && forall k :: k in tasks ==> tasks[k].id == k && 0 < k < nextId
    }

    constructor ()
      ensures Valid() && tasks == map[] && nextId == 1 && fault == None
    {
      tasks := map[];
      nextId := 1;
      fault := None;
    }

    /** `GetTaskByUser`: the owner's rows, all of them and no other. */
    method GetTaskByUser(userId: nat) returns (r: Result<seq<Task>, GoError>)
      requires Valid()
      ensures fault.Some? <==> r.Failure?
      ensures fault.Some? ==> r.error == Plain(fault.value)
      ensures r.Success? ==> forall t :: t in r.value <==> t in tasks.Values && t.userId == userId
      ensures r.Success? ==> |r.value| == |Matching(tasks, OwnerIs(userId))|
    {
      if fault.Some? {
        return Failure(Plain(fault.value));
      }
      var rows := Where(tasks, OwnerIs(userId));
      return Success(rows);
    }

    /**
     * `CreateTask`: refuses an empty title, then a deadline strictly before
     * now; otherwise stores the task under the next id, not ready, created now.
     * The returned task is the caller's struct as the method leaves it.
     */
    method CreateTask(task: Task, now: int) returns (r: Result<Task, GoError>)
      requires Valid()
      modifies this
      ensures Valid() && fault == old(fault)
      ensures task.title == "" ==> r == Failure(Plain(EmptyTitle))
      ensures task.title != "" && DeadlineRejected(task.deadline, now) ==> r == Failure(Plain(DeadlineInPast))
      ensures task.title != "" && !DeadlineRejected(task.deadline, now) && fault.Some?
              ==> r == Failure(Plain(fault.value))
      ensures r.Failure? ==> tasks == old(tasks) && nextId == old(nextId)
      ensures r.Success? <==> task.title != "" && !DeadlineRejected(task.deadline, now) && fault.None?
      ensures r.Success? ==> r.value == task.(id := old(nextId), createdAt := now, isReady := false)
      ensures r.Success? ==> r.value.id !in old(tasks) && tasks == old(tasks)[r.value.id := r.value] && nextId == old(nextId) + 1
      ensures r.Failure? <==> CreateTaskError(task, fault, now).Some?
      ensures r.Failure? ==> r.error == CreateTaskError(task, fault, now).value
    {
      if task.title == "" {
        return Failure(Plain(EmptyTitle));
      }
      if task.deadline.Some? && InPast(task.deadline.value, now) {
        return Failure(Plain(DeadlineInPast));
      }
      var stored := task.(isReady := false);
      if fault.Some? {
        return Failure(Plain(fault.value));
      }
      stored := stored.(id := nextId, createdAt := now);
      tasks := tasks[nextId := stored];
      nextId := nextId + 1;
      return Success(stored);
    }

    /** `DeleteTask`: removes the row only when both the id and the owner match. */
    method DeleteTask(taskId: nat, userId: nat) returns (err: Option<GoError>)
      requires Valid()
      modifies this
      ensures Valid() && fault == old(fault) && nextId == old(nextId)
      ensures fault.Some? ==> err == Some(Plain(fault.value)) && tasks == old(tasks)
      ensures fault.None? ==> tasks == Deleted(old(tasks), taskId, userId)
      ensures fault.None? ==> err == if Owns(old(tasks), taskId, userId) then None else Some(Plain(NotOwned))
    {
      if fault.Some? {
        return Some(Plain(fault.value));
      }
      var rowsAffected := if Owns(tasks, taskId, userId) then 1 else 0;
      tasks := Deleted(tasks, taskId, userId);
      if rowsAffected == 0 {
        return Some(Plain(NotOwned));
      }
      return None;
    }

    /**
     * `UpdateTask`: loads the row scoped by (id, owner), overwrites the title
     * and description when the new ones are non-empty and the deadline when
     * the new one lies in the past, and saves it.
     */
    method UpdateTask(taskId: nat, userId: nat, newTitle: string, newDescription: string,
                      newDeadline: Option<int>, now: int) returns (err: Option<GoError>)
      requires Valid()
      modifies this
      ensures Valid() && fault == old(fault) && nextId == old(nextId)
      ensures fault.Some? ==> err == Some(Plain(fault.value)) && tasks == old(tasks)
      ensures fault.None? ==> tasks == EditedTable(old(tasks), taskId, userId, newTitle, newDescription, newDeadline, now)
      ensures fault.None? ==> err == if Owns(old(tasks), taskId, userId) then None else Some(RecordNotFound)
    {
      if fault.Some? {
        return Some(Plain(fault.value));
      }
      if !Owns(tasks, taskId, userId) {
        return Some(RecordNotFound);
      }
      var task := tasks[taskId];
      if newTitle != "" {
        task := task.(title := newTitle);
      }
      if newDescription != "" {
        task := task.(description := newDescription);
      }
      if newDeadline.Some? && InPast(newDeadline.value, now) {
        task := task.(deadline := newDeadline);
      }
      tasks := tasks[taskId := task];
      return None;
    }

    /** `UpdateStateTask`: sets the ready flag of the row scoped by (id, owner). */
    method UpdateStateTask(taskId: nat, userId: nat, isReady: bool) returns (err: Option<GoError>)
      requires Valid()
      modifies this
      ensures Valid() && fault == old(fault) && nextId == old(nextId)
      ensures fault.Some? ==> err == Some(Plain(fault.value)) && tasks == old(tasks)
      ensures fault.None? ==> tasks == ReadySet(old(tasks), taskId, userId, isReady)
      ensures fault.None? ==> err == if Owns(old(tasks), taskId, userId) then None else Some(RecordNotFound)
    {
      if fault.Some? {
        return Some(Plain(fault.value));
      }
      if !Owns(tasks, taskId, userId) {
        return Some(RecordNotFound);
      }
      var task := tasks[taskId];
      task := task.(isReady := isReady);
      tasks := tasks[taskId := task];
      return None;
    }
  }

  /**
   * What one subject does never changes what another subject lists: a
   * create under a fresh key, a delete, an update and a state write by `u`
   * leave the rows `v` lists exactly as they were.
   */
  lemma ListingIsolation(tasks: map<nat, Task>, u: nat, v: nat, newKey: nat, created: Task, taskId: nat,
                         newTitle: string, newDescription: string, newDeadline: Option<int>, now: int, isReady: bool)
    requires u != v && newKey !in tasks && created.userId == u
    ensures Listing(tasks[newKey := created], v) == Listing(tasks, v)
    ensures Listing(Deleted(tasks, taskId, u), v) == Listing(tasks, v)
    ensures Listing(EditedTable(tasks, taskId, u, newTitle, newDescription, newDeadline, now), v) == Listing(tasks, v)
    ensures Listing(ReadySet(tasks, taskId, u, isReady), v) == Listing(tasks, v)
  {
    assert Listing(tasks[newKey := created], v).Keys == Listing(tasks, v).Keys;
    assert Listing(Deleted(tasks, taskId, u), v).Keys == Listing(tasks, v).Keys;
    assert Listing(EditedTable(tasks, taskId, u, newTitle, newDescription, newDeadline, now), v).Keys == Listing(tasks, v).Keys;
    assert Listing(ReadySet(tasks, taskId, u, isReady), v).Keys == Listing(tasks, v).Keys;
  }

  /** Deleting removes at most the one owned row; every other row, and every row of another owner, stays as it was. */
  lemma DeleteTouchesOnlyOwnedRow(tasks: map<nat, Task>, taskId: nat, userId: nat)
    ensures |Deleted(tasks, taskId, userId)| == if Owns(tasks, taskId, userId) then |tasks| - 1 else |tasks|
    ensures forall k :: k in tasks && k != taskId ==> k in Deleted(tasks, taskId, userId) && Deleted(tasks, taskId, userId)[k] == tasks[k]
    ensures forall k :: k in tasks && tasks[k].userId != userId ==> k in Deleted(tasks, taskId, userId) && Deleted(tasks, taskId, userId)[k] == tasks[k]
  {
  }

  /** Editing keeps the id, owner, creation time and ready flag; empty fields leave the stored value. */
  lemma EditIsPartial(t: Task, newTitle: string, newDescription: string, newDeadline: Option<int>, now: int)
    ensures var e := Edited(t, newTitle, newDescription, newDeadline, now);
      && e.id == t.id && e.userId == t.userId && e.createdAt == t.createdAt && e.isReady == t.isReady
      && (newTitle == "" ==> e.title == t.title) && (newTitle != "" ==> e.title == newTitle)
      && (newDescription == "" ==> e.description == t.description) && (newDescription != "" ==> e.description == newDescription)
  {
  }

  /**
   * `UpdateTask` installs a new deadline exactly when `CreateTask` would
   * refuse that deadline: a deadline in the future is silently dropped, and
   * one in the past is stored.
   */
  lemma UpdateDeadlineIsInverted(t: Task, newTitle: string, newDescription: string, d: int, now: int)
    ensures Edited(t, newTitle, newDescription, Some(d), now).deadline == Some(d) <==> DeadlineRejected(Some(d), now) || t.deadline == Some(d)
    ensures !DeadlineRejected(Some(d), now) ==> Edited(t, newTitle, newDescription, Some(d), now).deadline == t.deadline
  {
  }

  /** No write scoped by (id, owner) changes any row's id or owner, and the state write changes nothing but the flag. */
  lemma WritesKeepOwnership(tasks: map<nat, Task>, taskId: nat, userId: nat,
                            newTitle: string, newDescription: string, newDeadline: Option<int>, now: int, isReady: bool)
    ensures var e := EditedTable(tasks, taskId, userId, newTitle, newDescription, newDeadline, now);
      e.Keys == tasks.Keys && forall k :: k in tasks ==> e[k].id == tasks[k].id && e[k].userId == tasks[k].userId
    ensures var s := ReadySet(tasks, taskId, userId, isReady);
      && s.Keys == tasks.Keys
      && (forall k :: k in tasks && k != taskId ==> s[k] == tasks[k])
      && (taskId in tasks ==> s[taskId].(isReady := tasks[taskId].isReady) == tasks[taskId])
  {
  }

  /** Setting the ready flag twice with the same value leaves the table as setting it once. */
  lemma ReadySetIdempotent(tasks: map<nat, Task>, taskId: nat, userId: nat, isReady: bool)
    ensures ReadySet(ReadySet(tasks, taskId, userId, isReady), taskId, userId, isReady) == ReadySet(tasks, taskId, userId, isReady)
  {
  }

  /**
   * A row owned by one subject is out of reach of every other subject: the
   * other's delete, update and state write all miss it and leave the table
   * as it was.
   */
  lemma CrossOwnerIsolation(tasks: map<nat, Task>, taskId: nat, owner: nat, other: nat,
                            newTitle: string, newDescription: string, newDeadline: Option<int>, now: int, isReady: bool)
    requires Owns(tasks, taskId, owner) && owner != other
    ensures !Owns(tasks, taskId, other)
    ensures Deleted(tasks, taskId, other) == tasks
    ensures EditedTable(tasks, taskId, other, newTitle, newDescription, newDeadline, now) == tasks
    ensures ReadySet(tasks, taskId, other, isReady) == tasks
  {
  }
}
