/**
 * The user table of the identity service (`UserService` over GORM). The
 * username column is unique; passwords are stored as the output of the
 * password hasher, which is a parameter of the model (bcrypt's
 * `GenerateFromPassword`; `None` stands for its refusal of a password).
 */
module Users {
  import opened Wrappers
  import opened Storage

  datatype User = User(id: nat, username: string, password: string)

  /** `Where("username = ?", name).First(...)` finds a row. */
  predicate NameTaken(users: map<nat, User>, name: string)
  {
    exists k :: k in users && users[k].username == name
  }

  /** A row other than `userId` holds this username. */
  predicate NameHeldByOther(users: map<nat, User>, name: string, userId: nat)
  {
    exists k :: k in users && k != userId && users[k].username == name
  }

  /** The unique constraint on the username column. */
  ghost predicate UniqueNames(users: map<nat, User>)
  {
    forall j, k :: j in users && k in users && users[j].username == users[k].username ==> j == k
  }

  /** Every row sits under its own id. */
  ghost predicate KeyedById(users: map<nat, User>)
  {
    forall k :: k in users ==> users[k].id == k
  }

  /** The one row holding a username. */
  ghost function UserNamed(users: map<nat, User>, name: string): (u: User)
    requires KeyedById(users) && UniqueNames(users) && NameTaken(users, name)
    ensures u.id in users && users[u.id] == u && u.username == name
    ensures forall k :: k in users && users[k].username == name ==> users[k] == u
  {
    var k :| k in users && users[k].username == name;
    users[k]
  }

  const EmptyUsername: string := "empty username"
  const EmptyPassword: string := "empty password"
  const DatabaseError: string := "database error"
  const UsernameTaken: string := "username taken"
  const HashFailed: string := "failed to hash password"
  const UserNotFound: string := "user not found"

  /** The first check of `CreateUser` that fails, in the order the method tries them; `None` when it stores the user. */
  function CreateUserError(users: map<nat, User>, fault: Option<string>, hash: string -> Option<string>,
                           username: string, password: string): Option<GoError>
  {
    if username == "" then Some(Plain(EmptyUsername))
    else if password == "" then Some(Plain(EmptyPassword))
    else if fault.Some? then Some(Plain(DatabaseError))
    else if NameTaken(users, username) then Some(Plain(UsernameTaken))
    else if hash(password).None? then Some(Plain(HashFailed))
    else None
  }

  /** The first check of `UpdateUser` that fails; `None` when it saves the row. */
  function UpdateUserError(users: map<nat, User>, fault: Option<string>, hash: string -> Option<string>,
                           userId: nat, newName: string, newPassword: string): Option<GoError>
  {
    if fault.Some? then Some(Plain(fault.value))
    else if userId !in users then Some(RecordNotFound)
    else if newPassword != "" && hash(newPassword).None? then Some(Plain(HashFailed))
    else if newName != "" && NameHeldByOther(users, newName, userId) then Some(Plain(UniqueViolation))
    else None
  }

  /** The row `UpdateUser` saves: non-empty fields overwrite, a new password is stored hashed. */
  function Updated(u: User, hash: string -> Option<string>, newName: string, newPassword: string): User
    requires newPassword != "" ==> hash(newPassword).Some?
  {
    u.(username := if newName != "" then newName else u.username,
       password := if newPassword != "" then hash(newPassword).value else u.password)
  }

  class UserService {
    var users: map<nat, User>
    /** The next value of the primary-key sequence. */
    var nextId: nat
    /** `Some(text)` while the database fails every statement with that error text. */
    var fault: Option<string>
    /** The password hasher. */
    const hash: string -> Option<string>

    ghost predicate Valid()
      reads this
    {
      && 0 < nextId
      && (forall k :: k in users ==> 0 < k < nextId && users[k].username != "")
      && KeyedById(users)
      && UniqueNames(users)
    }

    constructor (hash: string -> Option<string>)
      ensures Valid() && users == map[] && nextId == 1 && fault == None && this.hash == hash
    {
      users := map[];
      nextId := 1;
      fault := None;
      this.hash := hash;
    }

    /** `GetUserByID` */
    method GetUserByID(userId: nat) returns (r: Result<User, GoError>)
      requires Valid()
      ensures fault.Some? ==> r == Failure(Plain(fault.value))
      ensures fault.None? ==> r == if userId in users then Success(users[userId]) else Failure(RecordNotFound)
    {
      if fault.Some? {
        return Failure(Plain(fault.value));
      }
      if userId !in users {
        return Failure(RecordNotFound);
      }
      return Success(users[userId]);
    }

    /** `CheckByID`: absence is an answer, not an error; any other failure is "database error". */
    method CheckByID(userId: nat) returns (r: Result<bool, GoError>)
      requires Valid()
      ensures r.Success? <==> fault.None?
      ensures r.Success? ==> (r.value <==> userId in users)
      ensures r.Failure? ==> r.error == Plain(DatabaseError)
    {
      var found := GetUserByID(userId);
      if found.Failure? {
        if found.error == RecordNotFound {
          return Success(false);
        }
        return Failure(Plain(DatabaseError));
      }
      return Success(true);
    }

    /** `GetUserByUsername`: the row holding exactly that username. */
    method GetUserByUsername(username: string) returns (r: Result<User, GoError>)
      requires Valid()
      ensures fault.Some? ==> r == Failure(Plain(fault.value))
      ensures fault.None? && !NameTaken(users, username) ==> r == Failure(RecordNotFound)
      ensures fault.None? && NameTaken(users, username) ==> r == Success(UserNamed(users, username))
      ensures r.Success? ==> r.value.id in users && users[r.value.id] == r.value && r.value.username == username
    {
      if fault.Some? {
        return Failure(Plain(fault.value));
      }
      if !NameTaken(users, username) {
        return Failure(RecordNotFound);
      }
      var k :| k in users && users[k].username == username;
      return Success(users[k]);
    }

    /**
     * `CreateUser`: checks the username, the password, the store, that the
     * username is free and that hashing works, in that order; then stores one
     * row with the hashed password under the next id and returns the id.
     */
    method CreateUser(username: string, password: string) returns (r: Result<nat, GoError>)
      requires Valid()
      modifies this
      ensures Valid() && fault == old(fault)
      ensures r.Failure? <==> CreateUserError(old(users), fault, hash, username, password).Some?
      ensures r.Failure? ==> r.error == CreateUserError(old(users), fault, hash, username, password).value
      ensures r.Failure? ==> users == old(users) && nextId == old(nextId)
      ensures r.Success? ==> hash(password).Some? && r.value == old(nextId) && r.value !in old(users)
      ensures r.Success? ==> users == old(users)[r.value := User(r.value, username, hash(password).value)]
    {
      if username == "" {
        return Failure(Plain(EmptyUsername));
      }
      if password == "" {
        return Failure(Plain(EmptyPassword));
      }
      var existing := GetUserByUsername(username);
      if existing.Success? {
        return Failure(Plain(UsernameTaken));
      } else if existing.error != RecordNotFound {
        return Failure(Plain(DatabaseError));
      }
      var hashed := hash(password);
      if hashed.None? {
        return Failure(Plain(HashFailed));
      }
      var id := nextId;
      users := users[id := User(id, username, hashed.value)];
      nextId := nextId + 1;
      return Success(id);
    }

    /** `DeleteUser`: removes that row only; a missing row is "user not found". */
    method DeleteUser(userId: nat) returns (err: Option<GoError>)
      requires Valid()
      modifies this
      ensures Valid() && fault == old(fault) && nextId == old(nextId)
      ensures fault.Some? ==> err == Some(Plain(fault.value)) && users == old(users)
      ensures fault.None? && userId in old(users) ==> err == None && users == old(users) - {userId}
      ensures fault.None? && userId !in old(users) ==> err == Some(Plain(UserNotFound)) && users == old(users)
    {
      if fault.Some? {
        return Some(Plain(fault.value));
      }
      if userId !in users {
        return Some(Plain(UserNotFound));
      }
      users := users - {userId};
      return None;
    }

    /**
     * `UpdateUser`: loads the row, overwrites the username when the new one is
     * non-empty and the password (hashed) when the new one is non-empty, and
     * saves; the unique constraint refuses a username another row holds.
     */
    method UpdateUser(userId: nat, newName: string, newPassword: string) returns (err: Option<GoError>)
      requires Valid()
      modifies this
      ensures Valid() && fault == old(fault) && nextId == old(nextId)
      ensures err == UpdateUserError(old(users), fault, hash, userId, newName, newPassword)
      ensures err.Some? ==> users == old(users)
      ensures err.None? ==> users == old(users)[userId := Updated(old(users)[userId], hash, newName, newPassword)]
    {
      var found := GetUserByID(userId);
      if found.Failure? {
        return Some(found.error);
      }
      var user := found.value;
      if newName != "" {
        user := user.(username := newName);
      }
      if newPassword != "" {
        var hashed := hash(newPassword);
        if hashed.None? {
          return Some(Plain(HashFailed));
        }
        user := user.(password := hashed.value);
      }
      if NameHeldByOther(users, user.username, userId) {
        return Some(Plain(UniqueViolation));
      }
      users := users[userId := user];
      return None;
    }
  }

  /** `CreateUser` reports an empty username before anything else, and an empty password before any lookup. */
  lemma CreateUserCheckOrder(users: map<nat, User>, fault: Option<string>, hash: string -> Option<string>,
                             username: string, password: string)
    ensures username == "" ==> CreateUserError(users, fault, hash, username, password) == Some(Plain(EmptyUsername))
    ensures username != "" && password == "" ==> CreateUserError(users, fault, hash, username, password) == Some(Plain(EmptyPassword))
    ensures NameTaken(users, username) ==> CreateUserError(users, fault, hash, username, password).Some?
  {
  }

  /** Adding a row under a username nobody holds keeps usernames unique. */
  lemma InsertKeepsNamesUnique(users: map<nat, User>, id: nat, u: User)
    requires UniqueNames(users) && id !in users && !NameTaken(users, u.username)
    ensures UniqueNames(users[id := u])
  {
  }
}
