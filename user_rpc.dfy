/**
 * The identity oracle as the identity service implements it
 * (`UserServiceServer.GetUser`): a decimal id in, `Exists` out.
 */
module UserRpc {
  import opened Wrappers
  import opened Strconv
  import opened Storage
  import opened Users
  import opened Rpc

  /** Why `GetUser` answers with an error instead of a response. */
  datatype GetUserError = BadId(outcome: ParseOutcome) | LookupFailed(error: GoError)

  /** The answer of `GetUser` for a store in this state. */
  function GetUserAnswer(users: map<nat, User>, fault: Option<string>, id: string): Result<bool, GetUserError>
  {
    match ParseUint(id)
    case Parsed(userId) =>
      if fault.Some? then Failure(LookupFailed(Plain(DatabaseError))) else Success(userId in users)
    case other => Failure(BadId(other))
  }

  /** `GetUser`: parse the id, ask `CheckByID`, put its answer in `Exists`. */
  method GetUser(s: UserService, id: string) returns (r: Result<bool, GetUserError>)
    requires s.Valid()
    ensures r == GetUserAnswer(s.users, s.fault, id)
  {
    var parsed := ParseUint(id);
    if !parsed.Parsed? {
      return Failure(BadId(parsed));
    }
    var exists_ := s.CheckByID(parsed.value);
    if exists_.Failure? {
      return Failure(LookupFailed(exists_.error));
    }
    return Success(exists_.value);
  }

  /** The answer as the gRPC client sees it. */
  function AsReply(r: Result<bool, GetUserError>): OracleReply
  {
    match r
    case Success(b) => Answer(b)
    case Failure(_) => RpcFailed
  }

  /** The oracle a client of this store talks to. */
  function Oracle(users: map<nat, User>, fault: Option<string>): string -> OracleReply
  {
    id => AsReply(GetUserAnswer(users, fault, id))
  }

  /** An id that is not a decimal `uint64` is answered with an error and no lookup. */
  lemma MalformedIdIsError(users: map<nat, User>, fault: Option<string>, id: string)
    requires !ParseUint(id).Parsed?
    ensures GetUserAnswer(users, fault, id) == Failure(BadId(ParseUint(id)))
    ensures id == "" ==> GetUserAnswer(users, fault, id) == Failure(BadId(SyntaxError))
  {
  }

  /**
   * Asked with the string callers build, `strconv.Itoa(int(id))`, the
   * oracle reports exactly whether the user exists, as long as the store
   * answers and `id < 2^63`; an absent user is an answer, not an error.
   */
  lemma OracleReportsExistence(users: map<nat, User>, fault: Option<string>, id: Uint)
    ensures Oracle(users, fault)(Itoa(ToInt(id)))
            == if fault.Some? || id >= INT64_LIMIT then RpcFailed else Answer(id in users)
  {
    ItoaParseRoundTrip(id);
  }
}
