/**
 * The slice of a gin request context the handlers touch: request headers
 * and path parameters, the `userID` key, the JSON replies written, and the
 * abort flag that stops the handler chain.
 */
module Gin {
  import opened Wrappers
  import opened Strconv

  const StatusOK: int := 200
  const StatusBadRequest: int := 400
  const StatusUnauthorized: int := 401
  const StatusNotFound: int := 404
  const StatusInternalServerError: int := 500

  /**
   * A JSON reply body: `{"error": …}`, a success document with its
   * `message`, one with a `message` and an `id`, a success document whose
   * payload the handler returns beside the reply, or no body at all.
   */
  datatype Body = ErrorJson(error: string) | OkJson(message: string) | OkWithId(message: string, id: nat) | Data | NoBody

  datatype Reply = Reply(status: int, body: Body)

  /** What an authentication step decides about a request. */
  datatype Verdict =
    | Reject(status: int, error: string, abort: bool)
    | Admit(subject: Uint)

  class Context {
    const headers: map<string, string>
    const params: map<string, string>
    /** The value stored under the context key "userID". */
    var userID: Option<Uint>
    var replies: seq<Reply>
    var aborted: bool

    constructor (headers: map<string, string>, params: map<string, string>)
      ensures this.headers == headers && this.params == params
      ensures userID == None && replies == [] && !aborted
    {
      this.headers := headers;
      this.params := params;
      userID := None;
      replies := [];
      aborted := false;
    }

    /** `c.GetHeader(name)`: the empty string when the header is absent. */
    function GetHeader(name: string): string
    {
      if name in headers then headers[name] else ""
    }

    /** `c.Param(name)` */
    function Param(name: string): string
    {
      if name in params then params[name] else ""
    }

    /** `c.JSON(status, body)` */
    method JSON(status: int, body: Body)
      modifies this
      ensures replies == old(replies) + [Reply(status, body)]
      ensures userID == old(userID) && aborted == old(aborted)
    {
      replies := replies + [Reply(status, body)];
    }

    /** `c.Abort()` */
    method Abort()
      modifies this
      ensures aborted
      ensures replies == old(replies) && userID == old(userID)
    {
      aborted := true;
    }

    /** `c.AbortWithStatusJSON(status, gin.H{"error": error})` */
    method AbortWithError(status: int, error: string)
      modifies this
      ensures aborted && replies == old(replies) + [Reply(status, ErrorJson(error))]
      ensures userID == old(userID)
    {
      JSON(status, ErrorJson(error));
      Abort();
    }

    /** `c.Set("userID", id)` */
    method Set(id: Uint)
      modifies this
      ensures userID == Some(id)
      ensures replies == old(replies) && aborted == old(aborted)
    {
      userID := Some(id);
    }

    /** The recovery middleware answering a panic: status 500, no body, chain aborted. */
    method Recover()
      modifies this
      ensures aborted && replies == old(replies) + [Reply(StatusInternalServerError, NoBody)]
      ensures userID == old(userID)
    {
      JSON(StatusInternalServerError, NoBody);
      Abort();
    }
  }

  /** The effect on the context of carrying out a verdict. */
  twostate predicate Applied(c: Context, v: Verdict)
    reads c
  {
    match v
    case Reject(status, error, abort) =>
      && c.replies == old(c.replies) + [Reply(status, ErrorJson(error))]
      && c.aborted == (old(c.aborted) || abort)
      && c.userID == old(c.userID)
    case Admit(id) =>
      && c.replies == old(c.replies)
      && c.aborted == old(c.aborted)
      && c.userID == Some(id)
  }
}
