/** Shapes of the gRPC calls between the services, as their callers receive them. */
module Rpc {

  /**
   * The identity service's answer to `GetUser`, as seen by its client: the
   * call failed (any gRPC error: bad id, database fault, network, timeout),
   * or it returned a response carrying `Exists`.
   */
  datatype OracleReply = RpcFailed | Answer(userExists: bool)

  /** A unary gRPC call: a transport error with its text, or the response message. */
  datatype Call<T> = TransportError(message: string) | Delivered(response: T)
}
