/** The server's records: conversation turns, sessions, executor results, the
    outbound wire messages and the two HTTP request bodies. */
module Types {
  import opened Wrappers

  /** A connection handle, used only to address outbound messages. */
  type SocketHandle = nat

  datatype Role = User | Assistant

  /** One conversation turn; timestamps are milliseconds. */
  datatype Message = Message(role: Role, content: string, timestamp: int)

  datatype Session = Session(
    id: string,
    websocket: SocketHandle,
    messages: seq<Message>,
    workflowIds: set<string>,
    createdAt: int,
    lastActivity: int)

  /** What the executor returns once its output is exhausted. */
  datatype ExecutionResult = ExecutionResult(response: string, detectedWorkflowIds: seq<string>)

  /** Server-to-client messages, one constructor per `type` tag. */
  datatype Outbound =
    | SessionAnnounce(sessionId: string)
    | Pong
    | Chunk(content: string)
    | Complete(content: string, workflowIds: seq<string>)
    | ErrorReply(error: string)
    | WorkflowError(content: string)

  /** Body of a POST to the error callback; a missing JSON field is `None`. */
  datatype ErrorCallbackPayload = ErrorCallbackPayload(
    workflowId: Option<string>,
    workflowName: Option<string>,
    errorMessage: Option<string>,
    failedNode: Option<string>,
    executionId: Option<string>,
    timestamp: Option<string>)

  /** Body of a POST to the fix endpoint. */
  datatype FixRequest = FixRequest(
    workflowId: Option<string>,
    workflowName: Option<string>,
    errorMessage: Option<string>,
    failedNode: Option<string>,
    executionId: Option<string>)
}
