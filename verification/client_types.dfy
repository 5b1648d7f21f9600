/** The chat client's records: its own conversation messages, activity
    events, notifications and the server messages as the client reads them.
    Timestamps are milliseconds; an optional field that may be missing is an
    `Option`. */
module ClientTypes {
  import opened Wrappers
  import opened Types

  /** A message of the chat view. An absent `isStreaming` reads as false. */
  datatype ChatMessage = ChatMessage(id: string, role: Role, content: string, timestamp: int, isStreaming: bool)

  datatype ActivityKind = ToolStart | ToolResult | StatusUpdate

  /** `result` of a finished tool call. */
  datatype ToolOutcome = ToolOutcome(success: bool, error: Option<string>)

  datatype ActivityEvent = ActivityEvent(
    id: string,
    kind: ActivityKind,
    timestamp: int,
    toolName: Option<string>,
    toolId: Option<string>,
    result: Option<ToolOutcome>,
    message: Option<string>)

  datatype NoticeKind = SuccessNotice | ErrorNotice | InfoNotice

  /** An absent `dismissed` reads as false. */
  datatype Notification = Notification(
    id: string,
    kind: NoticeKind,
    title: string,
    message: string,
    workflowId: Option<string>,
    timestamp: int,
    dismissed: bool)

  /** A parsed server message: its `type` tag and whichever fields it has. */
  datatype ServerMessage = ServerMessage(
    msgType: string,
    sessionId: Option<string>,
    content: Option<string>,
    workflowIds: Option<seq<string>>,
    error: Option<string>)

  /** No two messages share an id. */
  predicate UniqueIds(messages: seq<ChatMessage>) {
    forall i, j | 0 <= i < j < |messages| :: messages[i].id != messages[j].id
  }

  /** Some message of the list has this id. */
  predicate HasId(messages: seq<ChatMessage>, id: string) {
    exists k | 0 <= k < |messages| :: messages[k].id == id
  }
}
