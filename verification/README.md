# Forgeflow core, modelled in Dafny

Forgeflow is a chat front end for building n8n workflows with an AI assistant. It has two halves, and this project models the logic of both.

The server half:
- keeps one session per browser connection;
- relays each user turn to the assistant's command-line process and streams the reply back;
- scans the reply for workflow ids and binds each id to the session;
- injects failure reports from n8n into the owning session (the error callback);
- runs an automatic "fix this workflow" request and reads the summary block out of the reply.

The client half:
- folds the server's messages into a conversation;
- keeps an activity log with a status line and dismissable notifications;
- gives tools readable names;
- reconnects the socket with exponential back-off.

Every operation is a pure function over immutable data. The session registry, the conversation, the activity panel and the socket each have a `Valid` invariant that the operations preserve.

What the model does not compute itself comes in as a parameter:
- the new id;
- the clock (`now`);
- `JSON.parse` (a function returning an `Option`);
- the assistant's process (a function from transcript to outcome);
- the socket's `readyState`.

A timer is the delay a step asks for. Its firing is another step. A socket close that schedules no retry asks for no delay (`None`).

Files, one module each:
- `wrappers.dfy`: `Option`, `Result`, JavaScript truthiness, `||` defaults.
- `text.dfy`: the JavaScript string operations the code uses, with their laws: `trim`, `split`, `join`, `includes`, first-occurrence `replace`.
- `types.dfy`, `client_types.dfy`: the server's and the client's records.
- `session_manager.dfy`: the session registry.
- `response_parser.dfy`, `response_parser_examples.dfy`: the workflow-id extractor and its documented examples.
- `claude_executor.dfy`: the transcript, the stream-line classifier and the executor's result.
- `websocket_handler.dfy`: the connection handler.
- `error_router.dfy`: the error callback.
- `fix_api.dfy`: the fix endpoint.
- `tool_display_names.dfy`: tool names and status lines.
- `use_activity.dfy`, `use_chat.dfy`, `use_websocket.dfy`: the three client hooks.

## Model

| member | source | states |
|---|---|---|
| SessionManager.GetSessionCount | src/session-manager.ts:86-88 | the count is zero exactly when no session is live |
| SessionManager.CreateSession | src/session-manager.ts:11-24 | the new session holds no turns and no workflows, has both times set to `now` and the given socket; other sessions and the reverse index are untouched; a fresh id raises the count by one and keeps the registry valid |
| SessionManager.GetSession | src/session-manager.ts:26-28 | a session is returned exactly when one is stored under the id, and it is that session |
| SessionManager.FindSessionByWorkflowId | src/session-manager.ts:30-36 | an unindexed workflow gives null; a hit is the session the index names; in a valid registry every indexed workflow leads to a live session that holds it |
| SessionManager.RegisterWorkflow | src/session-manager.ts:38-45 | on a live session, adds the workflow to its set and points the index at it, overwriting an earlier owner; an absent session changes nothing; other sessions are unchanged and validity is kept |
| SessionManager.AddMessage | src/session-manager.ts:47-53 | appends exactly one turn at the end of a live session's history and sets its last activity; nothing else changes; an absent session is a no-op |
| SessionManager.GetMessages | src/session-manager.ts:55-58 | the stored history, or the empty list for an unknown id |
| SessionManager.DestroySession | src/session-manager.ts:60-69 | removes the session and the index entries of all its workflows, so none of them is found any more; the count drops by one; an absent id is a no-op; validity is kept |
| SessionManager.DestroyAllStep | src/session-manager.ts:74-77 | destroying one more session extends the destroyed set by it |
| SessionManager.CleanupStale | src/session-manager.ts:71-84 | the sweep loop destroys exactly the sessions idle for strictly longer than the timeout and returns their number |
| SessionManager.CleanupStaleEffect | src/session-manager.ts:71-84 | after the sweep a session survives exactly when it is not stale; survivors are unchanged; the count drops by the number of stale sessions; validity is kept |
| SessionManager.LastWriterWins | src/session-manager.ts:38-45 | re-registering a workflow to a second session leaves it in the first session's set, so destroying the first session unbinds it although the second still holds it |
| ResponseParser.Run | src/response-parser.ts:4-10 | the capture class `[a-zA-Z0-9_-]+` is a maximal run that stays inside the text |
| ResponseParser.ExecFindsFirst | src/response-parser.ts:19 | `exec` returns the match at the first start position that has one |
| ResponseParser.ExecFindsNone | src/response-parser.ts:19 | with no match at any start position from `lastIndex` on, `exec` returns null |
| ResponseParser.JsonPatternsNeedExactIdKey | src/response-parser.ts:9-10 | the two JSON-shaped patterns are case-sensitive: without the exact key `"id":` they capture nothing |
| ResponseParser.CapturesShape | src/response-parser.ts:4-10 | every capture of every match is a non-empty run of id characters |
| ResponseParser.RecordAllProperties | src/response-parser.ts:14-22 | recording keeps a duplicate-free list duplicate-free and adds exactly the candidates of length at least three |
| ResponseParser.RecordAllOrder | src/response-parser.ts:14-27 | recorded ids keep the order of their first appearance among the candidates |
| ResponseParser.RecordMatches | src/response-parser.ts:17-24 | one pattern's `exec` loop records the captures of all its successive matches |
| ResponseParser.ParseWorkflowIds | src/response-parser.ts:13-34 | the result has no duplicates; every id has at least three characters, all from `[A-Za-z0-9_-]`; an id is returned exactly when some pattern captures it; text never mentioning "workflow" gives the empty list |
| ResponseParser.FirstMatchRecorded | src/response-parser.ts:16-25 | the first match of any pattern is returned when its capture has at least three characters |
| ResponseParserExamples.CreatedWorkflowExample | src/__tests__/response-parser.test.ts:15-19 | "I have Created workflow: ID for you." yields ID, for every id |
| ResponseParserExamples.UpdatedWorkflowExample | src/__tests__/response-parser.test.ts:21-25 | "Updated workflow: ID successfully." yields ID |
| ResponseParserExamples.SentenceExample | src/__tests__/response-parser.test.ts:27-31 | "The workflow ID has been created." yields ID |
| ResponseParserExamples.WorkflowIdKeyExample | src/__tests__/response-parser.test.ts:33-37 | `workflowId: "ID"` yields ID without its quotes |
| ResponseParserExamples.WorkflowIdSnakeExample | src/__tests__/response-parser.test.ts:39-43 | "workflow_id: ID" yields ID |
| ResponseParserExamples.UpperCaseExample | src/__tests__/response-parser.test.ts:74-78 | "CREATED WORKFLOW: ID" yields ID: the keyword patterns ignore case |
| ResponseParserExamples.JsonExample | src/response-parser.ts:9 | `"id": "ID", "type": "workflow"` yields ID |
| ClaudeExecutor.Turns | src/claude-executor.ts:10-16 | one labelled part per history turn, in order: "Human: " for user turns, "Assistant: " for all others |
| ClaudeExecutor.FormatConversation | src/claude-executor.ts:7-21 | the transcript always ends with the new message as a human turn; with no history it is exactly that turn, and otherwise it is the joined history turns, a blank line, then that turn |
| ClaudeExecutor.FormatConversationParts | src/claude-executor.ts:7-21 | when no turn contains a line break, the transcript splits at the blank lines into the labelled history turns followed by the new human turn |
| ClaudeExecutor.FirstText | src/claude-executor.ts:47-53 | no text is found exactly when no block is a text block with truthy text; a found text is non-empty |
| ClaudeExecutor.FirstTextIs | src/claude-executor.ts:48-52 | the first accepted block wins and later blocks are ignored |
| ClaudeExecutor.ProcessLine | src/claude-executor.ts:41-67 | a blank line or an unparseable line gives nothing; any result is non-empty |
| ClaudeExecutor.ProcessLineRecord | src/claude-executor.ts:47-66 | an `assistant` record gives its first text block; a `content_block_delta` or `message_delta` record gives its truthy delta text; every other record gives nothing |
| ClaudeExecutor.Execute | src/claude-executor.ts:69-107 | a spawn error rejects with that error; otherwise every chunk is non-empty, the response is the chunks concatenated in order, and the detected ids are those the extractor finds in the response, whatever the exit code |
| ClaudeExecutor.ExecuteClaudeCommand | src/claude-executor.ts:93-107 | the line loop yields the classified text of each output line in order and accumulates exactly their concatenation |
| WebSocketHandler.Connect | src/websocket-handler.ts:7-14 | one session is created under the new id, with no turns and this socket, and the only message sent announces its id |
| WebSocketHandler.RegisterAllRecords | src/websocket-handler.ts:59-61 | after the loop the session holds every detected id |
| WebSocketHandler.RegisterAllIndex | src/websocket-handler.ts:59-61 | after the loop every detected id leads to the session, and other index entries are unchanged |
| WebSocketHandler.ChunkMessages | src/websocket-handler.ts:44-55 | one `chunk` message per yielded chunk, in order |
| WebSocketHandler.OnMessage | src/websocket-handler.ts:16-88 | a frame that does not parse sends one `error`; a ping sends one `pong` and changes nothing; another type or missing content sends nothing and changes nothing; validity is kept |
| WebSocketHandler.OnMessageSuccess | src/websocket-handler.ts:29-74 | the executor sees the history from before the user turn; the chunks are relayed in order, then one `complete` with the response and ids; the history gains the user turn, stamped with the clock read before the run, and then the assistant turn, stamped with the read after it, which is also the last activity; every detected id leads to this session; other sessions are untouched |
| WebSocketHandler.OnMessageFailure | src/websocket-handler.ts:32-87 | a failed run leaves the user turn without an assistant turn, leaves the index alone, keeps the user turn's time as the last activity and sends exactly one `error` carrying the message |
| WebSocketHandler.OnMessageSwept | src/websocket-handler.ts:29-74 | for a session already swept away the executor runs on an empty history, its chunks and `complete` are still relayed, and the registry is unchanged |
| WebSocketHandler.RelayOfConsistentRun | src/websocket-handler.ts:40-74 | for any executor whose response is its non-empty chunks joined and whose ids are the ones found in that text, a successful run sends those chunks and then one `complete` whose content is the relayed chunk contents joined in order and whose ids are the ones found in that content |
| WebSocketHandler.OnMessageEndToEnd | src/websocket-handler.ts:40-74 | with the command-line executor, and a process that starts, the connection receives non-empty chunks and then one `complete` holding their concatenation and exactly the workflow ids found in it |
| WebSocketHandler.OnClose | src/websocket-handler.ts:90-93 | the connection's session is destroyed and validity is kept |
| ErrorRouter.OnErrorCallback | src/error-router.ts:10-49 | a missing workflow id gives 400 and an unknown one 404, both with no change; the error is injected exactly when a session is found; at most one message is sent; validity is kept |
| ErrorRouter.OnErrorCallbackInjects | src/error-router.ts:19-48 | the owning session gains exactly one user turn with the error text and nothing else changes; the socket gets a `workflow_error` with that text exactly when it is open; the reply names the session either way |
| ErrorRouter.ErrorText | src/error-router.ts:27 | the injected text starts with `[WORKFLOW ERROR]` and ends with the request to fix the error with the n8n tools |
| ErrorRouter.ErrorTextNamesWorkflow | src/error-router.ts:27 | the text names the workflow and then, in parentheses, its id |
| ErrorRouter.ErrorTextNamesFailure | src/error-router.ts:27 | the text names the failed node and then the error message |
| ErrorRouter.ErrorTextDistinguishes | src/error-router.ts:27 | for the same workflow and node, two texts are equal exactly when the error messages are |
| FixApi.BuildFixPrompt | src/fix-api.ts:7-41 | when no value contains `{` or `$`, the prompt is the template with each placeholder replaced by its value verbatim, and `Unknown` for an empty or absent name, node or execution id |
| FixApi.FenceBody | src/fix-api.ts:44 | the capture of the fenced JSON block is lazy: it ends at the first whitespace-then-fence after the opening fence |
| FixApi.FenceBodyReadsBlock | src/fix-api.ts:44 | a response holding one summary block in the requested layout, with no backquote before or in it, gives back exactly the block's body |
| FixApi.ParseFixSummary | src/fix-api.ts:43-64 | every field is non-empty; with no block, or a block that does not parse, the result is the three fallback texts |
| FixApi.ParseFixSummaryReadsBlock | src/fix-api.ts:46-53 | a block whose three fields are filled is read back field for field |
| FixApi.OnFix | src/fix-api.ts:69-133 | the request is rejected with 400 exactly when the workflow id or the error message is missing; success echoes the workflow id; a failure is a 500 with the fixed failure texts |
| FixApi.OnFixRejectsWithoutRunning | src/fix-api.ts:72-79 | a rejected request never depends on the executor |
| FixApi.OnFixRuns | src/fix-api.ts:87-133 | a valid request runs the executor once, on the built prompt with an empty history; success carries the response and its summary, failure carries the error |
| Text.Split | src/claude-executor.ts:93 | joining the parts back with the separator gives the text; no part contains the separator; there is more than one part exactly when the separator occurs, and the first cut is at its leftmost occurrence |
| Text.SplitJoin | src/claude-executor.ts:20 | parts that cannot start the separator split back out of their join |
| Text.Trim | chat-ui/src/hooks/useChat.ts:109-114 | the result is empty exactly for all-whitespace text; otherwise it starts and ends with a non-space and is a slice of the text with only whitespace cut off |
| Text.ReplaceFirst | src/fix-api.ts:35-40 | a text without the placeholder is returned unchanged |
| Text.ReplaceFirstAfterBraceFree | src/fix-api.ts:35-40 | when nothing before the placeholder can open another one and the value holds no `$`, exactly that occurrence is replaced by the value |
| ToolDisplayNames.TablesShareKeys | chat-ui/src/utils/toolDisplayNames.ts:2-74 | both tables list exactly the same tools, and every entry is non-empty |
| ToolDisplayNames.WorkflowToolVerbsFollowNames | chat-ui/src/utils/toolDisplayNames.ts:42-50 | for the workflow tools of the n8n server, the status line is the display name followed by `...` |
| ToolDisplayNames.McpToolVerbsFollowNames | chat-ui/src/utils/toolDisplayNames.ts:51-61 | the same for the other n8n server tools |
| ToolDisplayNames.FileToolVerbsFollowNames | chat-ui/src/utils/toolDisplayNames.ts:62-67 | the same for the file and shell tools |
| ToolDisplayNames.AgentToolVerbsFollowNames | chat-ui/src/utils/toolDisplayNames.ts:68-73 | the same for the other built-in tools, except the question tool |
| ToolDisplayNames.DisplayName | chat-ui/src/utils/toolDisplayNames.ts:79-95 | an unlisted name without the `mcp__` prefix is shown formatted as a whole |
| ToolDisplayNames.DisplayNameListed | chat-ui/src/utils/toolDisplayNames.ts:80-82 | a listed tool is shown by its table entry |
| ToolDisplayNames.DisplayNameOfMcpTool | chat-ui/src/utils/toolDisplayNames.ts:85-91 | an unlisted `mcp__server__tool` name whose server and tool parts hold no `__`, and whose server part does not end in `_`, splits into three parts and is shown as its tool part, formatted; underscores inside the parts are allowed |
| ToolDisplayNames.ActiveVerb | chat-ui/src/utils/toolDisplayNames.ts:100-108 | for every tool except the question tool, the status line is the display name followed by `...` |
| ToolDisplayNames.AskToolStatus | chat-ui/src/utils/toolDisplayNames.ts:72 | the question tool is the exception: shown as "Asking question", its status is "Waiting for input..." |
| ToolDisplayNames.UnderscoresToSpaces | chat-ui/src/utils/toolDisplayNames.ts:116 | every underscore becomes a space and every other character stays |
| ToolDisplayNames.SpaceCamelSeparates | chat-ui/src/utils/toolDisplayNames.ts:117 | after the camel-case pass no lowercase letter is directly followed by an uppercase one |
| ToolDisplayNames.SpaceCamelKeepsText | chat-ui/src/utils/toolDisplayNames.ts:117 | the camel-case pass only inserts spaces |
| ToolDisplayNames.UpperFirst | chat-ui/src/utils/toolDisplayNames.ts:118 | the first character becomes its upper case, unless it is a line terminator, which `.` does not match; every later character and the length stay the same |
| ToolDisplayNames.FormatToolName | chat-ui/src/utils/toolDisplayNames.ts:113-120 | the formatted name has no underscore, no whitespace at either end, and no lowercase letter directly before an uppercase one |
| ToolDisplayNames.FormatToolNameCapitalizes | chat-ui/src/utils/toolDisplayNames.ts:113-120 | a name starting with a lowercase letter comes out starting with that letter in uppercase |
| ToolDisplayNames.FormatToolNameKeepsText | chat-ui/src/utils/toolDisplayNames.ts:113-120 | for a name without whitespace that does not start with `_`, the formatted name with its spaces dropped is the first character upper-cased followed by the rest of the name without its underscores: no letter is lost, changed or reordered |
| ToolDisplayNames.IsN8nTool | chat-ui/src/utils/toolDisplayNames.ts:125-127 | a name is an n8n tool exactly when it can be cut into some text, `n8n` and some text |
| ToolDisplayNames.N8nServerToolsAreN8nTools | chat-ui/src/utils/toolDisplayNames.ts:125-127 | every tool of the n8n server counts as an n8n tool |
| ToolDisplayNames.NotN8nToolWithoutN | chat-ui/src/utils/toolDisplayNames.ts:125-127 | a name without an `n` never does |
| ToolDisplayNames.IsWorkflowTool | chat-ui/src/utils/toolDisplayNames.ts:132-134 | a name is a workflow tool exactly when it can be cut into some text, `workflow` or `Workflow`, and some text |
| ToolDisplayNames.WorkflowToolsMention | chat-ui/src/utils/toolDisplayNames.ts:132-134 | a name containing `workflow` or `Workflow` is a workflow tool |
| ToolDisplayNames.NotWorkflowToolWithoutW | chat-ui/src/utils/toolDisplayNames.ts:132-134 | a name with neither `w` nor `W` is not, since the test is case-sensitive |
| UseActivity.Prepend | chat-ui/src/hooks/useActivity.ts:52-59 | the event goes first and the earlier log follows, cut so that at most 100 entries remain |
| UseActivity.AddActivity | chat-ui/src/hooks/useActivity.ts:41-60 | a `tool_start` naming a tool sets the status to that tool's status line; a `tool_result` clears it; anything else leaves it; the log is non-empty, capped at 100 and starts with the event; validity is kept |
| UseActivity.LogIsNewestFirst | chat-ui/src/hooks/useActivity.ts:52-59 | after any run of events the log is the events newest first, followed by the earlier log, cut to 100 |
| UseActivity.AddNotification | chat-ui/src/hooks/useActivity.ts:62-84 | a notification whose id is listed leaves the list unchanged; any other goes to the front; the dismissal delay is 8000 ms for errors and 5000 ms otherwise; nothing but the notifications changes; ids stay unique |
| UseActivity.RemoveNotice | chat-ui/src/hooks/useActivity.ts:101 | the filter keeps exactly the notifications with another id |
| UseActivity.MarkDismissed | chat-ui/src/hooks/useActivity.ts:95-97 | exactly the notifications with that id are marked dismissed, and the list keeps its length |
| UseActivity.RemoveNotification | chat-ui/src/hooks/useActivity.ts:100-102 | the removal after the fade-out leaves exactly the notifications with another id and changes nothing else; ids stay unique |
| UseActivity.DismissNotification | chat-ui/src/hooks/useActivity.ts:86-103 | marks the notification, changes nothing else and asks for the 300 ms fade-out; ids stay unique |
| UseActivity.MarkThenRemove | chat-ui/src/hooks/useActivity.ts:95-102 | marking before removing removes exactly what removing alone would |
| UseActivity.DismissTouchesOnlyItsNotice | chat-ui/src/hooks/useActivity.ts:95-102 | after the fade-out every other notification is still there and none with the id is left |
| UseActivity.ToggleExpanded | chat-ui/src/hooks/useActivity.ts:105-107 | only the expanded flag changes, and it flips |
| UseActivity.ClearActivities | chat-ui/src/hooks/useActivity.ts:109-113 | the log, the status and the active tool are cleared; the notifications and the expanded flag are kept |
| UseActivity.ClearAll | chat-ui/src/hooks/useActivity.ts:115-121 | the notifications are emptied too, and the result is valid |
| UseChat.ProcessMessage | chat-ui/src/hooks/useChat.ts:29-99 | unknown types, and chunks or workflow errors without content, change nothing; `complete` and `error` keep the number of messages, stop loading and clear the streaming marker; `complete` with a non-empty batch merges it into the workflow ids, and no other message changes them |
| UseChat.FirstChunkOpensMessage | chat-ui/src/hooks/useChat.ts:31-46 | with no streaming message, a chunk appends one streaming assistant message holding it, and that message becomes the streaming one |
| UseChat.LaterChunkExtends | chat-ui/src/hooks/useChat.ts:47-56 | a later chunk extends the streaming message, and only it, keeping the number of messages, the marker, the loading flag and the workflow ids |
| UseChat.CompleteFinishes | chat-ui/src/hooks/useChat.ts:60-78 | `complete` ends the streaming message, and only it, then clears the marker, stops loading and appends the batch's ids not listed yet |
| UseChat.WorkflowErrorAppends | chat-ui/src/hooks/useChat.ts:80-92 | a workflow error with content appends exactly one non-streaming assistant message and keeps the marker, the loading flag and the workflow ids |
| UseChat.ErrorStops | chat-ui/src/hooks/useChat.ts:94-97 | an error stops loading and clears the marker without touching the messages |
| UseChat.ProcessMessageKeepsValid | chat-ui/src/hooks/useChat.ts:29-99 | with a fresh id, message ids stay unique and the marker keeps naming a listed message |
| UseChat.MergeIds | chat-ui/src/hooks/useChat.ts:71-76 | the earlier ids stay in front, in order; an id is in the result exactly when it was before or is in the batch |
| UseChat.NewIdsAppend | chat-ui/src/hooks/useChat.ts:73 | the filter distributes over concatenation, so new ids keep their order |
| UseChat.MergeIdsNoDuplicates | chat-ui/src/hooks/useChat.ts:71-76 | merging a duplicate-free batch into a duplicate-free list gives a duplicate-free list |
| UseChat.CompleteKeepsIdsDistinct | chat-ui/src/hooks/useChat.ts:60-78 | across a `complete` the workflow-id list stays duplicate-free, keeps its earlier ids as a prefix and lists every id of the batch |
| UseChat.SendMessage | chat-ui/src/hooks/useChat.ts:107-127 | blank input, or any call while loading, changes nothing and sends nothing; otherwise one user message with the trimmed text is appended, loading starts, and the trimmed text is sent |
| UseChat.SendMessageKeepsValid | chat-ui/src/hooks/useChat.ts:107-127 | with a fresh id, sending keeps the ids unique |
| UseChat.ClearChat | chat-ui/src/hooks/useChat.ts:129-135 | messages and workflow ids are emptied, loading stops, the marker is cleared |
| UseWebSocket.Backoff | chat-ui/src/hooks/useWebSocket.ts:63 | every reconnect delay lies between 1000 and 30000 ms |
| UseWebSocket.BackoffMonotone | chat-ui/src/hooks/useWebSocket.ts:63 | a later attempt never waits less |
| UseWebSocket.BackoffSchedule | chat-ui/src/hooks/useWebSocket.ts:63 | the first five attempts wait 1000 ms times a power of two; from attempt five on the delay is 30000 ms |
| UseWebSocket.Connect | chat-ui/src/hooks/useWebSocket.ts:24-33 | nothing changes while the current socket is open; otherwise a new socket becomes current, the status is connecting and the error is cleared; nothing else changes |
| UseWebSocket.OnOpen | chat-ui/src/hooks/useWebSocket.ts:35-38 | the socket is open, the status is connected and the attempt counter is 0; nothing else changes |
| UseWebSocket.OnMessage | chat-ui/src/hooks/useWebSocket.ts:40-52 | unparseable data changes nothing; a parsed message becomes the last message; a `session` message with a truthy id sets the session id, and any other message keeps it; nothing else changes |
| UseWebSocket.OnError | chat-ui/src/hooks/useWebSocket.ts:54-56 | only the error changes, to the connection error |
| UseWebSocket.OnCloseAsWritten | chat-ui/src/hooks/useWebSocket.ts:58-70 | whichever socket closed, the reference is cleared, the status is `reconnecting`, the counter rises by one, the closed socket is recorded closed, nothing else changes, and the retry waits the back-off of the count before the close |
| UseWebSocket.OnClose | chat-ui/src/hooks/useWebSocket.ts:58-70 | the current socket's close clears the reference, raises the counter by one and asks for the back-off delay of the count before it; the close of a socket already replaced only records it and schedules no retry |
| UseWebSocket.Send | chat-ui/src/hooks/useWebSocket.ts:73-79 | the frame goes out exactly when the current socket is open; otherwise only the error changes, to "WebSocket is not connected" |
| UseWebSocket.Reconnect | chat-ui/src/hooks/useWebSocket.ts:81-90 | the counter is reset to 0, the old socket is closing, a new socket is current and the error is cleared; the session id and the last message are kept |
| UseWebSocket.FailedTriesBackOff | chat-ui/src/hooks/useWebSocket.ts:58-70 | after n tries that close before opening, the counter has risen by n and the delays follow the back-off schedule from the count before |
| UseWebSocket.FailedTriesWaitLonger | chat-ui/src/hooks/useWebSocket.ts:58-70 | so such a run never shortens its waits |
| UseWebSocket.StaleCloseLosesSocket | chat-ui/src/hooks/useWebSocket.ts:58-90 | as written, after a manual reconnect the old socket's close drops the new socket: once it opens, the status says connected but a send fails |
| UseWebSocket.StaleCloseIgnored | chat-ui/src/hooks/useWebSocket.ts:58-90 | when only the current socket's close is handled, the same sequence sends over the new socket |

## Findings

| source | as written | input that shows it | evidently intended | confidence | as-written member | corrected member |
|---|---|---|---|---|---|---|
| chat-ui/src/hooks/useWebSocket.ts:58-90 | `reconnect` closes the old socket and creates a new one. The old socket's `onclose` still runs later: it sets the reference, which now holds the new socket, to null and schedules yet another connect. | Connected socket 1. Call `reconnect()` (as `clearChat` does), so socket 2 becomes current. Socket 1's close event then fires, and socket 2 opens. The status now reads connected, yet `send` reports "WebSocket is not connected" until the retry timer creates socket 3. Socket 2 stays open with no owner. | The close of a socket that is no longer current is ignored. | medium, not executed | UseWebSocket.OnCloseAsWritten, UseWebSocket.StaleCloseLosesSocket | UseWebSocket.OnClose, UseWebSocket.StaleCloseIgnored |

## Left out

- I/O and plumbing. Everything below is left out:
  - Express routing and HTTP status plumbing beyond the status numbers;
  - the `ws` transport;
  - the server bootstrap and the periodic sweep timer;
  - the logger;
  - environment configuration.

  Replies and sent messages are values, and the idle timeout is a parameter.
- Stream piping. The assistant's process is a function from the transcript to its whole output and exit code, or a spawn error. Output piping and stderr logging are left out.
- `JSON.parse` and `JSON.stringify`: parsing is a function parameter returning an `Option`, and outbound messages are datatypes.
- Generated values: uuids, `Math.random` ids, `new Date()` and `Date.now()` are parameters.
- Freshness of generated ids: where an invariant needs a fresh id, it is a precondition.
- Timers: `setTimeout` and `clearTimeout` are not modelled. Each step returns the delay it asks for, and the timer's firing is the step it would run. This also covers:
  - cancelling a pending retry in `reconnect`;
  - the dismissal-timer map in the activity hook;
  - the unmount cleanups.
- Regular expressions are hand-written matchers. `\s` and `trim` use the full ECMAScript whitespace and line-terminator set. Case mapping is ASCII only:
  - the `i` flag folds ASCII letters only;
  - `toUpperCase` on the first character of a tool name maps ASCII letters only.

  Unicode case mapping is not modelled.
- Table lookups. A lookup in a tool table finds only the listed names. Keys inherited from the JavaScript object prototype, such as `toString`, are not modelled.
- UseChat.ProcessMessage reads the streaming marker when the message is processed. React may run a `setMessages` updater later, and by then line 69 of `useChat.ts` has reset the marker. That would leave the streaming flag set. The deferred evaluation of updaters is not modelled.
- Batching: `useChat` gets the socket's last message through a React effect. The model processes every message; with batching, an effect run can be skipped.
- UseWebSocket.OnClose: the status is set to `disconnected` and then to `reconnecting` in the same handler, so only `reconnecting` is kept.
- Absent flags: an absent `isStreaming` or `dismissed` flag reads as false. An absent field in the error callback is shown as `undefined`.
- Error messages: a thrown error's message stands in for `error.message`. The `'Unknown error'` text for a thrown non-`Error` value is not distinguished.
- UseChat.MergeIds filters the batch only against the earlier list, as the source does. A batch that repeats an id adds it twice. The server's lists are duplicate-free, so CompleteKeepsIdsDistinct assumes a duplicate-free batch.
- WebSocketHandler.OnMessage is one atomic step, but the source awaits the executor between the user turn and the registration and assistant turn. An error-callback injection, a close or a stale sweep can land in that gap. An injection would then sit between the two turns, and a close or sweep would make both later updates no-ops. OnMessageSuccess describes the run with nothing in between, and OnMessageSwept the case where the sweep came first.
- Rendering: the React components are presentation only and are not modelled.
- Unmount: `useWebSocket` also closes its socket on unmount. That socket's close then schedules a retry; this is not modelled.
- Duplicate notifications: UseActivity.AddNotification returns a dismissal delay for a duplicate, so the second timer is represented. What is not modelled is useActivity.ts:83: the timer map keeps only the later handle, so `dismissNotification` can cancel only that timer, and the first one still fires.
