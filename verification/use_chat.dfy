/** The client's conversation: the reducer that folds server messages into
    the message list (streaming chunks, completion, injected workflow
    errors, errors), the guard on sending, and clearing. `generateId()` and
    `new Date()` are the `newId` and `now` parameters; `streamingId` is the
    reference naming the message being streamed. */
module UseChat {
  import opened Wrappers
  import opened Text
  import opened Types
  import opened ClientTypes

  datatype ChatState = ChatState(
    messages: seq<ChatMessage>,
    workflowIds: seq<string>,
    isLoading: bool,
    streamingId: Option<string>)

  /** The frame `sendMessage` passes to the socket: `{type: 'message', content}`. */
  datatype UserFrame = UserFrame(content: string)

  /** The state after a send attempt and the frame it passes on, if any. */
  datatype Sent = Sent(state: ChatState, frame: Option<UserFrame>)

  const Initial: ChatState := ChatState([], [], false, None)

  /** What every step keeps when each new id is fresh: message ids are
      unique, and a streaming marker always names a listed message. */
  predicate Valid(st: ChatState) {
    && UniqueIds(st.messages)
    && (Truthy(st.streamingId) ==> HasId(st.messages, st.streamingId.value))
  }

  /** `prev.map(msg => msg.id === id ? {...msg, content: msg.content + chunk} : msg)`. */
  function AppendChunk(ms: seq<ChatMessage>, id: string, chunk: string): (r: seq<ChatMessage>)
    ensures |r| == |ms|
    ensures forall k | 0 <= k < |ms| ::
              r[k] == if ms[k].id == id then ms[k].(content := ms[k].content + chunk) else ms[k]
    decreases |ms|
  {
    if |ms| == 0 then []
    else [if ms[0].id == id then ms[0].(content := ms[0].content + chunk) else ms[0]] + AppendChunk(ms[1..], id, chunk)
  }

  /** `prev.map(msg => msg.id === id ? {...msg, isStreaming: false} : msg)`. */
  function FinishStreaming(ms: seq<ChatMessage>, id: string): (r: seq<ChatMessage>)
    ensures |r| == |ms|
    ensures forall k | 0 <= k < |ms| :: r[k] == if ms[k].id == id then ms[k].(isStreaming := false) else ms[k]
    decreases |ms|
  {
    if |ms| == 0 then []
    else [if ms[0].id == id then ms[0].(isStreaming := false) else ms[0]] + FinishStreaming(ms[1..], id)
  }

  /** `ids.filter(id => !prev.includes(id))`. */
  function NewIds(prev: seq<string>, ids: seq<string>): (r: seq<string>)
    ensures |r| <= |ids|
    ensures forall x :: x in r <==> x in ids && x !in prev
    decreases |ids|
  {
    if |ids| == 0 then []
    else (if ids[0] in prev then [] else [ids[0]]) + NewIds(prev, ids[1..])
  }

  /** `[...prev, ...newIds]`. */
  function MergeIds(prev: seq<string>, ids: seq<string>): (r: seq<string>)
    ensures |prev| <= |r| && r[..|prev|] == prev
    ensures forall x :: x in r <==> x in prev || x in ids
  {
    prev + NewIds(prev, ids)
  }

  /** `processMessage`. */
  function ProcessMessage(st: ChatState, m: ServerMessage, newId: string, now: int): (r: ChatState)
    ensures m.msgType !in {"chunk", "complete", "workflow_error", "error"} ==> r == st
    ensures m.msgType in {"chunk", "workflow_error"} && !Truthy(m.content) ==> r == st
    ensures m.msgType in {"complete", "error"} ==> |r.messages| == |st.messages|
    ensures m.msgType in {"complete", "error"} ==> !r.isLoading && !Truthy(r.streamingId)
    ensures m.msgType == "complete" ==>
              r.workflowIds == if m.workflowIds.Some? && |m.workflowIds.value| > 0
                               then MergeIds(st.workflowIds, m.workflowIds.value) else st.workflowIds
    ensures m.msgType != "complete" ==> r.workflowIds == st.workflowIds
  {
    match m.msgType
    case "chunk" =>
      if !Truthy(m.content) then st
      else if !Truthy(st.streamingId) then
        st.(messages := st.messages + [ChatMessage(newId, Assistant, m.content.value, now, true)],
            streamingId := Some(newId))
      else
        st.(messages := AppendChunk(st.messages, st.streamingId.value, m.content.value))
    case "complete" =>
      var finished := if Truthy(st.streamingId) then
          st.(messages := FinishStreaming(st.messages, st.streamingId.value), streamingId := None)
        else st;
      var merged := if m.workflowIds.Some? && |m.workflowIds.value| > 0 then
          finished.(workflowIds := MergeIds(finished.workflowIds, m.workflowIds.value))
        else finished;
      merged.(isLoading := false)
    case "workflow_error" =>
      if !Truthy(m.content) then st
      else st.(messages := st.messages + [ChatMessage(newId, Assistant, m.content.value, now, false)])
    case "error" =>
      st.(isLoading := false, streamingId := None)
    case _ => st
  }

  /** `sendMessage`: blank input and any call while a reply is pending are
      ignored; otherwise the trimmed text becomes a user message, the
      conversation waits for the reply, and the text is sent. */
  function SendMessage(st: ChatState, content: string, newId: string, now: int): (r: Sent)
    ensures AllSpace(content) || st.isLoading ==> r == Sent(st, None)
    ensures !AllSpace(content) && !st.isLoading ==>
              && r.state.messages == st.messages + [ChatMessage(newId, User, Trim(content), now, false)]
              && r.state.isLoading
              && r.frame == Some(UserFrame(Trim(content)))
              && Trim(content) != ""
    ensures r.state.workflowIds == st.workflowIds && r.state.streamingId == st.streamingId
  {
    if Trim(content) == "" || st.isLoading then Sent(st, None)
    else
      var text := Trim(content);
      Sent(st.(messages := st.messages + [ChatMessage(newId, User, text, now, false)], isLoading := true),
           Some(UserFrame(text)))
  }

  /** `clearChat`; the reconnect it also asks for is a step of the socket. */
  function ClearChat(st: ChatState): (r: ChatState)
    ensures r.messages == [] && r.workflowIds == [] && !r.isLoading && r.streamingId.None?
    ensures Valid(r)
  {
    Initial
  }

  // ---------------------------------------------------------------------
  // Streaming

  /** The first chunk of a reply opens one new assistant message, marked
      streaming, at the end of the list. */
  lemma FirstChunkOpensMessage(st: ChatState, m: ServerMessage, newId: string, now: int)
    requires m.msgType == "chunk" && Truthy(m.content) && !Truthy(st.streamingId)
    ensures var r := ProcessMessage(st, m, newId, now);
      && r.messages == st.messages + [ChatMessage(newId, Assistant, m.content.value, now, true)]
      && r.streamingId == Some(newId)
      && r.isLoading == st.isLoading && r.workflowIds == st.workflowIds
  {
  }

  /** A later chunk extends the streaming message, and only it; the number
      of messages stays the same. */
  lemma LaterChunkExtends(st: ChatState, m: ServerMessage, newId: string, now: int, k: nat)
    requires Valid(st) && m.msgType == "chunk" && Truthy(m.content) && Truthy(st.streamingId)
    requires k < |st.messages| && st.messages[k].id == st.streamingId.value
    ensures var r := ProcessMessage(st, m, newId, now);
      && |r.messages| == |st.messages|
      && r.messages[k] == st.messages[k].(content := st.messages[k].content + m.content.value)
      && (forall j | 0 <= j < |st.messages| && j != k :: r.messages[j] == st.messages[j])
      && r.streamingId == st.streamingId
      && r.isLoading == st.isLoading && r.workflowIds == st.workflowIds
  {
  }

  /** `complete` ends the streaming message, and only it, clears the marker,
      stops waiting and appends the ids of its batch not listed yet. */
  lemma CompleteFinishes(st: ChatState, m: ServerMessage, newId: string, now: int, k: nat)
    requires Valid(st) && m.msgType == "complete" && Truthy(st.streamingId)
    requires k < |st.messages| && st.messages[k].id == st.streamingId.value
    ensures var r := ProcessMessage(st, m, newId, now);
      && |r.messages| == |st.messages|
      && r.messages[k] == st.messages[k].(isStreaming := false)
      && (forall j | 0 <= j < |st.messages| && j != k :: r.messages[j] == st.messages[j])
      && r.streamingId.None? && !r.isLoading
      && r.workflowIds == if m.workflowIds.Some? && |m.workflowIds.value| > 0
                          then MergeIds(st.workflowIds, m.workflowIds.value) else st.workflowIds
  {
  }

  /** A `workflow_error` with content adds exactly one assistant message,
      not streaming, and leaves the marker alone. */
  lemma WorkflowErrorAppends(st: ChatState, m: ServerMessage, newId: string, now: int)
    requires m.msgType == "workflow_error" && Truthy(m.content)
    ensures var r := ProcessMessage(st, m, newId, now);
      && r.messages == st.messages + [ChatMessage(newId, Assistant, m.content.value, now, false)]
      && r.streamingId == st.streamingId && r.isLoading == st.isLoading
      && r.workflowIds == st.workflowIds
  {
  }

  /** An `error` stops waiting and forgets the streaming message, which
      stays in the list as it was. */
  lemma ErrorStops(st: ChatState, m: ServerMessage, newId: string, now: int)
    requires m.msgType == "error"
    ensures var r := ProcessMessage(st, m, newId, now);
      && r.messages == st.messages && r.workflowIds == st.workflowIds
      && !r.isLoading && r.streamingId.None?
  {
  }

  /** Every step keeps the message ids unique and the marker pointing at a
      listed message, provided each generated id is new. */
  lemma ProcessMessageKeepsValid(st: ChatState, m: ServerMessage, newId: string, now: int)
    requires Valid(st) && !HasId(st.messages, newId)
    ensures Valid(ProcessMessage(st, m, newId, now))
  {
    var r := ProcessMessage(st, m, newId, now);
    if m.msgType == "chunk" && Truthy(m.content) && !Truthy(st.streamingId) {
      assert r.messages[|st.messages|].id == newId;
    } else if Truthy(st.streamingId) && m.msgType in {"chunk", "workflow_error"} {
      var k :| 0 <= k < |st.messages| && st.messages[k].id == st.streamingId.value;
      assert r.messages[k].id == st.streamingId.value;
    } else if m.msgType == "complete" && Truthy(st.streamingId) {
      assert forall j | 0 <= j < |st.messages| :: r.messages[j].id == st.messages[j].id;
    }
  }

  /** Sending keeps the same invariant. */
  lemma SendMessageKeepsValid(st: ChatState, content: string, newId: string, now: int)
    requires Valid(st) && !HasId(st.messages, newId)
    ensures Valid(SendMessage(st, content, newId, now).state)
  {
    var r := SendMessage(st, content, newId, now).state;
    if Truthy(st.streamingId) && r != st {
      var k :| 0 <= k < |st.messages| && st.messages[k].id == st.streamingId.value;
      assert r.messages[k].id == st.streamingId.value;
    }
  }

  // ---------------------------------------------------------------------
  // Workflow ids

  /** The filter distributes over concatenation: kept ids stay in the order
      they arrived in. */
  lemma {:induction false} NewIdsAppend(prev: seq<string>, a: seq<string>, b: seq<string>)
    ensures NewIds(prev, a + b) == NewIds(prev, a) + NewIds(prev, b)
    decreases |a|
  {
    if |a| == 0 {
      assert a + b == b;
    } else {
      assert (a + b)[0] == a[0] && (a + b)[1..] == a[1..] + b;
      NewIdsAppend(prev, a[1..], b);
    }
  }

  /** Merging a duplicate-free batch into a duplicate-free list gives a
      duplicate-free list. */
  lemma {:induction false} MergeIdsNoDuplicates(prev: seq<string>, ids: seq<string>)
    requires NoDuplicates(prev) && NoDuplicates(ids)
    ensures NoDuplicates(MergeIds(prev, ids))
  {
    NewIdsNoDuplicates(prev, ids);
    var added := NewIds(prev, ids);
    var r := prev + added;
    forall i, j | 0 <= i < j < |r| ensures r[i] != r[j] {
      if j >= |prev| && i < |prev| {
        assert r[j] == added[j - |prev|];
        assert r[j] in added;
      } else if i >= |prev| {
        assert r[i] == added[i - |prev|] && r[j] == added[j - |prev|];
      }
    }
  }

  lemma {:induction false} NewIdsNoDuplicates(prev: seq<string>, ids: seq<string>)
    requires NoDuplicates(ids)
    ensures NoDuplicates(NewIds(prev, ids))
    decreases |ids|
  {
    if |ids| > 0 {
      NewIdsNoDuplicates(prev, ids[1..]);
      var rest := NewIds(prev, ids[1..]);
      assert ids[0] !in ids[1..] by {
        forall k | 0 <= k < |ids[1..]| ensures ids[1..][k] != ids[0] {
          assert ids[1..][k] == ids[k + 1];
        }
      }
      assert ids[0] !in rest;
    }
  }

  /** The workflow-id list of a conversation stays duplicate-free across a
      `complete` carrying a duplicate-free batch, as the server's always is;
      the earlier ids stay in front, and every id of the batch is listed
      afterwards. */
  lemma CompleteKeepsIdsDistinct(st: ChatState, m: ServerMessage, newId: string, now: int)
    requires m.msgType == "complete" && NoDuplicates(st.workflowIds)
    requires m.workflowIds.Some? ==> NoDuplicates(m.workflowIds.value)
    ensures NoDuplicates(ProcessMessage(st, m, newId, now).workflowIds)
    ensures st.workflowIds <= ProcessMessage(st, m, newId, now).workflowIds
    ensures m.workflowIds.Some? ==>
              forall x | x in m.workflowIds.value :: x in ProcessMessage(st, m, newId, now).workflowIds
  {
    if m.workflowIds.Some? && |m.workflowIds.value| > 0 {
      MergeIdsNoDuplicates(st.workflowIds, m.workflowIds.value);
    }
  }
}
