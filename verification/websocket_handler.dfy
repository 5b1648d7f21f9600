/** The protocol relay of one connection as step functions over the session
    registry: connecting creates the session and announces it, each inbound
    frame is answered by a sequence of outbound messages, and closing
    destroys the session. Each handler invocation is one atomic step; the
    executor is the `executor` parameter, which receives the history and the
    new user text. `now` stands for `new Date()`; the message handler reads
    the clock twice, `now` before the run and `later` once it has finished. */
module WebSocketHandler {
  import opened Wrappers
  import opened Types
  import opened SessionManager
  import opened ClaudeExecutor
  import opened Text
  import opened ResponseParser

  /** An inbound frame: either `JSON.parse` (or a property access on its
      result) threw with the given message, or it produced an object with
      these `type` and `content` fields. */
  datatype Inbound = Malformed(error: string) | Parsed(msgType: Option<string>, content: Option<string>)

  /** The registry after a step and the messages the step sent, in order. */
  datatype Step = Step(registry: Registry, sent: seq<Outbound>)

  /** A frame the handler acts on: type `message` with truthy content. */
  predicate IsUserMessage(m: Inbound) {
    m.Parsed? && m.msgType == Some("message") && Truthy(m.content)
  }

  /** On connection: create the session under the fresh id and send its id. */
  function Connect(r: Registry, id: string, ws: SocketHandle, now: int): (st: Step)
    ensures st.sent == [SessionAnnounce(id)]
    ensures st.registry.sessions.Keys == r.sessions.Keys + {id}
    ensures GetMessages(st.registry, id) == [] && GetSession(st.registry, id).value.websocket == ws
    ensures Fresh(r, id) ==> GetSessionCount(st.registry) == GetSessionCount(r) + 1
    ensures Valid(r) && Fresh(r, id) ==> Valid(st.registry)
  {
    Step(CreateSession(r, id, ws, now), [SessionAnnounce(id)])
  }

  /** The loop over the detected ids: registers each, in order, to `id`. */
  function RegisterAll(r: Registry, id: string, ws: seq<string>): (r': Registry)
    ensures id !in r.sessions ==> r' == r
    ensures id in r.sessions ==>
              && r'.sessions.Keys == r.sessions.Keys
              && r'.sessions[id].messages == r.sessions[id].messages
    ensures forall k | k in r.sessions && k != id :: r'.sessions[k] == r.sessions[k]
    ensures Valid(r) ==> Valid(r')
    decreases |ws|
  {
    if |ws| == 0 then r
    else RegisterAll(RegisterWorkflow(r, id, ws[0]), id, ws[1..])
  }

  /** After the loop every detected id is recorded in the session. */
  lemma {:induction false} RegisterAllRecords(r: Registry, id: string, ws: seq<string>)
    requires id in r.sessions
    ensures RegisterAll(r, id, ws).sessions[id].workflowIds == r.sessions[id].workflowIds + (set w | w in ws)
    decreases |ws|
  {
    if |ws| > 0 {
      RegisterAllRecords(RegisterWorkflow(r, id, ws[0]), id, ws[1..]);
      assert (set w | w in ws) == {ws[0]} + (set w | w in ws[1..]);
    }
  }

  /** After the loop every detected id leads to `id`, and every other index
      entry is kept. */
  lemma {:induction false} RegisterAllIndex(r: Registry, id: string, ws: seq<string>)
    requires id in r.sessions
    ensures var m := RegisterAll(r, id, ws).workflowToSession;
      && (forall w | w in ws :: w in m && m[w] == id)
      && (forall w | w in r.workflowToSession && w !in ws :: w in m && m[w] == r.workflowToSession[w])
    decreases |ws|
  {
    if |ws| > 0 {
      var r1 := RegisterWorkflow(r, id, ws[0]);
      RegisterAllIndex(r1, id, ws[1..]);
      var m := RegisterAll(r1, id, ws[1..]).workflowToSession;
      assert ws[0] !in ws[1..] ==> m[ws[0]] == id;
    }
  }

  /** One `chunk` message per yielded chunk, in order. */
  function ChunkMessages(chunks: seq<string>): (out: seq<Outbound>)
    ensures |out| == |chunks|
    ensures forall k | 0 <= k < |chunks| :: out[k] == Chunk(chunks[k])
    decreases |chunks|
  {
    if |chunks| == 0 then [] else [Chunk(chunks[0])] + ChunkMessages(chunks[1..])
  }

  /** The `message` handler of session `sid`. */
  function OnMessage(r: Registry, sid: string, m: Inbound, executor: Executor, now: int, later: int): (st: Step)
    ensures m.Malformed? ==> st == Step(r, [ErrorReply(m.error)])
    ensures m.Parsed? && m.msgType == Some("ping") ==> st == Step(r, [Pong])
    ensures m.Parsed? && !IsUserMessage(m) && m.msgType != Some("ping") ==> st == Step(r, [])
    ensures IsUserMessage(m) ==> |st.sent| >= 1
    ensures Valid(r) ==> Valid(st.registry)
  {
    match m
    case Malformed(e) => Step(r, [ErrorReply(e)])
    case Parsed(t, c) =>
      if t == Some("ping") then Step(r, [Pong])
      else if t != Some("message") || !Truthy(c) then Step(r, [])
      else
        var userContent := c.value;
        var history := GetMessages(r, sid);
        var r1 := AddMessage(r, sid, Message(User, userContent, now), now);
        match executor(history, userContent)
        case Failure(e) => Step(r1, [ErrorReply(e)])
        case Success(x) =>
          var r2 := RegisterAll(r1, sid, x.result.detectedWorkflowIds);
          var r3 := AddMessage(r2, sid, Message(Assistant, x.result.response, later), later);
          Step(r3, ChunkMessages(x.chunks) + [Complete(x.result.response, x.result.detectedWorkflowIds)])
  }

  /** A successful run: the executor sees the history from before the user
      turn; every chunk is relayed in order and then one `complete` carrying
      the result; the history grows by the user turn and then the assistant
      turn; every detected id now leads to this session; other sessions are
      untouched. The user turn carries the clock read before the run, and
      the assistant turn and the last activity the read after it. */
  lemma OnMessageSuccess(r: Registry, sid: string, m: Inbound, executor: Executor, now: int, later: int)
    requires Valid(r) && sid in r.sessions && IsUserMessage(m)
    requires executor(r.sessions[sid].messages, m.content.value).Success?
    ensures var x := executor(r.sessions[sid].messages, m.content.value).value;
      var st := OnMessage(r, sid, m, executor, now, later);
      && |st.sent| == |x.chunks| + 1
      && (forall k | 0 <= k < |x.chunks| :: st.sent[k] == Chunk(x.chunks[k]))
      && st.sent[|x.chunks|] == Complete(x.result.response, x.result.detectedWorkflowIds)
      && GetMessages(st.registry, sid)
           == r.sessions[sid].messages + [Message(User, m.content.value, now), Message(Assistant, x.result.response, later)]
      && st.registry.sessions[sid].lastActivity == later
      && (forall w | w in x.result.detectedWorkflowIds ::
            FindSessionByWorkflowId(st.registry, w) == GetSession(st.registry, sid))
      && (forall k | k in r.sessions && k != sid :: k in st.registry.sessions && st.registry.sessions[k] == r.sessions[k])
  {
    var x := executor(r.sessions[sid].messages, m.content.value).value;
    var r1 := AddMessage(r, sid, Message(User, m.content.value, now), now);
    var r2 := RegisterAll(r1, sid, x.result.detectedWorkflowIds);
    var r3 := AddMessage(r2, sid, Message(Assistant, x.result.response, later), later);
    var st := OnMessage(r, sid, m, executor, now, later);
    assert st == Step(r3, ChunkMessages(x.chunks) + [Complete(x.result.response, x.result.detectedWorkflowIds)]);
    assert sid in r1.sessions && sid in r2.sessions && Valid(r3);
    assert r2.sessions[sid].messages == r.sessions[sid].messages + [Message(User, m.content.value, now)];
    assert r3.sessions[sid].lastActivity == later;
    RegisterAllIndex(r1, sid, x.result.detectedWorkflowIds);
    assert r3.workflowToSession == r2.workflowToSession;
    forall w | w in x.result.detectedWorkflowIds
      ensures FindSessionByWorkflowId(r3, w) == GetSession(r3, sid)
    {
      assert w in r2.workflowToSession && r2.workflowToSession[w] == sid;
    }
  }

  /** A run that throws: the user turn stays, with no assistant turn after
      it, the reverse index is unchanged and exactly one `error` is sent;
      the last activity is the user turn's. */
  lemma OnMessageFailure(r: Registry, sid: string, m: Inbound, executor: Executor, now: int, later: int)
    requires sid in r.sessions && IsUserMessage(m)
    requires executor(r.sessions[sid].messages, m.content.value).Failure?
    ensures var st := OnMessage(r, sid, m, executor, now, later);
      && st.sent == [ErrorReply(executor(r.sessions[sid].messages, m.content.value).error)]
      && GetMessages(st.registry, sid) == r.sessions[sid].messages + [Message(User, m.content.value, now)]
      && st.registry.workflowToSession == r.workflowToSession
      && st.registry.sessions[sid].lastActivity == now
  {
  }

  /** A message for a session the stale sweep already destroyed: the
      executor runs on an empty history and its chunks and `complete` are
      still relayed, while adding the turns and registering the ids change
      nothing. */
  lemma OnMessageSwept(r: Registry, sid: string, m: Inbound, executor: Executor, now: int, later: int)
    requires sid !in r.sessions && IsUserMessage(m)
    requires executor([], m.content.value).Success?
    ensures var x := executor([], m.content.value).value;
      var st := OnMessage(r, sid, m, executor, now, later);
      && st.registry == r
      && st.sent == ChunkMessages(x.chunks) + [Complete(x.result.response, x.result.detectedWorkflowIds)]
  {
  }

  /** The sent messages of a relay: non-empty chunks, then one `complete`
      whose content is the chunk contents joined in order and whose ids are
      the ones found in that content. */
  predicate RelaysWhole(sent: seq<Outbound>) {
    var n := |sent| - 1;
    && n >= 0
    && (forall k | 0 <= k < n :: sent[k].Chunk? && sent[k].content != "")
    && sent[n].Complete?
    && sent[n].content == Concat(seq(n, k requires 0 <= k < n => sent[k].content))
    && sent[n].workflowIds == WorkflowIds(sent[n].content)
  }

  /** The contents of relayed chunk messages are the chunks themselves. */
  lemma ChunkContents(sent: seq<Outbound>, chunks: seq<string>)
    requires |sent| == |chunks| + 1
    requires forall k | 0 <= k < |chunks| :: sent[k] == Chunk(chunks[k])
    ensures seq(|chunks|, k requires 0 <= k < |chunks| => sent[k].content) == chunks
  {
  }

  /** Chunks relayed one by one and then their join, with its ids, form a
      whole relay. */
  lemma RelayOfChunks(sent: seq<Outbound>, chunks: seq<string>, ids: seq<string>)
    requires forall k | 0 <= k < |chunks| :: chunks[k] != ""
    requires ids == WorkflowIds(Concat(chunks))
    requires sent == ChunkMessages(chunks) + [Complete(Concat(chunks), ids)]
    ensures RelaysWhole(sent)
  {
    assert |sent| == |chunks| + 1 && sent[|chunks|] == Complete(Concat(chunks), ids);
    assert forall k | 0 <= k < |chunks| :: sent[k] == Chunk(chunks[k]);
    ChunkContents(sent, chunks);
  }

  /** Any executor whose result is its chunks joined, with the ids found in
      them, makes a successful run a whole relay. */
  lemma RelayOfConsistentRun(r: Registry, sid: string, m: Inbound, executor: Executor, now: int, later: int)
    requires Valid(r) && sid in r.sessions && IsUserMessage(m)
    requires var x := executor(r.sessions[sid].messages, m.content.value);
      && x.Success?
      && (forall k | 0 <= k < |x.value.chunks| :: x.value.chunks[k] != "")
      && x.value.result.response == Concat(x.value.chunks)
      && x.value.result.detectedWorkflowIds == WorkflowIds(x.value.result.response)
    ensures RelaysWhole(OnMessage(r, sid, m, executor, now, later).sent)
  {
    var x := executor(r.sessions[sid].messages, m.content.value).value;
    var st := OnMessage(r, sid, m, executor, now, later);
    assert GetMessages(r, sid) == r.sessions[sid].messages;
    assert st.sent == ChunkMessages(x.chunks) + [Complete(x.result.response, x.result.detectedWorkflowIds)];
    RelayOfChunks(st.sent, x.chunks, x.result.detectedWorkflowIds);
  }

  /** The relay end to end, with the executor of `ClaudeExecutor`: a run
      whose spawn does not fail is a whole relay. */
  lemma OnMessageEndToEnd(r: Registry, sid: string, m: Inbound, spawn: string -> SpawnOutcome,
                          parse: string -> Option<StreamRecord>, now: int, later: int)
    requires Valid(r) && sid in r.sessions && IsUserMessage(m)
    requires !spawn(FormatConversation(r.sessions[sid].messages, m.content.value)).SpawnFailed?
    ensures RelaysWhole(OnMessage(r, sid, m, (h, c) => Execute(h, c, spawn, parse), now, later).sent)
  {
    var executor: Executor := (h, c) => Execute(h, c, spawn, parse);
    assert executor(r.sessions[sid].messages, m.content.value)
        == Execute(r.sessions[sid].messages, m.content.value, spawn, parse);
    RelayOfConsistentRun(r, sid, m, executor, now, later);
  }

  /** On close: the connection's session is destroyed. */
  function OnClose(r: Registry, sid: string): (r': Registry)
    ensures sid !in r'.sessions
    ensures r'.sessions == r.sessions - {sid}
    ensures Valid(r) ==> Valid(r')
  {
    DestroySession(r, sid)
  }
}
