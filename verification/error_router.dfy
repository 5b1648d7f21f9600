/** The error callback: a workflow run that failed is reported with its
    workflow id; the session that owns the workflow receives the failure as a
    new user turn, and its socket, when open, is told about it. */
module ErrorRouter {
  import opened Wrappers
  import opened Text
  import opened Types
  import opened SessionManager

  /** `readyState` of an open `ws` socket. */
  const Open: int := 1

  const MissingId: string := "workflowId is required"
  const NoSession: string := "No session found for workflowId"

  /** The marker the injected text starts with. */
  const Marker: string := "[WORKFLOW ERROR]"
  /** The fixed text in front of the workflow name. */
  const Head: string := Marker + " Workflow "
  /** The fixed text after the error message. */
  const Tail: string := ". Please diagnose and fix this error using the n8n MCP tools."

  /** The HTTP reply: an error body, or `{success: true, sessionId}`. */
  datatype Reply = ErrorBody(status: nat, error: string) | Injected(sessionId: string)

  /** The registry afterwards, the reply, and what was sent to which socket. */
  datatype Outcome = Outcome(registry: Registry, reply: Reply, sent: seq<(SocketHandle, Outbound)>)

  /** The injected user turn: it starts with the error marker and ends with
      the request to fix the workflow. Each step below adds one piece of the
      template and keeps the marker at the front. */
  function ErrorText(p: ErrorCallbackPayload): (t: string)
    ensures OccursAt(t, 0, Marker) && EndsWith(t, Tail)
  {
    assert OccursAt(Marker, 0, Marker);
    OccursExtend(Marker, " Workflow ", 0, Marker);
    var t1 := Head + Shown(p.workflowName);
    OccursExtend(Head, Shown(p.workflowName), 0, Marker);
    var t2 := t1 + " (";
    OccursExtend(t1, " (", 0, Marker);
    var t3 := t2 + Shown(p.workflowId);
    OccursExtend(t2, Shown(p.workflowId), 0, Marker);
    var t4 := t3 + ") failed at node ";
    OccursExtend(t3, ") failed at node ", 0, Marker);
    var t5 := t4 + Shown(p.failedNode);
    OccursExtend(t4, Shown(p.failedNode), 0, Marker);
    var t6 := t5 + ": ";
    OccursExtend(t5, ": ", 0, Marker);
    var t7 := t6 + Shown(p.errorMessage);
    OccursExtend(t6, Shown(p.errorMessage), 0, Marker);
    OccursExtend(t7, Tail, 0, Marker);
    EndsWithConcat(t7, Tail);
    t7 + Tail
  }

  /** The POST handler. `readyState` reports the state of a socket. */
  function OnErrorCallback(r: Registry, p: ErrorCallbackPayload, readyState: SocketHandle -> int, now: int): (o: Outcome)
    ensures !Truthy(p.workflowId) ==> o == Outcome(r, ErrorBody(400, MissingId), [])
    ensures Truthy(p.workflowId) && FindSessionByWorkflowId(r, p.workflowId.value).None? ==>
              o == Outcome(r, ErrorBody(404, NoSession), [])
    ensures o.reply.Injected? <==> Truthy(p.workflowId) && FindSessionByWorkflowId(r, p.workflowId.value).Some?
    ensures |o.sent| <= 1
    ensures Valid(r) ==> Valid(o.registry)
  {
    if !Truthy(p.workflowId) then Outcome(r, ErrorBody(400, MissingId), [])
    else
      match FindSessionByWorkflowId(r, p.workflowId.value)
      case None => Outcome(r, ErrorBody(404, NoSession), [])
      case Some(s) =>
        var text := ErrorText(p);
        var r' := AddMessage(r, s.id, Message(User, text, now), now);
        var sent := if readyState(s.websocket) == Open then [(s.websocket, WorkflowError(text))] else [];
        Outcome(r', Injected(s.id), sent)
  }

  /** A known workflow: its owning session gets exactly one more turn, a
      user turn holding the error text, and nothing else changes; the socket
      is told the same text exactly when it is open; the reply names the
      session either way. */
  lemma OnErrorCallbackInjects(r: Registry, p: ErrorCallbackPayload, readyState: SocketHandle -> int, now: int)
    requires Valid(r) && Truthy(p.workflowId) && p.workflowId.value in r.workflowToSession
    ensures var sid := r.workflowToSession[p.workflowId.value];
      var s := r.sessions[sid];
      var o := OnErrorCallback(r, p, readyState, now);
      && o.reply == Injected(sid)
      && o.registry.sessions.Keys == r.sessions.Keys
      && o.registry.sessions[sid].messages == s.messages + [Message(User, ErrorText(p), now)]
      && o.registry.workflowToSession == r.workflowToSession
      && (forall k | k in r.sessions && k != sid :: o.registry.sessions[k] == r.sessions[k])
      && (o.sent == if readyState(s.websocket) == Open then [(s.websocket, WorkflowError(ErrorText(p)))] else [])
  {
  }

  /** The workflow name and then, in parentheses, the workflow id. */
  lemma ErrorTextNamesWorkflow(p: ErrorCallbackPayload)
    ensures var name := Shown(p.workflowName);
      && OccursAt(ErrorText(p), |Head|, name)
      && OccursAt(ErrorText(p), |Head| + |name| + 2, Shown(p.workflowId))
  {
    var name := Shown(p.workflowName);
    var id := Shown(p.workflowId);
    var x1 := Head + name;
    OccursBetween(Head, name, "");
    assert Head + name + "" == x1;
    var x2 := x1 + " (";
    var x3 := x2 + id;
    OccursExtend(x1, " (", |Head|, name);
    OccursExtend(x2, id, |Head|, name);
    OccursBetween(x2, id, "");
    assert x2 + id + "" == x3;
    var x4 := x3 + ") failed at node ";
    var x5 := x4 + Shown(p.failedNode);
    var x6 := x5 + ": ";
    var x7 := x6 + Shown(p.errorMessage);
    var i := |Head| + |name| + 2;
    OccursExtend(x3, ") failed at node ", |Head|, name);
    OccursExtend(x3, ") failed at node ", i, id);
    OccursExtend(x4, Shown(p.failedNode), |Head|, name);
    OccursExtend(x4, Shown(p.failedNode), i, id);
    OccursExtend(x5, ": ", |Head|, name);
    OccursExtend(x5, ": ", i, id);
    OccursExtend(x6, Shown(p.errorMessage), |Head|, name);
    OccursExtend(x6, Shown(p.errorMessage), i, id);
    OccursExtend(x7, Tail, |Head|, name);
    OccursExtend(x7, Tail, i, id);
    assert ErrorText(p) == x7 + Tail;
  }

  /** The failed node and then the error message. */
  lemma ErrorTextNamesFailure(p: ErrorCallbackPayload)
    ensures var i := |Head| + |Shown(p.workflowName)| + 2 + |Shown(p.workflowId)| + 17;
      var node := Shown(p.failedNode);
      && OccursAt(ErrorText(p), i, node)
      && OccursAt(ErrorText(p), i + |node| + 2, Shown(p.errorMessage))
  {
    var a := Head + Shown(p.workflowName) + " (" + Shown(p.workflowId) + ") failed at node ";
    var node := Shown(p.failedNode);
    var msg := Shown(p.errorMessage);
    assert |a| == |Head| + |Shown(p.workflowName)| + 2 + |Shown(p.workflowId)| + 17 by {
      assert |" ("| == 2 && |") failed at node "| == 17;
    }
    var x5 := a + node;
    OccursBetween(a, node, "");
    assert a + node + "" == x5;
    var x6 := x5 + ": ";
    var x7 := x6 + msg;
    OccursExtend(x5, ": ", |a|, node);
    OccursExtend(x6, msg, |a|, node);
    OccursBetween(x6, msg, "");
    assert x6 + msg + "" == x7;
    OccursExtend(x7, Tail, |a|, node);
    OccursExtend(x7, Tail, |x6|, msg);
    assert ErrorText(p) == x7 + Tail;
  }

  /** Two reports of the same workflow failing at the same node inject the
      same text exactly when their error messages agree. */
  lemma ErrorTextDistinguishes(p: ErrorCallbackPayload, q: ErrorCallbackPayload)
    requires p.workflowName == q.workflowName && p.workflowId == q.workflowId && p.failedNode == q.failedNode
    ensures ErrorText(p) == ErrorText(q) <==> Shown(p.errorMessage) == Shown(q.errorMessage)
  {
    var pre := Head + Shown(p.workflowName) + " (" + Shown(p.workflowId) + ") failed at node " + Shown(p.failedNode) + ": ";
    assert ErrorText(p) == pre + Shown(p.errorMessage) + Tail;
    assert ErrorText(q) == pre + Shown(q.errorMessage) + Tail;
    if ErrorText(p) == ErrorText(q) {
      var tp := ErrorText(p);
      assert |Shown(p.errorMessage)| == |Shown(q.errorMessage)|;
      assert Shown(p.errorMessage) == tp[|pre|..|pre| + |Shown(p.errorMessage)|];
    }
  }
}
