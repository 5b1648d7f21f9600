/** The session registry: live sessions by id, plus a reverse index from
    workflow id to the session that registered it last. Every operation is a
    pure function from registry to registry; `Valid` is the invariant they
    all preserve. Wall-clock time is the `now` parameter and the uuid
    generator is the `id` parameter of `CreateSession`. */
module SessionManager {
  import opened Wrappers
  import opened Types

  datatype Registry = Registry(sessions: map<string, Session>, workflowToSession: map<string, string>)

  const Empty: Registry := Registry(map[], map[])

  /** The default idle timeout, one hour in milliseconds. */
  const DefaultSessionTimeoutMs: int := 60 * 60 * 1000

  /** Every session is stored under its own, non-empty id, and every reverse
      entry `w -> s` names a live session whose workflow set holds `w`. */
  predicate Valid(r: Registry) {
    && "" !in r.sessions
    && (forall id | id in r.sessions :: r.sessions[id].id == id)
    && (forall w | w in r.workflowToSession ::
          r.workflowToSession[w] in r.sessions
          && w in r.sessions[r.workflowToSession[w]].workflowIds)
  }

  /** What the uuid generator guarantees of a new id. */
  predicate Fresh(r: Registry, id: string) {
    id != "" && id !in r.sessions
  }

  /** `getSessionCount`: the number of live sessions, zero exactly when
      there are none. */
  function GetSessionCount(r: Registry): (n: nat)
    ensures n == 0 <==> r.sessions == map[]
  {
    |r.sessions|
  }

  /** Stores an empty session under `id`; with a fresh id the count rises by
      one and nothing else changes. */
  function CreateSession(r: Registry, id: string, ws: SocketHandle, now: int): (r': Registry)
    ensures id in r'.sessions
    ensures r'.sessions[id].id == id && r'.sessions[id].websocket == ws
    ensures r'.sessions[id].messages == [] && r'.sessions[id].workflowIds == {}
    ensures r'.sessions[id].createdAt == now && r'.sessions[id].lastActivity == now
    ensures forall k | k in r.sessions && k != id :: k in r'.sessions && r'.sessions[k] == r.sessions[k]
    ensures r'.sessions.Keys == r.sessions.Keys + {id}
    ensures r'.workflowToSession == r.workflowToSession
    ensures Fresh(r, id) ==> GetSessionCount(r') == GetSessionCount(r) + 1
    ensures Valid(r) && Fresh(r, id) ==> Valid(r')
  {
    Registry(r.sessions[id := Session(id, ws, [], {}, now, now)], r.workflowToSession)
  }

  /** `getSession`: the session stored under `id`, or null. */
  function GetSession(r: Registry, id: string): (s: Option<Session>)
    ensures s.Some? <==> id in r.sessions
    ensures s.Some? ==> s.value == r.sessions[id]
  {
    if id in r.sessions then Some(r.sessions[id]) else None
  }

  /** `findSessionByWorkflowId`: follows the reverse index. An empty session
      id in the index is falsy and also yields null. */
  function FindSessionByWorkflowId(r: Registry, w: string): (s: Option<Session>)
    ensures w !in r.workflowToSession ==> s.None?
    ensures s.Some? ==>
              && w in r.workflowToSession && r.workflowToSession[w] in r.sessions
              && s.value == r.sessions[r.workflowToSession[w]]
    ensures Valid(r) && w in r.workflowToSession ==>
              s.Some? && s.value.id == r.workflowToSession[w] && w in s.value.workflowIds
  {
    if w in r.workflowToSession && r.workflowToSession[w] != "" then
      GetSession(r, r.workflowToSession[w])
    else None
  }

  /** `registerWorkflow`: on a live session, adds `w` to its set and points
      the reverse index at it, overwriting any earlier owner (last write
      wins); on an absent session nothing changes. */
  function RegisterWorkflow(r: Registry, id: string, w: string): (r': Registry)
    ensures id !in r.sessions ==> r' == r
    ensures id in r.sessions ==>
              && r'.sessions.Keys == r.sessions.Keys
              && r'.sessions[id].workflowIds == r.sessions[id].workflowIds + {w}
              && r'.sessions[id].messages == r.sessions[id].messages
              && r'.sessions[id].id == r.sessions[id].id
              && r'.workflowToSession == r.workflowToSession[w := id]
    ensures forall k | k in r.sessions && k != id :: r'.sessions[k] == r.sessions[k]
    ensures Valid(r) ==> Valid(r')
  {
    if id in r.sessions then
      var s := r.sessions[id];
      Registry(r.sessions[id := s.(workflowIds := s.workflowIds + {w})], r.workflowToSession[w := id])
    else r
  }

  /** `addMessage`: appends exactly one turn to a live session and sets its
      last activity to `now`; on an absent session nothing changes. */
  function AddMessage(r: Registry, id: string, m: Message, now: int): (r': Registry)
    ensures id !in r.sessions ==> r' == r
    ensures id in r.sessions ==>
              && r'.sessions.Keys == r.sessions.Keys
              && r'.sessions[id].messages == r.sessions[id].messages + [m]
              && r'.sessions[id].lastActivity == now
              && r'.sessions[id].workflowIds == r.sessions[id].workflowIds
              && r'.sessions[id].id == r.sessions[id].id
              && r'.sessions[id].websocket == r.sessions[id].websocket
    ensures forall k | k in r.sessions && k != id :: r'.sessions[k] == r.sessions[k]
    ensures r'.workflowToSession == r.workflowToSession
    ensures Valid(r) ==> Valid(r')
  {
    if id in r.sessions then
      var s := r.sessions[id];
      Registry(r.sessions[id := s.(messages := s.messages + [m], lastActivity := now)], r.workflowToSession)
    else r
  }

  /** `getMessages`: a copy of the stored history, or `[]` when absent. */
  function GetMessages(r: Registry, id: string): (h: seq<Message>)
    ensures id in r.sessions ==> h == r.sessions[id].messages
    ensures id !in r.sessions ==> h == []
  {
    match GetSession(r, id)
    case Some(s) => s.messages
    case None => []
  }

  /** `destroySession`: removes the session and the reverse entries of every
      workflow id in its set, whichever session they currently point to. */
  function DestroySession(r: Registry, id: string): (r': Registry)
    ensures id !in r.sessions ==> r' == r
    ensures id !in r'.sessions
    ensures r'.sessions == r.sessions - {id}
    ensures id in r.sessions ==> r'.workflowToSession == r.workflowToSession - r.sessions[id].workflowIds
    ensures id in r.sessions ==> forall w | w in r.sessions[id].workflowIds :: FindSessionByWorkflowId(r', w).None?
    ensures id in r.sessions ==> GetSessionCount(r') == GetSessionCount(r) - 1
    ensures Valid(r) ==> Valid(r')
  {
    if id in r.sessions then
      Registry(r.sessions - {id}, r.workflowToSession - r.sessions[id].workflowIds)
    else r
  }

  /** A session is stale when it has been idle for strictly more than `timeout`. */
  predicate IsStale(s: Session, now: int, timeout: int) {
    now - s.lastActivity > timeout
  }

  function StaleIds(r: Registry, now: int, timeout: int): set<string> {
    set id | id in r.sessions && IsStale(r.sessions[id], now, timeout)
  }

  /** Every workflow id held by one of the sessions in `ids`. */
  function WorkflowsOf(r: Registry, ids: set<string>): set<string> {
    set id, w | id in ids && id in r.sessions && w in r.sessions[id].workflowIds :: w
  }

  /** The registry left after destroying every session in `ids`. */
  function DestroyAll(r: Registry, ids: set<string>): Registry {
    Registry(r.sessions - ids, r.workflowToSession - WorkflowsOf(r, ids))
  }

  /** Destroying one more session extends the destroyed set by that session. */
  lemma DestroyAllStep(r: Registry, ids: set<string>, id: string)
    requires id in r.sessions && id !in ids
    ensures DestroySession(DestroyAll(r, ids), id) == DestroyAll(r, ids + {id})
  {
    var cur := DestroyAll(r, ids);
    assert id in cur.sessions && cur.sessions[id] == r.sessions[id];
    assert WorkflowsOf(r, ids + {id}) == WorkflowsOf(r, ids) + r.sessions[id].workflowIds;
  }

  /** Destroying any set of sessions keeps the registry valid. */
  lemma DestroyAllValid(r: Registry, ids: set<string>)
    requires Valid(r)
    ensures Valid(DestroyAll(r, ids))
  {
  }

  lemma DestroyAllCount(r: Registry, ids: set<string>)
    requires ids <= r.sessions.Keys
    ensures |DestroyAll(r, ids).sessions| == |r.sessions| - |ids|
  {
    assert DestroyAll(r, ids).sessions.Keys == r.sessions.Keys - ids;
  }

  /** The state of the sweep after visiting every session outside
      `remaining`: the stale ones among them destroyed, and counted. */
  predicate Swept(r: Registry, now: int, timeout: int, remaining: set<string>, cur: Registry, cleaned: nat) {
    && remaining <= r.sessions.Keys
    && cur == DestroyAll(r, StaleIds(r, now, timeout) - remaining)
    && cleaned == |StaleIds(r, now, timeout) - remaining|
  }

  /** One step of the sweep: destroying the visited session when it is
      stale, and skipping it otherwise, keeps `Swept` with one fewer
      session left to visit. */
  method Visit(r: Registry, now: int, timeout: int, remaining: set<string>, id: string, cur: Registry, cleaned: nat)
    returns (next: Registry, cleaned': nat)
    requires Swept(r, now, timeout, remaining, cur, cleaned) && id in remaining
    ensures Swept(r, now, timeout, remaining - {id}, next, cleaned')
    ensures IsStale(r.sessions[id], now, timeout) ==> next == DestroySession(cur, id) && cleaned' == cleaned + 1
    ensures !IsStale(r.sessions[id], now, timeout) ==> next == cur && cleaned' == cleaned
  {
    ghost var stale := StaleIds(r, now, timeout);
    ghost var done, done' := stale - remaining, stale - (remaining - {id});
    if IsStale(r.sessions[id], now, timeout) {
      assert id in stale && id !in done;
      assert done' == done + {id};
      DestroyAllStep(r, done, id);
      next, cleaned' := DestroySession(cur, id), cleaned + 1;
    } else {
      assert id !in stale;
      assert done' == done;
      next, cleaned' := cur, cleaned;
    }
  }

  /** Before the sweep nothing has been visited. */
  lemma SweepStart(r: Registry, now: int, timeout: int)
    ensures Swept(r, now, timeout, r.sessions.Keys, r, 0)
  {
    assert StaleIds(r, now, timeout) - r.sessions.Keys == {};
    assert r == DestroyAll(r, {});
  }

  /** After the sweep every stale session has been destroyed and counted. */
  lemma SweepDone(r: Registry, now: int, timeout: int, cur: Registry, cleaned: nat)
    requires Swept(r, now, timeout, {}, cur, cleaned)
    ensures cur == DestroyAll(r, StaleIds(r, now, timeout))
    ensures cleaned == |StaleIds(r, now, timeout)|
  {
    assert StaleIds(r, now, timeout) - {} == StaleIds(r, now, timeout);
  }

  /** `cleanupStale`: visits every session once, in whatever order the set
      yields them, and destroys the stale ones; returns the registry left
      and the number destroyed. */
  method CleanupStale(r: Registry, now: int, timeout: int) returns (r': Registry, cleaned: nat)
    ensures r' == DestroyAll(r, StaleIds(r, now, timeout))
    ensures cleaned == |StaleIds(r, now, timeout)|
  {
    var remaining := r.sessions.Keys;
    r', cleaned := r, 0;
    SweepStart(r, now, timeout);
    while remaining != {}
      invariant Swept(r, now, timeout, remaining, r', cleaned)
      decreases |remaining|
    {
      var id :| id in remaining;
      var next, c := Visit(r, now, timeout, remaining, id, r', cleaned);
      r', cleaned := next, c;
      remaining := remaining - {id};
    }
    SweepDone(r, now, timeout, r', cleaned);
  }

  /** What the sweep leaves: exactly the sessions that are not stale, each
      unchanged, the count lowered by the number of stale sessions, and the
      registry still valid. */
  lemma CleanupStaleEffect(r: Registry, now: int, timeout: int)
    ensures var stale := StaleIds(r, now, timeout); var r' := DestroyAll(r, stale);
      && r'.sessions == r.sessions - stale
      && (forall id | id in r.sessions :: id in r'.sessions <==> !IsStale(r.sessions[id], now, timeout))
      && (forall id | id in r'.sessions :: r'.sessions[id] == r.sessions[id])
      && GetSessionCount(r') == GetSessionCount(r) - |stale|
      && (Valid(r) ==> Valid(r'))
  {
    var stale := StaleIds(r, now, timeout);
    DestroyAllCount(r, stale);
    if Valid(r) {
      DestroyAllValid(r, stale);
    }
  }

  /** Re-registering `w` to session `b` leaves it in the set of session `a`
      that held it before, so destroying `a` later drops the reverse entry
      although `b` still holds `w`: afterwards `w` is found nowhere. */
  lemma LastWriterWins(r: Registry, a: string, b: string, w: string)
    requires Valid(r) && a in r.sessions && b in r.sessions && a != b
    ensures var r1 := RegisterWorkflow(r, a, w);
      var r2 := RegisterWorkflow(r1, b, w);
      var r3 := DestroySession(r2, a);
      && FindSessionByWorkflowId(r2, w) == Some(r2.sessions[b])
      && w in r2.sessions[a].workflowIds
      && b in r3.sessions && w in r3.sessions[b].workflowIds
      && FindSessionByWorkflowId(r3, w).None?
  {
    var r1 := RegisterWorkflow(r, a, w);
    var r2 := RegisterWorkflow(r1, b, w);
    assert r2.sessions[a] == r1.sessions[a];
    assert w in r2.sessions[a].workflowIds;
  }
}
