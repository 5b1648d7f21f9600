/** The client's socket: connecting, the four socket events, sending and a
    manual reconnect, with exponential back-off between automatic retries.
    Every socket the hook creates gets the next number; `current` is the
    socket the hook's reference holds, and `sockets` records the ready state
    of each socket created so far. A retry timer is represented by the delay
    `OnClose` asks for; its firing is `Connect`. */
module UseWebSocket {
  import opened Wrappers
  import opened ClientTypes

  const BaseDelayMs: nat := 1000
  const MaxDelayMs: nat := 30000
  const ConnectionError: string := "WebSocket connection error"
  const NotConnected: string := "WebSocket is not connected"

  datatype ConnectionStatus = Connecting | Connected | Disconnected | Reconnecting

  /** `WebSocket.readyState`. */
  datatype ReadyState = SocketConnecting | SocketOpen | SocketClosing | SocketClosed

  datatype SocketState = SocketState(
    status: ConnectionStatus,
    sessionId: Option<string>,
    lastMessage: Option<ServerMessage>,
    error: Option<string>,
    current: Option<nat>,
    sockets: map<nat, ReadyState>,
    nextSocket: nat,
    attempt: nat)

  /** A close: the state afterwards and the delay before the next try, or
      `None` when the close schedules no try. */
  datatype Retry = Retry(state: SocketState, delayMs: Option<nat>)

  /** A send attempt: the state afterwards and whether the frame went out. */
  datatype Delivery = Delivery(state: SocketState, transmitted: bool)

  const Initial: SocketState := SocketState(Connecting, None, None, None, None, map[], 0, 0)

  /** The hook's reference holds a known socket, and every socket number
      in use was handed out already. */
  predicate Valid(st: SocketState) {
    && (st.current.Some? ==> st.current.value in st.sockets)
    && (forall n | n in st.sockets :: n < st.nextSocket)
  }

  /** `wsRef.current?.readyState === WebSocket.OPEN`. */
  predicate IsOpen(st: SocketState) {
    st.current.Some? && st.current.value in st.sockets && st.sockets[st.current.value] == SocketOpen
  }

  // ---------------------------------------------------------------------
  // Back-off

  function Pow2(n: nat): (p: nat)
    ensures p >= 1
  {
    if n == 0 then 1 else 2 * Pow2(n - 1)
  }

  /** `Math.min(1000 * Math.pow(2, attempt), 30000)`: every delay lies
      between one second and thirty seconds. */
  function Backoff(attempt: nat): (d: nat)
    ensures BaseDelayMs <= d <= MaxDelayMs
  {
    if BaseDelayMs * Pow2(attempt) < MaxDelayMs then BaseDelayMs * Pow2(attempt) else MaxDelayMs
  }

  lemma {:induction false} Pow2Monotone(m: nat, n: nat)
    requires m <= n
    ensures Pow2(m) <= Pow2(n)
    decreases n
  {
    if m < n {
      Pow2Monotone(m, n - 1);
    }
  }

  /** A later attempt never waits less. */
  lemma BackoffMonotone(m: nat, n: nat)
    requires m <= n
    ensures Backoff(m) <= Backoff(n)
  {
    Pow2Monotone(m, n);
  }

  /** The first five attempts wait 1, 2, 4, 8 and 16 seconds; from the
      sixth on, the delay stays at thirty seconds. */
  lemma BackoffSchedule(attempt: nat)
    ensures attempt < 5 ==> Backoff(attempt) == BaseDelayMs * Pow2(attempt)
    ensures attempt >= 5 ==> Backoff(attempt) == MaxDelayMs
  {
    if attempt < 5 {
      Pow2Monotone(attempt, 4);
      assert Pow2(4) == 16;
    } else {
      Pow2Monotone(5, attempt);
      assert Pow2(5) == 32;
    }
  }

  // ---------------------------------------------------------------------
  // Steps

  /** `connect`: nothing while the current socket is open; otherwise a new
      socket becomes current and the status says it is connecting. */
  function Connect(st: SocketState): (r: SocketState)
    ensures IsOpen(st) ==> r == st
    ensures !IsOpen(st) ==>
              && r.status == Connecting && r.error.None?
              && r.current == Some(st.nextSocket)
              && r.sockets == st.sockets[st.nextSocket := SocketConnecting]
              && r.nextSocket == st.nextSocket + 1
    ensures r.(status := st.status, error := st.error, current := st.current,
               sockets := st.sockets, nextSocket := st.nextSocket) == st
    ensures Valid(st) ==> Valid(r) && (st.nextSocket !in st.sockets)
  {
    if IsOpen(st) then st
    else
      var ws := st.nextSocket;
      st.(status := Connecting, error := None, current := Some(ws),
          sockets := st.sockets[ws := SocketConnecting], nextSocket := ws + 1)
  }

  /** `ws.onopen` of socket `ws`: the socket is open, the status says so and
      the attempt counter starts again. */
  function OnOpen(st: SocketState, ws: nat): (r: SocketState)
    ensures r.status == Connected && r.attempt == 0
    ensures r.sockets == st.sockets[ws := SocketOpen]
    ensures r.(status := st.status, attempt := st.attempt, sockets := st.sockets) == st
    ensures Valid(st) && ws in st.sockets ==> Valid(r)
  {
    st.(status := Connected, attempt := 0, sockets := st.sockets[ws := SocketOpen])
  }

  /** `ws.onmessage`: `parsed` is `None` when `JSON.parse` throws, and then
      nothing changes; a `session` message with a truthy id records it. */
  function OnMessage(st: SocketState, parsed: Option<ServerMessage>): (r: SocketState)
    ensures parsed.None? ==> r == st
    ensures parsed.Some? ==> r.lastMessage == parsed
    ensures parsed.Some? && parsed.value.msgType == "session" && Truthy(parsed.value.sessionId) ==>
              r.sessionId == parsed.value.sessionId
    ensures parsed.Some? && (parsed.value.msgType != "session" || !Truthy(parsed.value.sessionId)) ==>
              r.sessionId == st.sessionId
    ensures r.(sessionId := st.sessionId, lastMessage := st.lastMessage) == st
  {
    match parsed
    case None => st
    case Some(m) =>
      var sid := if m.msgType == "session" && Truthy(m.sessionId) then m.sessionId else st.sessionId;
      st.(sessionId := sid, lastMessage := Some(m))
  }

  /** `ws.onerror`. */
  function OnError(st: SocketState): (r: SocketState)
    ensures r.error == Some(ConnectionError)
    ensures r.(error := st.error) == st
  {
    st.(error := Some(ConnectionError))
  }

  /** `ws.onclose` of socket `ws` as written: whichever socket closed, the
      reference is cleared, the counter goes up by one and a retry is
      scheduled after the back-off of the count before the close. */
  function OnCloseAsWritten(st: SocketState, ws: nat): (r: Retry)
    ensures r.state.current.None? && r.state.status == Reconnecting
    ensures r.state.attempt == st.attempt + 1 && r.delayMs == Some(Backoff(st.attempt))
    ensures r.state.sockets == st.sockets[ws := SocketClosed]
    ensures r.state.(status := st.status, current := st.current, attempt := st.attempt, sockets := st.sockets) == st
  {
    Retry(st.(status := Reconnecting, current := None, attempt := st.attempt + 1,
              sockets := st.sockets[ws := SocketClosed]),
          Some(Backoff(st.attempt)))
  }

  /** `ws.onclose` of socket `ws`, handling only the socket the reference
      holds: the close of a socket already replaced just records it and
      schedules no retry. */
  function OnClose(st: SocketState, ws: nat): (r: Retry)
    ensures st.current == Some(ws) ==> r == OnCloseAsWritten(st, ws)
    ensures st.current != Some(ws) ==>
              r.state == st.(sockets := st.sockets[ws := SocketClosed]) && r.delayMs.None?
    ensures Valid(st) && ws in st.sockets ==> Valid(r.state)
  {
    if st.current == Some(ws) then OnCloseAsWritten(st, ws)
    else Retry(st.(sockets := st.sockets[ws := SocketClosed]), None)
  }

  /** `send`: the frame goes out only over an open socket; otherwise the
      error says the socket is not connected. */
  function Send(st: SocketState): (r: Delivery)
    ensures r.transmitted <==> IsOpen(st)
    ensures r.transmitted ==> r.state == st
    ensures !r.transmitted ==> r.state == st.(error := Some(NotConnected))
  {
    if IsOpen(st) then Delivery(st, true) else Delivery(st.(error := Some(NotConnected)), false)
  }

  /** `reconnect`: the current socket is closed, the counter starts again
      and a new socket is made. */
  function Reconnect(st: SocketState): (r: SocketState)
    ensures r.attempt == 0 && r.status == Connecting && r.error.None?
    ensures r.sessionId == st.sessionId && r.lastMessage == st.lastMessage && r.nextSocket == st.nextSocket + 1
    ensures r.current == Some(st.nextSocket) && st.nextSocket in r.sockets && r.sockets[st.nextSocket] == SocketConnecting
    ensures st.current.Some? && st.current.value != st.nextSocket ==>
              st.current.value in r.sockets && r.sockets[st.current.value] == SocketClosing
    ensures Valid(st) ==> Valid(r)
  {
    var closed := if st.current.Some? then st.sockets[st.current.value := SocketClosing] else st.sockets;
    Connect(st.(sockets := closed, attempt := 0))
  }

  // ---------------------------------------------------------------------
  // Runs of failed attempts

  /** `n` tries in a row that each close before opening: the state after
      them and the delays they scheduled, in order. */
  function FailedTries(st: SocketState, n: nat): (r: (SocketState, seq<nat>))
    ensures |r.1| == n
    decreases n
  {
    if n == 0 then (st, [])
    else
      var c := Connect(st);
      var closed := OnClose(c, c.current.value);
      var rest := FailedTries(closed.state, n - 1);
      (rest.0, [closed.delayMs.value] + rest.1)
  }

  /** Failed tries count up from where the counter stood, and their delays
      follow the back-off schedule. */
  lemma {:induction false} FailedTriesBackOff(st: SocketState, n: nat)
    requires !IsOpen(st)
    ensures var r := FailedTries(st, n);
      && r.0.attempt == st.attempt + n
      && (forall k | 0 <= k < n :: r.1[k] == Backoff(st.attempt + k))
    decreases n
  {
    if n > 0 {
      var c := Connect(st);
      var closed := OnClose(c, c.current.value);
      FailedTriesBackOff(closed.state, n - 1);
      var rest := FailedTries(closed.state, n - 1);
      assert FailedTries(st, n).1 == [closed.delayMs.value] + rest.1;
    }
  }

  /** So a run of failed tries never shortens its waits. */
  lemma FailedTriesWaitLonger(st: SocketState, n: nat, i: nat, j: nat)
    requires !IsOpen(st) && i <= j < n
    ensures FailedTries(st, n).1[i] <= FailedTries(st, n).1[j]
  {
    FailedTriesBackOff(st, n);
    BackoffMonotone(st.attempt + i, st.attempt + j);
  }

  // ---------------------------------------------------------------------
  // A manual reconnect followed by the old socket's close

  /** The sequence after a manual reconnect from an open socket: the old
      socket's close arrives, then the new socket opens, then a send is
      attempted. */
  function AfterReconnect(st: SocketState, close: (SocketState, nat) -> Retry): Delivery
    requires st.current.Some?
  {
    var r1 := Reconnect(st);
    var r2 := close(r1, st.current.value).state;
    var r3 := OnOpen(r2, st.nextSocket);
    Send(r3)
  }

  /** As written, the old socket's close clears the reference to the new
      socket: once that socket opens the status says connected, yet a send
      reports that the socket is not connected. */
  lemma StaleCloseLosesSocket(st: SocketState)
    requires Valid(st) && IsOpen(st)
    ensures var d := AfterReconnect(st, OnCloseAsWritten);
      && d.state.status == Connected
      && !d.transmitted && d.state.error == Some(NotConnected)
      && d.state.sockets[st.nextSocket] == SocketOpen
  {
  }

  /** Handling only the current socket's close, the same sequence sends
      over the new socket. */
  lemma StaleCloseIgnored(st: SocketState)
    requires Valid(st) && IsOpen(st)
    ensures var d := AfterReconnect(st, OnClose);
      && d.state.status == Connected && d.transmitted
  {
    assert st.current.value != st.nextSocket;
  }
}
