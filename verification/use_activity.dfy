/** The client's activity panel: a capped log of tool events, newest first,
    a one-line status naming the tool at work, and a list of notifications
    that disappear after a delay or on request. Each `setState` callback is
    a pure step here; a timer is represented by the delay the step asks for,
    and the timer's firing is the step it would run. */
module UseActivity {
  import opened Wrappers
  import opened ClientTypes
  import opened ToolDisplayNames

  const MaxActivities: nat := 100
  const SuccessDismissMs: nat := 5000
  const ErrorDismissMs: nat := 8000
  /** The fade-out between marking a notification dismissed and removing it. */
  const FadeOutMs: nat := 300

  /** The hook's state; `activeTool` is the tool reference it keeps. */
  datatype ActivityState = ActivityState(
    currentStatus: Option<string>,
    activities: seq<ActivityEvent>,
    notifications: seq<Notification>,
    isExpanded: bool,
    activeTool: Option<string>)

  /** A step that also starts a timer of `delayMs` milliseconds. */
  datatype Timed = Timed(state: ActivityState, delayMs: nat)

  const Initial: ActivityState := ActivityState(None, [], [], false, None)

  /** No two notifications share an id. */
  predicate UniqueNoticeIds(ns: seq<Notification>) {
    forall i, j | 0 <= i < j < |ns| :: ns[i].id != ns[j].id
  }

  /** What every step keeps: the log is capped, notification ids are unique,
      and the status line is the active verb of the tool at work, or nothing
      when no tool is at work. */
  predicate Valid(st: ActivityState) {
    && |st.activities| <= MaxActivities
    && UniqueNoticeIds(st.notifications)
    && st.currentStatus == (if st.activeTool.Some? then Some(ActiveVerb(st.activeTool.value)) else None)
  }

  /** The first `n` elements, or all of them when there are fewer. */
  function Take<T>(s: seq<T>, n: nat): (r: seq<T>)
    ensures |r| == if |s| < n then |s| else n
    ensures r == s[..|r|]
  {
    if |s| <= n then s else s[..n]
  }

  /** `[event, ...prev]`, cut to the first 100. */
  function Prepend(log: seq<ActivityEvent>, event: ActivityEvent): (r: seq<ActivityEvent>)
    ensures |r| == if |log| < MaxActivities then |log| + 1 else MaxActivities
    ensures r[0] == event && r[1..] == log[..|r| - 1]
  {
    Take([event] + log, MaxActivities)
  }

  /** `addActivity`: a `tool_start` naming a tool shows that tool's active
      verb, a `tool_result` clears the status, and the event goes to the
      front of the log. */
  function AddActivity(st: ActivityState, event: ActivityEvent): (r: ActivityState)
    ensures event.kind == ToolStart && Truthy(event.toolName) ==>
              r.currentStatus == Some(ActiveVerb(event.toolName.value)) && r.activeTool == event.toolName
    ensures event.kind == ToolResult ==> r.currentStatus.None? && r.activeTool.None?
    ensures (event.kind == StatusUpdate || (event.kind == ToolStart && !Truthy(event.toolName))) ==>
              r.currentStatus == st.currentStatus && r.activeTool == st.activeTool
    ensures 0 < |r.activities| <= MaxActivities && r.activities[0] == event
    ensures r.notifications == st.notifications && r.isExpanded == st.isExpanded
    ensures Valid(st) ==> Valid(r)
  {
    var log := Prepend(st.activities, event);
    if event.kind == ToolStart && Truthy(event.toolName) then
      st.(currentStatus := Some(ActiveVerb(event.toolName.value)), activeTool := event.toolName, activities := log)
    else if event.kind == ToolResult then
      st.(currentStatus := None, activeTool := None, activities := log)
    else
      st.(activities := log)
  }

  /** A run of events, in arrival order. */
  function AddActivities(st: ActivityState, events: seq<ActivityEvent>): ActivityState
    decreases |events|
  {
    if |events| == 0 then st
    else AddActivity(AddActivities(st, events[..|events| - 1]), events[|events| - 1])
  }

  /** The elements in reverse order. */
  function Reverse<T>(s: seq<T>): (r: seq<T>)
    ensures |r| == |s|
    ensures forall k | 0 <= k < |s| :: r[k] == s[|s| - 1 - k]
    decreases |s|
  {
    if |s| == 0 then [] else [s[|s| - 1]] + Reverse(s[..|s| - 1])
  }

  lemma TakeFront<T>(x: T, s: seq<T>, n: nat)
    requires n > 0
    ensures Take([x] + Take(s, n), n) == Take([x] + s, n)
  {
  }

  lemma ReverseSnoc<T>(s: seq<T>, x: T)
    ensures Reverse(s + [x]) == [x] + Reverse(s)
  {
    assert (s + [x])[..|s|] == s;
  }

  /** One event goes to the front of the log, which is then cut to the cap. */
  lemma LogAfterOne(st: ActivityState, event: ActivityEvent)
    ensures AddActivity(st, event).activities == Take([event] + st.activities, MaxActivities)
  {
  }

  /** One more event in front of the capped log is the same as one more
      event in front of the uncapped one, capped once. */
  lemma NewestFirstStep(front: seq<ActivityEvent>, e: ActivityEvent, acts: seq<ActivityEvent>, log: seq<ActivityEvent>)
    requires log == Take(Reverse(front) + acts, MaxActivities)
    ensures Take([e] + log, MaxActivities) == Take(Reverse(front + [e]) + acts, MaxActivities)
  {
    TakeFront(e, Reverse(front) + acts, MaxActivities);
    ReverseSnoc(front, e);
    assert Reverse(front + [e]) + acts == [e] + (Reverse(front) + acts);
  }

  /** The log after a run of events, in arrival order. */
  function PrependAll(log: seq<ActivityEvent>, events: seq<ActivityEvent>): seq<ActivityEvent>
    decreases |events|
  {
    if |events| == 0 then log
    else Prepend(PrependAll(log, events[..|events| - 1]), events[|events| - 1])
  }

  /** The log of a run of steps is the run of prepends. */
  lemma {:induction false} ActivitiesPrepended(st: ActivityState, events: seq<ActivityEvent>)
    ensures AddActivities(st, events).activities == PrependAll(st.activities, events)
    decreases |events|
  {
    if |events| > 0 {
      var front := events[..|events| - 1];
      ActivitiesPrepended(st, front);
      LogAfterOne(AddActivities(st, front), events[|events| - 1]);
    }
  }

  lemma {:induction false} PrependAllNewestFirst(log: seq<ActivityEvent>, events: seq<ActivityEvent>)
    requires |log| <= MaxActivities
    ensures PrependAll(log, events) == Take(Reverse(events) + log, MaxActivities)
    decreases |events|
  {
    if |events| == 0 {
      assert Reverse(events) + log == log;
    } else {
      var front := events[..|events| - 1];
      var e := events[|events| - 1];
      PrependAllNewestFirst(log, front);
      NewestFirstStep(front, e, log, PrependAll(log, front));
      assert events == front + [e];
    }
  }

  /** After any run of events the log holds the newest 100 entries, newest
      first, followed by what was there before as far as the cap allows. */
  lemma LogIsNewestFirst(st: ActivityState, events: seq<ActivityEvent>)
    requires |st.activities| <= MaxActivities
    ensures AddActivities(st, events).activities == Take(Reverse(events) + st.activities, MaxActivities)
  {
    ActivitiesPrepended(st, events);
    PrependAllNewestFirst(st.activities, events);
  }

  /** `addNotification`: a notification whose id is already listed leaves
      the list alone, any other goes to the front; either way a dismissal
      timer starts, longer for errors. */
  function AddNotification(st: ActivityState, n: Notification): (r: Timed)
    ensures (exists k | 0 <= k < |st.notifications| :: st.notifications[k].id == n.id) ==>
              r.state.notifications == st.notifications
    ensures (forall k | 0 <= k < |st.notifications| :: st.notifications[k].id != n.id) ==>
              r.state.notifications == [n] + st.notifications
    ensures r.delayMs == if n.kind == ErrorNotice then ErrorDismissMs else SuccessDismissMs
    ensures r.state.(notifications := st.notifications) == st
    ensures Valid(st) ==> Valid(r.state)
  {
    var listed := exists k | 0 <= k < |st.notifications| :: st.notifications[k].id == n.id;
    var ns := if listed then st.notifications else [n] + st.notifications;
    Timed(st.(notifications := ns), if n.kind == ErrorNotice then ErrorDismissMs else SuccessDismissMs)
  }

  /** `prev.map(n => n.id === id ? {...n, dismissed: true} : n)`. */
  function MarkDismissed(ns: seq<Notification>, id: string): (r: seq<Notification>)
    ensures |r| == |ns|
    ensures forall k | 0 <= k < |ns| :: r[k] == if ns[k].id == id then ns[k].(dismissed := true) else ns[k]
    decreases |ns|
  {
    if |ns| == 0 then []
    else [if ns[0].id == id then ns[0].(dismissed := true) else ns[0]] + MarkDismissed(ns[1..], id)
  }

  /** `prev.filter(n => n.id !== id)`. */
  function RemoveNotice(ns: seq<Notification>, id: string): (r: seq<Notification>)
    ensures |r| <= |ns|
    ensures forall k | 0 <= k < |r| :: r[k].id != id
    ensures forall n :: n in r <==> n in ns && n.id != id
    decreases |ns|
  {
    if |ns| == 0 then []
    else (if ns[0].id == id then [] else [ns[0]]) + RemoveNotice(ns[1..], id)
  }

  /** `dismissNotification`, and equally the firing of a dismissal timer:
      the notification is marked and a fade-out timer starts. */
  function DismissNotification(st: ActivityState, id: string): (r: Timed)
    ensures r.state.notifications == MarkDismissed(st.notifications, id)
    ensures r.state.(notifications := st.notifications) == st
    ensures r.delayMs == FadeOutMs
    ensures Valid(st) ==> Valid(r.state)
  {
    MarkDismissedKeepsIds(st.notifications, id);
    Timed(st.(notifications := MarkDismissed(st.notifications, id)), FadeOutMs)
  }

  /** The firing of a fade-out timer. */
  function RemoveNotification(st: ActivityState, id: string): (r: ActivityState)
    ensures r.notifications == RemoveNotice(st.notifications, id)
    ensures r.(notifications := st.notifications) == st
    ensures Valid(st) ==> Valid(r)
  {
    RemoveNoticeKeepsUnique(st.notifications, id);
    st.(notifications := RemoveNotice(st.notifications, id))
  }

  /** Marking changes no id, so unique ids stay unique. */
  lemma MarkDismissedKeepsIds(ns: seq<Notification>, id: string)
    ensures forall k | 0 <= k < |ns| :: MarkDismissed(ns, id)[k].id == ns[k].id
    ensures UniqueNoticeIds(ns) ==> UniqueNoticeIds(MarkDismissed(ns, id))
  {
  }

  /** Removal keeps the others in order, so unique ids stay unique. */
  lemma {:induction false} RemoveNoticeKeepsUnique(ns: seq<Notification>, id: string)
    ensures UniqueNoticeIds(ns) ==> UniqueNoticeIds(RemoveNotice(ns, id))
    decreases |ns|
  {
    if |ns| > 0 && UniqueNoticeIds(ns) {
      RemoveNoticeKeepsUnique(ns[1..], id);
      var rest := RemoveNotice(ns[1..], id);
      forall k | 0 <= k < |rest| ensures rest[k].id != ns[0].id {
        assert rest[k] in ns[1..];
      }
    }
  }

  /** The fade-out removes exactly what an immediate removal would have:
      marking first changes nothing about which notifications go. */
  lemma {:induction false} MarkThenRemove(ns: seq<Notification>, id: string)
    ensures RemoveNotice(MarkDismissed(ns, id), id) == RemoveNotice(ns, id)
    decreases |ns|
  {
    if |ns| > 0 {
      MarkThenRemove(ns[1..], id);
      assert MarkDismissed(ns, id)[1..] == MarkDismissed(ns[1..], id);
    }
  }

  /** Dismissing one notification leaves every other one as it was. */
  lemma DismissTouchesOnlyItsNotice(st: ActivityState, id: string)
    ensures var r := RemoveNotification(DismissNotification(st, id).state, id);
      && (forall n | n in st.notifications && n.id != id :: n in r.notifications)
      && (forall k | 0 <= k < |r.notifications| :: r.notifications[k].id != id)
  {
    MarkThenRemove(st.notifications, id);
  }

  function ToggleExpanded(st: ActivityState): (r: ActivityState)
    ensures r.isExpanded != st.isExpanded
    ensures r.(isExpanded := st.isExpanded) == st
  {
    st.(isExpanded := !st.isExpanded)
  }

  /** `clearActivities`. */
  function ClearActivities(st: ActivityState): (r: ActivityState)
    ensures r.activities == [] && r.currentStatus.None? && r.activeTool.None?
    ensures r.(activities := st.activities, currentStatus := st.currentStatus, activeTool := st.activeTool) == st
    ensures Valid(st) ==> Valid(r)
  {
    st.(activities := [], currentStatus := None, activeTool := None)
  }

  /** `clearAll`: the activities, the status and every notification. */
  function ClearAll(st: ActivityState): (r: ActivityState)
    ensures r.activities == [] && r.currentStatus.None? && r.notifications == []
    ensures r.isExpanded == st.isExpanded
    ensures Valid(r)
  {
    ClearActivities(st).(notifications := [])
  }
}
