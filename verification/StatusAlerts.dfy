/**
Status alerts: the pending-timer machine (internal/alerts/alerts_status.go), the status transitions that drive it
(internal/hub/systems/system_manager.go) and the alert history (internal/alerts/alerts_history.go).

Each handler is one step; a timer's expiry and the run of its callback are two, because time.Timer.Stop does not
stop a callback that has already been started. Times are milliseconds.
 */
module StatusAlerts {
  import opened Basics

  type Id = string

  datatype Status = Up | Down | Paused | Pending

  /**
  What happened to a status alert. `since` is the time from which the systems table has said "down" without a break.
   */
  datatype Event = DownSent(at: int, since: Option<int>, delay: int) | UpSent | Cleared

  /**
  An alert: its table row, the resolved flags of its history rows, its notifications and resets,
  and the number of timers ever started for it.
   */
  datatype Alert = Alert(
    system: Id, isStatus: bool, min: nat, live: bool, triggered: bool,
    rows: seq<bool>, log: seq<Event>, timers: nat)

  /** An entry of pendingAlerts; `token` tells its timer from the others of the same alert. */
  datatype Entry = Entry(system: Id, scheduledAt: int, delay: int, token: nat)

  type Timer = (Id, nat)

  datatype State = State(
    now: int,
    systems: map<Id, Status>,         // the systems table
    downSince: map<Id, int>,          // since when it says "down"
    held: map<Id, Status>,            // System.Status of the systems in the manager
    alerts: map<Id, Alert>,
    pending: map<Id, Entry>,
    armed: map<Timer, int>,           // timers that are set, with their expiry
    running: set<Timer>)              // timers that expired and whose callback has not run yet

  datatype Step =
    | Tick(now: int)
    | AddSystem(system: Id)
    | SetStatus(system: Id, status: Status, ws: bool)
    | Hold(system: Id)
    | Unhold(system: Id)
    | CreateAlert(a: Id, system: Id, isStatus: bool, min: nat)
    | EditAlert(a: Id, min: nat)
    | DeleteAlert(a: Id)
    | Threshold(a: Id, triggered: bool)
    | Fire(a: Id, token: nat)
    | RunCallback(a: Id, token: nat)
    | Restart
    | DropRow(a: Id, i: nat)

  const INITIAL := State(0, map[], map[], map[], map[], map[], map[], {})

  // ---------------------------------------------------------------- one alert

  /** resolveAlertHistoryRecord: the first unresolved row is resolved. */
  function ResolveFirst(rows: seq<bool>): seq<bool> {
    if rows == [] then [] else if !rows[0] then [true] + rows[1..] else [rows[0]] + ResolveFirst(rows[1..])
  }

  /** updateHistoryOnAlertUpdate: a history row is opened or resolved only when the flag changes. */
  function WithTriggered(al: Alert, b: bool): Alert {
    if al.triggered == b then al
    else if b then al.(triggered := true, rows := al.rows + [false])
    else al.(triggered := false, rows := ResolveFirst(al.rows))
  }

  function Logged(al: Alert, e: Event): Alert {
    al.(log := al.log + [e])
  }

  function Delay(min: nat): int {
    (if min < 1 then 1 else min) * MINUTE
  }

  predicate StatusAlertOf(al: Alert, system: Id) {
    al.live && al.isStatus && al.system == system
  }

  // ---------------------------------------------------------------- handlers

  function NewEntry(al: Alert, now: int): Entry {
    Entry(al.system, now, Delay(al.min), al.timers)
  }

  /** The entries, the timers and the timer counts that scheduling adds for `who`. */
  function Entries(alerts: map<Id, Alert>, now: int, who: set<Id>): map<Id, Entry>
    requires who <= alerts.Keys
  {
    map a | a in who :: NewEntry(alerts[a], now)
  }

  function Started(alerts: map<Id, Alert>, now: int, who: set<Id>): map<Timer, int>
    requires who <= alerts.Keys
  {
    map t | t in (set a | a in who :: (a, alerts[a].timers)) :: now + Delay(alerts[t.0].min)
  }

  function Counted(alerts: map<Id, Alert>, who: set<Id>): map<Id, Alert> {
    map a | a in alerts :: if a in who then alerts[a].(timers := alerts[a].timers + 1) else alerts[a]
  }

  /** schedulePendingStatusAlert for a set of alerts: those already pending are left alone. */
  function Scheduled(s: State, who: set<Id>): State
    requires who <= s.alerts.Keys
  {
    var added := who - s.pending.Keys;
    s.(alerts := Counted(s.alerts, added),
       pending := s.pending + Entries(s.alerts, s.now, added),
       armed := s.armed + Started(s.alerts, s.now, added))
  }

  /** The timers left after those of the entries of `who` are stopped. */
  function Stopped(armed: map<Timer, int>, pending: map<Id, Entry>, who: set<Id>): map<Timer, int> {
    map t | t in armed && !(t.0 in who && t.0 in pending && pending[t.0].token == t.1) :: armed[t]
  }

  /** cancelPendingAlert for a set of alerts: entries are removed and their timers stopped. */
  function Cancelled(s: State, who: set<Id>): State {
    s.(pending := s.pending - who, armed := Stopped(s.armed, s.pending, who))
  }

  function StatusAlertsOf(s: State, system: Id): set<Id> {
    set a | a in s.alerts && StatusAlertOf(s.alerts[a], system)
  }

  /** handleSystemUp: pending alerts are cancelled, triggered ones resolved and notified. */
  function UpHandled(s: State, system: Id): State {
    Cancelled(s, StatusAlertsOf(s, system)).(
      alerts := map a | a in s.alerts ::
                  if StatusAlertOf(s.alerts[a], system) && a !in s.pending && s.alerts[a].triggered
                  then Logged(WithTriggered(s.alerts[a], false), UpSent) else s.alerts[a])
  }

  /** deactivateAlerts */
  function Deactivated(s: State, system: Id): State {
    s.(alerts := map a | a in s.alerts ::
                   if s.alerts[a].live && s.alerts[a].system == system && s.alerts[a].triggered
                   then Logged(WithTriggered(s.alerts[a], false), Cleared) else s.alerts[a])
  }

  function PendingOf(s: State, system: Id): set<Id> {
    set a | a in s.pending && s.pending[a].system == system
  }

  function WithStatus(s: State, system: Id, status: Status): State {
    s.(systems := s.systems[system := status],
       downSince := if status.Down?
                    then (if system in s.downSince then s.downSince else s.downSince[system := s.now])
                    else s.downSince - {system})
  }

  /** onRecordAfterUpdateSuccess for the systems table; `ws` says whether the held system has a WebSocket. */
  function StatusSet(s0: State, system: Id, status: Status, ws: bool): State {
    var s := WithStatus(s0, system, status);
    var ok := system in s.held;
    var prev := if ok then s.held[system] else Pending;
    var t := if ok then s.(held := s.held[system := status]) else s;
    match status
    case Paused => Cancelled(Deactivated(t, system), PendingOf(t, system))
    case Pending => if ok && ws then t else Deactivated(s.(held := s.held[system := Pending]), system)
    case Down =>
      if !ok then s.(held := s.held[system := Down])
      else if prev.Up? then Scheduled(t, StatusAlertsOf(t, system))
      else t
    case Up =>
      if !ok then s.(held := s.held[system := Up])
      else if prev.Down? then UpHandled(t, system)
      else t
  }

  /** A callback finds its alert pending, still in the table and not triggered, and so sends "down". */
  predicate Sends(s: State, a: Id) {
    a in s.pending && a in s.alerts && s.alerts[a].live && s.alerts[a].system == s.pending[a].system
        && !s.alerts[a].triggered
  }

  /** processPendingAlert */
  function Processed(s: State, a: Id): State {
    if a !in s.pending then s
    else
      var e := s.pending[a];
      var t := s.(pending := s.pending - {a});
      if !Sends(s, a) then t
      else
        var since := if e.system in s.downSince then Some(s.downSince[e.system]) else None;
        t.(alerts := s.alerts[a := Logged(WithTriggered(s.alerts[a], true), DownSent(s.now, since, e.delay))])
  }

  /** resolveStatusAlerts: at startup, triggered status alerts of systems that are up are resolved silently. */
  function StaleResolved(s: State): State {
    s.(alerts := map a | a in s.alerts ::
                   var al := s.alerts[a];
                   if al.live && al.isStatus && al.triggered && al.system in s.systems && s.systems[al.system].Up?
                   then Logged(WithTriggered(al, false), Cleared) else al)
  }

  /** The alerts restorePendingStatusAlerts re-queues. */
  function Restorable(s: State): set<Id> {
    set a | a in s.alerts && s.alerts[a].live && s.alerts[a].isStatus && !s.alerts[a].triggered
            && s.alerts[a].system in s.systems && s.systems[s.alerts[a].system].Down?
  }

  function Restarted(s: State): State {
    var t := StaleResolved(s.(held := map[], pending := map[], armed := map[], running := {}));
    Scheduled(t, Restorable(t))
  }

  // ---------------------------------------------------------------- steps

  predicate Enabled(s: State, step: Step) {
    match step
    case Tick(now) => s.now <= now
    case AddSystem(system) => system !in s.systems
    case SetStatus(system, _, _) => system in s.systems
    case Hold(system) => system in s.systems
    case Unhold(system) => true
    case CreateAlert(a, system, _, _) => a !in s.alerts && system in s.systems
    case EditAlert(a, _) => a in s.alerts && s.alerts[a].live
    case DeleteAlert(a) => a in s.alerts && s.alerts[a].live
    case Threshold(a, _) => a in s.alerts && s.alerts[a].live && !s.alerts[a].isStatus
    case Fire(a, token) => (a, token) in s.armed && s.armed[(a, token)] <= s.now
    case RunCallback(a, token) => (a, token) in s.running
    case Restart => true
    case DropRow(a, i) => a in s.alerts && i < |s.alerts[a].rows|
  }

  function Apply(s: State, step: Step): State
    requires Enabled(s, step)
  {
    match step
    case Tick(now) => s.(now := now)
    case AddSystem(system) => s.(systems := s.systems[system := Pending], held := s.held[system := Pending])
    case SetStatus(system, status, ws) => StatusSet(s, system, status, ws)
    case Hold(system) => s.(held := s.held[system := s.systems[system]])
    case Unhold(system) => s.(held := s.held - {system})
    case CreateAlert(a, system, isStatus, min) =>
      s.(alerts := s.alerts[a := Alert(system, isStatus, min, true, false, [], [], 0)])
    case EditAlert(a, min) => s.(alerts := s.alerts[a := s.alerts[a].(min := min)])
    case DeleteAlert(a) =>
      var al := s.alerts[a];
      s.(alerts := s.alerts[a := al.(live := false, rows := if al.triggered then ResolveFirst(al.rows) else al.rows)])
    case Threshold(a, b) => s.(alerts := s.alerts[a := WithTriggered(s.alerts[a], b)])
    case Fire(a, token) => s.(armed := s.armed - {(a, token)}, running := s.running + {(a, token)})
    case RunCallback(a, token) => Processed(s.(running := s.running - {(a, token)}), a)
    case Restart => Restarted(s)
    case DropRow(a, i) => s.(alerts :=
                             s.alerts[a := s.alerts[a].(rows := s.alerts[a].rows[..i] + s.alerts[a].rows[i + 1..])])
  }

  ghost predicate Follows(s: State, step: Step, t: State) {
    Enabled(s, step) && t == Apply(s, step)
  }

  ghost predicate IsRun(states: seq<State>, steps: seq<Step>) {
    && |states| == |steps| + 1
    && states[0] == INITIAL
    && forall i {:trigger steps[i]} :: 0 <= i < |steps| ==> Follows(states[i], steps[i], states[i + 1])
  }

  // ---------------------------------------------------------------- notifications and history pair up

  function Open(rows: seq<bool>): nat {
    if rows == [] then 0 else (if rows[0] then 0 else 1) + Open(rows[1..])
  }

  /** The last thing that happened is a "down" that nothing has answered yet. */
  predicate Armed(log: seq<Event>) {
    log != [] && log[|log| - 1].DownSent?
  }

  /** "down" only when none is outstanding; "up" and resets only when one is. */
  predicate Paired(log: seq<Event>) {
    log == [] || (Paired(log[..|log| - 1]) && (log[|log| - 1].DownSent? <==> !Armed(log[..|log| - 1])))
  }

  predicate Active(al: Alert) {
    al.live && al.triggered
  }

  predicate AlertOk(al: Alert) {
    && Open(al.rows) <= (if Active(al) then 1 else 0)
    && (al.isStatus ==> Paired(al.log) && (al.live ==> (al.triggered <==> Armed(al.log))))
  }

  predicate HistoryExact(al: Alert) {
    Open(al.rows) == if Active(al) then 1 else 0
  }

  lemma {:induction false} OpenResolve(rows: seq<bool>)
    ensures Open(ResolveFirst(rows)) == if Open(rows) > 0 then Open(rows) - 1 else 0
  {
    if rows != [] && rows[0] {
      OpenResolve(rows[1..]);
    }
  }

  lemma {:induction false} OpenConcat(a: seq<bool>, b: seq<bool>)
    ensures Open(a + b) == Open(a) + Open(b)
  {
    if a == [] {
      assert a + b == b;
    } else {
      assert (a + b)[1..] == a[1..] + b;
      OpenConcat(a[1..], b);
    }
  }

  lemma PairedAppend(log: seq<Event>, e: Event)
    requires Paired(log) && (e.DownSent? <==> !Armed(log))
    ensures Paired(log + [e]) && (Armed(log + [e]) <==> e.DownSent?)
  {
    assert (log + [e])[..|log|] == log;
  }

  lemma WithTriggeredOk(al: Alert, b: bool)
    requires Open(al.rows) <= (if Active(al) then 1 else 0)
    requires al.live
    ensures var al' := WithTriggered(al, b);
            && Open(al'.rows) <= (if Active(al') then 1 else 0)
            && (HistoryExact(al) ==> HistoryExact(al'))
  {
    OpenResolve(al.rows);
    OpenConcat(al.rows, [false]);
  }

  /** A triggered alert that is resolved, with or without a notification. */
  lemma ReleaseOk(al: Alert, e: Event)
    requires AlertOk(al) && Active(al) && !e.DownSent?
    ensures var al' := Logged(WithTriggered(al, false), e); AlertOk(al') && (HistoryExact(al) ==> HistoryExact(al'))
  {
    WithTriggeredOk(al, false);
    if al.isStatus {
      PairedAppend(al.log, e);
    }
  }

  lemma RaiseOk(al: Alert, e: Event)
    requires AlertOk(al) && al.live && !al.triggered && e.DownSent?
    ensures var al' := Logged(WithTriggered(al, true), e); AlertOk(al') && (HistoryExact(al) ==> HistoryExact(al'))
  {
    WithTriggeredOk(al, true);
    if al.isStatus {
      PairedAppend(al.log, e);
    }
  }

  predicate Good(al: Alert, exact: bool) {
    AlertOk(al) && (exact ==> HistoryExact(al))
  }

  predicate AllGood(s: State, exact: bool) {
    forall a <- s.alerts :: Good(s.alerts[a], exact)
  }

  lemma ScheduledGood(s: State, who: set<Id>, exact: bool)
    requires who <= s.alerts.Keys && AllGood(s, exact)
    ensures AllGood(Scheduled(s, who), exact)
  {
  }

  lemma DeactivatedGood(s: State, system: Id, exact: bool)
    requires AllGood(s, exact)
    ensures AllGood(Deactivated(s, system), exact)
  {
    forall a <- s.alerts | Active(s.alerts[a]) ensures Good(Logged(WithTriggered(s.alerts[a], false), Cleared), exact) {
      ReleaseOk(s.alerts[a], Cleared);
    }
  }

  lemma UpHandledGood(s: State, system: Id, exact: bool)
    requires AllGood(s, exact)
    ensures AllGood(UpHandled(s, system), exact)
  {
    forall a <- s.alerts | Active(s.alerts[a]) ensures Good(Logged(WithTriggered(s.alerts[a], false), UpSent), exact) {
      ReleaseOk(s.alerts[a], UpSent);
    }
  }

  lemma StaleResolvedGood(s: State, exact: bool)
    requires AllGood(s, exact)
    ensures AllGood(StaleResolved(s), exact)
  {
    forall a <- s.alerts | Active(s.alerts[a]) ensures Good(Logged(WithTriggered(s.alerts[a], false), Cleared), exact) {
      ReleaseOk(s.alerts[a], Cleared);
    }
  }

  lemma StatusSetGood(s: State, system: Id, status: Status, ws: bool, exact: bool)
    requires AllGood(s, exact)
    ensures AllGood(StatusSet(s, system, status, ws), exact)
  {
    var t := WithStatus(s, system, status);
    var u := if system in t.held then t.(held := t.held[system := status]) else t;
    match status
    case Paused => DeactivatedGood(u, system, exact);
    case Pending => DeactivatedGood(t.(held := t.held[system := Pending]), system, exact);
    case Down => ScheduledGood(u, StatusAlertsOf(u, system), exact);
    case Up => UpHandledGood(u, system, exact);
  }

  lemma RestartGood(s: State, exact: bool)
    requires AllGood(s, exact)
    ensures AllGood(Restarted(s), exact)
  {
    var t := s.(held := map[], pending := map[], armed := map[], running := {});
    StaleResolvedGood(t, exact);
    ScheduledGood(StaleResolved(t), Restorable(StaleResolved(t)), exact);
  }

  lemma ProcessedGood(s: State, a: Id, exact: bool)
    requires AllGood(s, exact)
    ensures AllGood(Processed(s, a), exact)
  {
    if Sends(s, a) {
      var e := s.pending[a];
      var since := if e.system in s.downSince then Some(s.downSince[e.system]) else None;
      RaiseOk(s.alerts[a], DownSent(s.now, since, e.delay));
    }
  }

  lemma DropRowGood(al: Alert, i: nat)
    requires AlertOk(al) && i < |al.rows|
    ensures AlertOk(al.(rows := al.rows[..i] + al.rows[i + 1..]))
  {
    OpenConcat(al.rows[..i], al.rows[i + 1..]);
    OpenConcat(al.rows[..i], al.rows[i..]);
    assert al.rows[..i] + al.rows[i..] == al.rows && al.rows[i..][1..] == al.rows[i + 1..];
  }

  /** Every step keeps notifications paired and at most one history row open; only history pruning can lose that row. */
  lemma StepGood(s: State, step: Step, t: State, exact: bool)
    requires AllGood(s, exact) && Follows(s, step, t) && (exact ==> !step.DropRow?)
    ensures AllGood(t, exact)
  {
    hide StatusSet, Restarted, Processed;
    match step
    case SetStatus(system, status, ws) => StatusSetGood(s, system, status, ws, exact);
    case Restart => RestartGood(s, exact);
    case RunCallback(a, token) => ProcessedGood(s.(running := s.running - {(a, token)}), a, exact);
    case Threshold(a, b) => WithTriggeredOk(s.alerts[a], b);
    case DeleteAlert(a) => OpenResolve(s.alerts[a].rows);
    case DropRow(a, i) => DropRowGood(s.alerts[a], i);
    case _ =>
  }

  lemma {:induction false} RunGood(states: seq<State>, steps: seq<Step>, i: nat, exact: bool)
    requires IsRun(states, steps) && i < |states|
    requires exact ==> forall j {:trigger steps[j]} :: 0 <= j < |steps| ==> !steps[j].DropRow?
    ensures AllGood(states[i], exact)
  {
    hide Apply;
    if i > 0 {
      RunGood(states, steps, i - 1, exact);
      assert Follows(states[i - 1], steps[i - 1], states[i]);
      StepGood(states[i - 1], steps[i - 1], states[i], exact);
    }
  }

  /**
  In every run, every "up" and every silent reset of a status alert answers the "down" right before it, and
  between two "down"s there is one of them.
   */
  lemma NotificationsPair(states: seq<State>, steps: seq<Step>, i: nat, a: Id, k: nat)
    requires IsRun(states, steps) && i < |states| && a in states[i].alerts && states[i].alerts[a].isStatus
    requires k < |states[i].alerts[a].log|
    ensures var log := states[i].alerts[a].log;
            if log[k].DownSent? then k == 0 || !log[k - 1].DownSent? else k > 0 && log[k - 1].DownSent?
  {
    RunGood(states, steps, i, false);
    PairedAt(states[i].alerts[a].log, k);
  }

  lemma {:induction false} PairedAt(log: seq<Event>, k: nat)
    requires Paired(log) && k < |log|
    ensures if log[k].DownSent? then k == 0 || !log[k - 1].DownSent? else k > 0 && log[k - 1].DownSent?
  {
    if k < |log| - 1 {
      PairedAt(log[..|log| - 1], k);
    }
  }

  /** In runs without history pruning, an alert has one unresolved history row while triggered and none otherwise. */
  lemma HistoryMatchesAlerts(states: seq<State>, steps: seq<Step>, i: nat, a: Id)
    requires IsRun(states, steps) && i < |states| && a in states[i].alerts
    requires forall j {:trigger steps[j]} :: 0 <= j < |steps| ==> !steps[j].DropRow?
    ensures Open(states[i].alerts[a].rows) == if Active(states[i].alerts[a]) then 1 else 0
  {
    RunGood(states, steps, i, true);
    assert Good(states[i].alerts[a], true);
  }
}
