/**
What a run of the hub says about its status alerts: which of them are pending, which are triggered, what was sent and
when. The conditions are written on the tables and the manager's statuses, alert by alert.
 */
module StatusTraces {
  import opened Basics
  import opened StatusAlerts
  import opened StatusTimers

  // ---------------------------------------------------------------- one step

  /** The alert's minutes in milliseconds: zero counts as one. */
  function Wait(al: Alert): int {
    60_000 * (if al.min == 0 then 1 else al.min)
  }

  /**
  The step queues the alert: its system was up in the manager and is written "down", or the hub restarts, the alert is
  not triggered and the table has its system as down.
   */
  predicate Queues(s: State, step: Step, a: Id) {
    && a in s.alerts && s.alerts[a].live && s.alerts[a].isStatus
    && match step
       case SetStatus(system, Down, _) =>
         s.alerts[a].system == system && system in s.held && s.held[system] == Up && a !in s.pending
       case Restart =>
         !s.alerts[a].triggered && s.alerts[a].system in s.systems && s.systems[s.alerts[a].system] == Down
       case _ => false
  }

  /**
  The step takes the alert out of the queue: its system comes up in the manager's sight or is paused, its callback runs,
  or the hub restarts.
   */
  predicate Unqueues(s: State, step: Step, a: Id)
    requires a in s.pending
  {
    match step
    case SetStatus(system, Up, _) =>
      && a in s.alerts && s.alerts[a].live && s.alerts[a].isStatus && s.alerts[a].system == system
      && system in s.held && s.held[system] == Down
    case SetStatus(system, Paused, _) => s.pending[a].system == system
    case RunCallback(b, _) => a == b
    case Restart => true
    case _ => false
  }

  predicate StaysQueued(s: State, step: Step, a: Id) {
    a in s.pending && !Unqueues(s, step, a)
  }

  /** What becomes of the alert's entry. */
  ghost predicate QueueLaw(s: State, step: Step, t: State, a: Id) {
    && (a in t.pending <==> Queues(s, step, a) || StaysQueued(s, step, a))
    && (Queues(s, step, a) ==>
          var al := s.alerts[a];
          && t.pending[a] == Entry(al.system, s.now, Wait(al), al.timers)
          && (a, al.timers) in t.armed && t.armed[(a, al.timers)] == s.now + Wait(al))
    && (StaysQueued(s, step, a) && !Queues(s, step, a) ==> t.pending[a] == s.pending[a])
    && (a in s.alerts ==>
          a in t.alerts && t.alerts[a].timers == s.alerts[a].timers + if Queues(s, step, a) then 1 else 0)
  }

  lemma ScheduledLaw(s: State, who: set<Id>, a: Id)
    requires who <= s.alerts.Keys
    ensures var t, added := Scheduled(s, who), a in who && a !in s.pending;
            && (a in t.pending <==> a in who || a in s.pending)
            && (added ==>
                  var al := s.alerts[a];
                  && t.pending[a] == Entry(al.system, s.now, Wait(al), al.timers)
                  && (a, al.timers) in t.armed && t.armed[(a, al.timers)] == s.now + Wait(al))
            && (a in s.pending ==> t.pending[a] == s.pending[a])
            && (a in s.alerts ==>
                  && a in t.alerts
                  && t.alerts[a] == s.alerts[a].(timers := s.alerts[a].timers + if added then 1 else 0))
  {
    if a in who && a !in s.pending {
      assert (a, s.alerts[a].timers) in Started(s.alerts, s.now, who - s.pending.Keys);
    }
  }

  lemma DownLaw(s: State, system: Id, ws: bool, a: Id)
    ensures QueueLaw(s, SetStatus(system, Down, ws), StatusSet(s, system, Down, ws), a)
  {
    hide Scheduled;
    if system in s.held && s.held[system].Up? {
      var u := WithStatus(s, system, Down).(held := s.held[system := Down]);
      ScheduledLaw(u, StatusAlertsOf(u, system), a);
    }
  }

  lemma OtherWriteLaw(s: State, system: Id, status: Status, ws: bool, a: Id)
    requires !status.Down?
    ensures QueueLaw(s, SetStatus(system, status, ws), StatusSet(s, system, status, ws), a)
  {
    hide ResolveFirst, Stopped;
  }

  lemma StaleLaw(s: State, a: Id)
    requires a in s.alerts
    ensures var t, al := StaleResolved(s), s.alerts[a];
            var stale := al.live && al.isStatus && al.triggered && al.system in s.systems && s.systems[al.system] == Up;
            && t.alerts.Keys == s.alerts.Keys
            && t.alerts[a].(triggered := al.triggered, rows := al.rows, log := al.log) == al
            && t.alerts[a].triggered == (al.triggered && !stale)
            && t.alerts[a].log == al.log + (if stale then [Cleared] else [])
            && t.alerts[a].rows == if stale then ResolveFirst(al.rows) else al.rows
  {
    assert s.alerts[a].log + [] == s.alerts[a].log;
  }

  lemma RestartLaw(s: State, a: Id)
    ensures QueueLaw(s, Restart, Restarted(s), a)
  {
    hide Scheduled, StaleResolved;
    var v := s.(held := map[], pending := map[], armed := map[], running := {});
    var t := StaleResolved(v);
    StaleTables(v);
    ScheduledLaw(t, Restorable(t), a);
    if a in s.alerts {
      StaleLaw(v, a);
    }
  }

  lemma StaleTables(s: State)
    ensures StaleResolved(s) == s.(alerts := StaleResolved(s).alerts) && StaleResolved(s).alerts.Keys == s.alerts.Keys
  {
  }

  lemma CallbackLaw(s: State, a: Id, token: nat, b: Id)
    ensures QueueLaw(s, RunCallback(a, token), Processed(s.(running := s.running - {(a, token)}), a), b)
  {
    hide ResolveFirst;
  }

  lemma PlainLaw(s: State, step: Step, t: State, a: Id)
    requires (Plain(step) || step.Fire?) && Follows(s, step, t)
    ensures QueueLaw(s, step, t, a)
  {
    hide ResolveFirst;
  }

  /** Exact: which alerts are pending after a step, with which entry and timer. */
  lemma StepQueues(s: State, step: Step, t: State, a: Id)
    requires Follows(s, step, t)
    ensures QueueLaw(s, step, t, a)
  {
    hide StatusSet, Restarted, Processed, QueueLaw;
    if Plain(step) || step.Fire? {
      PlainLaw(s, step, t, a);
    } else {
      match step
      case SetStatus(system, status, ws) =>
        if status.Down? {
          DownLaw(s, system, ws, a);
        } else {
          OtherWriteLaw(s, system, status, ws, a);
        }
      case Restart => RestartLaw(s, a);
      case RunCallback(b, token) => CallbackLaw(s, b, token, a);
    }
  }

  // ---------------------------------------------------------------- flags, notifications and history

  /** The step triggers the alert: its callback finds it queued, live and untriggered, or a threshold is passed. */
  predicate Raises(s: State, step: Step, a: Id)
    requires a in s.alerts
  {
    match step
    case RunCallback(b, _) =>
      && a == b && a in s.pending && s.alerts[a].live && s.alerts[a].system == s.pending[a].system
      && !s.alerts[a].triggered
    case Threshold(b, v) => a == b && v && !s.alerts[a].triggered
    case _ => false
  }

  /** The step resets the alert. */
  predicate Lowers(s: State, step: Step, a: Id)
    requires a in s.alerts
  {
    var al := s.alerts[a];
    && al.triggered && al.live
    && match step
       case SetStatus(system, Up, _) =>
         al.isStatus && al.system == system && system in s.held && s.held[system] == Down && a !in s.pending
       case SetStatus(system, Paused, _) => al.system == system
       case SetStatus(system, Pending, ws) => al.system == system && !(system in s.held && ws)
       case Restart => al.isStatus && al.system in s.systems && s.systems[al.system] == Up
       case Threshold(b, v) => a == b && !v
       case _ => false
  }

  /** What a step notifies or notes of the alert. */
  function Notes(s: State, step: Step, a: Id): seq<Event>
    requires a in s.alerts
  {
    if Raises(s, step, a) && step.RunCallback? then
      var e := s.pending[a];
      [DownSent(s.now, if e.system in s.downSince then Some(s.downSince[e.system]) else None, e.delay)]
    else if !Lowers(s, step, a) || step.Threshold? then []
    else if step.SetStatus? && step.status.Up? then [UpSent]
    else [Cleared]
  }

  /** What a step does to the alert's history rows. */
  function History(s: State, step: Step, a: Id): seq<bool>
    requires a in s.alerts
  {
    var rows := s.alerts[a].rows;
    if Raises(s, step, a) then rows + [false]
    else if Lowers(s, step, a) then ResolveFirst(rows)
    else match step
      case DeleteAlert(b) => if a == b && s.alerts[a].triggered then ResolveFirst(rows) else rows
      case DropRow(b, i) => if a == b && i < |rows| then rows[..i] + rows[i + 1..] else rows
      case _ => rows
  }

  predicate FlagLaw(s: State, step: Step, t: State, a: Id)
    requires a in s.alerts
  {
    && a in t.alerts
    && (t.alerts[a].triggered <==> Raises(s, step, a) || (s.alerts[a].triggered && !Lowers(s, step, a)))
    && t.alerts[a].log == s.alerts[a].log + Notes(s, step, a)
    && t.alerts[a].rows == History(s, step, a)
  }

  lemma DownFlags(s: State, system: Id, ws: bool, a: Id)
    requires a in s.alerts
    ensures FlagLaw(s, SetStatus(system, Down, ws), StatusSet(s, system, Down, ws), a)
  {
    hide Scheduled;
    assert s.alerts[a].log + [] == s.alerts[a].log;
    if system in s.held && s.held[system].Up? {
      var u := WithStatus(s, system, Down).(held := s.held[system := Down]);
      ScheduledLaw(u, StatusAlertsOf(u, system), a);
    }
  }

  lemma UpFlags(s: State, system: Id, ws: bool, a: Id)
    requires a in s.alerts
    ensures FlagLaw(s, SetStatus(system, Up, ws), StatusSet(s, system, Up, ws), a)
  {
    hide ResolveFirst, Cancelled;
    assert s.alerts[a].log + [] == s.alerts[a].log;
  }

  lemma DeactivatedFlags(s: State, system: Id, a: Id)
    requires a in s.alerts
    ensures var t, al := Deactivated(s, system), s.alerts[a];
            && a in t.alerts
            && t.alerts[a] == if al.live && al.system == system && al.triggered
                              then al.(triggered := false, log := al.log + [Cleared], rows := ResolveFirst(al.rows))
                              else al
  {
  }

  lemma SameDeactivated(s: State, t: State, system: Id)
    requires s.alerts == t.alerts
    ensures Deactivated(s, system).alerts == Deactivated(t, system).alerts
  {
  }

  lemma ResetFlags(s: State, system: Id, status: Status, ws: bool, a: Id)
    requires a in s.alerts && (status.Paused? || status.Pending?)
    ensures FlagLaw(s, SetStatus(system, status, ws), StatusSet(s, system, status, ws), a)
  {
    hide Stopped, PendingOf, Deactivated;
    assert s.alerts[a].log + [] == s.alerts[a].log;
    var t := StatusSet(s, system, status, ws);
    var u := WithStatus(s, system, status);
    DeactivatedFlags(s, system, a);
    SameDeactivated(s, u, system);
    SameDeactivated(s, u.(held := u.held[system := status]), system);
  }

  lemma WriteFlags(s: State, system: Id, status: Status, ws: bool, a: Id)
    requires a in s.alerts
    ensures FlagLaw(s, SetStatus(system, status, ws), StatusSet(s, system, status, ws), a)
  {
    hide StatusSet, FlagLaw;
    match status
    case Up => UpFlags(s, system, ws, a);
    case Down => DownFlags(s, system, ws, a);
    case _ => ResetFlags(s, system, status, ws, a);
  }

  lemma RestartFlags(s: State, a: Id)
    requires a in s.alerts
    ensures FlagLaw(s, Restart, Restarted(s), a)
  {
    hide Scheduled, StaleResolved, ResolveFirst;
    var v := s.(held := map[], pending := map[], armed := map[], running := {});
    var t := StaleResolved(v);
    StaleLaw(v, a);
    ScheduledLaw(t, Restorable(t), a);
  }

  lemma CallbackFlags(s: State, b: Id, token: nat, a: Id)
    requires a in s.alerts
    ensures FlagLaw(s, RunCallback(b, token), Processed(s.(running := s.running - {(b, token)}), b), a)
  {
    hide ResolveFirst;
    assert s.alerts[a].log + [] == s.alerts[a].log;
  }

  lemma PlainFlags(s: State, step: Step, t: State, a: Id)
    requires (Plain(step) || step.Fire?) && Follows(s, step, t) && a in s.alerts
    ensures FlagLaw(s, step, t, a)
  {
    hide ResolveFirst;
    assert s.alerts[a].log + [] == s.alerts[a].log;
  }

  /** Exact: whether an alert is triggered after a step, what was notified and what its history holds. */
  lemma StepFlags(s: State, step: Step, t: State, a: Id)
    requires Follows(s, step, t) && a in s.alerts
    ensures FlagLaw(s, step, t, a)
  {
    hide StatusSet, Restarted, Processed, FlagLaw;
    if Plain(step) || step.Fire? {
      PlainFlags(s, step, t, a);
    } else {
      match step
      case SetStatus(system, status, ws) => WriteFlags(s, system, status, ws, a);
      case Restart => RestartFlags(s, a);
      case RunCallback(b, token) => CallbackFlags(s, b, token, a);
    }
  }

  /** Resolving history closes the first open row, and nothing if none is open. */
  lemma {:induction false} ResolvesFirst(rows: seq<bool>)
    ensures if false in rows
            then exists i :: 0 <= i < |rows| && !rows[i] && (forall j :: 0 <= j < i ==> rows[j])
                             && ResolveFirst(rows) == rows[i := true]
            else ResolveFirst(rows) == rows
  {
    if rows != [] {
      if !rows[0] {
        assert ResolveFirst(rows) == rows[0 := true];
      } else {
        ResolvesFirst(rows[1..]);
        assert rows == [rows[0]] + rows[1..];
        if false in rows {
          assert false in rows[1..];
          var i :| 0 <= i < |rows[1..]| && !rows[1..][i] && (forall j :: 0 <= j < i ==> rows[1..][j])
                   && ResolveFirst(rows[1..]) == rows[1..][i := true];
          forall j | 0 <= j < i + 1 ensures rows[j] {
            assert j > 0 ==> rows[1..][j - 1];
          }
          assert ResolveFirst(rows) == rows[i + 1 := true];
        }
      }
    }
  }

  // ---------------------------------------------------------------- the tables

  /** The manager holds a system from when it is added or any status but "paused" is written, until it is let go. */
  predicate HoldsNext(s: State, step: Step, system: Id) {
    match step
    case AddSystem(x) => x == system || system in s.held
    case SetStatus(x, status, _) => (x == system && !status.Paused?) || system in s.held
    case Hold(x) => x == system || system in s.held
    case Unhold(x) => x != system && system in s.held
    case Restart => false
    case _ => system in s.held
  }

  /** t is s but for alerts, entries and timers. */
  predicate SameTables(s: State, t: State) {
    t.now == s.now && t.systems == s.systems && t.downSince == s.downSince && t.held == s.held
  }

  lemma HandlersLeaveTables(s: State, system: Id, who: set<Id>)
    ensures SameTables(s, Cancelled(s, who)) && SameTables(s, UpHandled(s, system))
    ensures SameTables(s, Deactivated(s, system)) && SameTables(s, StaleResolved(s))
    ensures who <= s.alerts.Keys ==> SameTables(s, Scheduled(s, who))
  {
    hide Stopped, Entries, Started, Counted, ResolveFirst;
  }

  lemma WriteTables(s: State, system: Id, status: Status, ws: bool)
    ensures var t, w := StatusSet(s, system, status, ws), WithStatus(s, system, status);
            && t.now == s.now && t.systems == w.systems && t.downSince == w.downSince
            && t.held == if system in s.held || !status.Paused? then s.held[system := status] else s.held
  {
    hide Scheduled, UpHandled, Deactivated, Cancelled;
    var w := WithStatus(s, system, status);
    var u := w.(held := w.held[system := status]);
    HandlersLeaveTables(w, system, {});
    HandlersLeaveTables(u, system, StatusAlertsOf(u, system));
    HandlersLeaveTables(Deactivated(w, system), system, PendingOf(w, system));
    HandlersLeaveTables(Deactivated(u, system), system, PendingOf(u, system));
  }

  lemma RestartTables(s: State)
    ensures SameTables(s.(held := map[]), Restarted(s))
  {
    hide Scheduled, StaleResolved;
    var v := s.(held := map[], pending := map[], armed := map[], running := {});
    HandlersLeaveTables(v, "", {});
    HandlersLeaveTables(StaleResolved(v), "", Restorable(StaleResolved(v)));
  }

  /** Since when a system is down, after a step. */
  predicate SinceLaw(s: State, step: Step, t: State, system: Id) {
    && (system in t.downSince <==> system in t.systems && t.systems[system] == Down)
    && (system in t.downSince ==>
          t.downSince[system] == if system in s.downSince then s.downSince[system] else s.now)
  }

  /** The status the table has for a system, after a step. */
  predicate TableLaw(s: State, step: Step, t: State, system: Id) {
    && (system in t.systems <==> system in s.systems || step == AddSystem(system))
    && (system in t.systems ==>
          t.systems[system] == if step.SetStatus? && step.system == system then step.status
                               else if system in s.systems then s.systems[system]
                               else Status.Pending)
  }

  ghost predicate TablesLaw(s: State, step: Step, t: State, system: Id) {
    && TableLaw(s, step, t, system) && SinceLaw(s, step, t, system)
    && (system in t.held <==> HoldsNext(s, step, system))
    && t.now == if step.Tick? then step.now else s.now
  }

  lemma PlainStepTables(s: State, step: Step, t: State, system: Id)
    requires TimeOk(s) && HeldOk(s) && (Plain(step) || step.Fire?) && Follows(s, step, t)
    ensures TablesLaw(s, step, t, system)
  {
    hide ResolveFirst;
  }

  lemma WriteStepTables(s: State, step: Step, t: State, system: Id)
    requires TimeOk(s) && TimeOk(t) && step.SetStatus? && Follows(s, step, t)
    ensures TablesLaw(s, step, t, system)
  {
    hide StatusSet;
    WriteTables(s, step.system, step.status, step.ws);
  }

  /** Exact: the systems table, what the manager holds and since when a system is down, after a step. */
  lemma StepTables(s: State, step: Step, t: State, system: Id)
    requires Base(s) && Follows(s, step, t)
    ensures TablesLaw(s, step, t, system)
    ensures system in t.held ==> system in t.systems && t.held[system] == t.systems[system]
  {
    hide StatusSet, Restarted, Processed, EntriesOk, TimersOk;
    StepBase(s, step, t);
    match step
    case SetStatus(_, _, _) => WriteStepTables(s, step, t, system);
    case Restart => RestartTables(s);
    case RunCallback(a, token) => ProcessedFrame(s.(running := s.running - {(a, token)}), a);
    case _ => PlainStepTables(s, step, t, system);
  }

  // ---------------------------------------------------------------- what an alert is set to

  predicate SameSetup(al: Alert, be: Alert) {
    al.system == be.system && al.isStatus == be.isStatus && al.min == be.min && al.live == be.live
  }

  /** Only an edit changes an alert's minutes, and only a deletion ends it; a new one is as it was created. */
  predicate SetupLaw(s: State, step: Step, t: State, a: Id) {
    && (a in t.alerts <==> a in s.alerts || (step.CreateAlert? && step.a == a))
    && (a in s.alerts ==>
          var al, be := s.alerts[a], t.alerts[a];
          && be.system == al.system && be.isStatus == al.isStatus
          && be.min == (if step.EditAlert? && step.a == a then step.min else al.min)
          && (be.live <==> al.live && step != DeleteAlert(a)))
    && (a in t.alerts && a !in s.alerts && step.CreateAlert? ==>
          t.alerts[a] == Alert(step.system, step.isStatus, step.min, true, false, [], [], 0))
  }

  predicate SameSetups(xs: map<Id, Alert>, ys: map<Id, Alert>, a: Id) {
    xs.Keys == ys.Keys && (a in xs ==> SameSetup(xs[a], ys[a]))
  }

  lemma SameSetupsRefl(xs: map<Id, Alert>, a: Id)
    ensures SameSetups(xs, xs, a)
  {
  }

  lemma AnswerSetup(al: Alert, b: bool, e: Event)
    ensures SameSetup(al, Logged(WithTriggered(al, b), e))
  {
  }

  lemma ClearsKeepSetup(s: State, system: Id, a: Id)
    ensures SameSetups(s.alerts, Deactivated(s, system).alerts, a)
    ensures SameSetups(s.alerts, UpHandled(s, system).alerts, a)
    ensures SameSetups(s.alerts, StaleResolved(s).alerts, a)
  {
    hide WithTriggered, Logged, Stopped;
    if a in s.alerts {
      AnswerSetup(s.alerts[a], false, UpSent);
      AnswerSetup(s.alerts[a], false, Cleared);
    }
  }

  lemma ScheduleKeepsSetup(s: State, who: set<Id>, a: Id)
    requires who <= s.alerts.Keys
    ensures SameSetups(s.alerts, Scheduled(s, who).alerts, a)
  {
    hide Entries, Started;
  }

  lemma WriteSetup(s: State, system: Id, status: Status, ws: bool, a: Id)
    ensures SameSetups(s.alerts, StatusSet(s, system, status, ws).alerts, a)
  {
    hide Deactivated, UpHandled, Scheduled, Stopped, PendingOf, SameSetups;
    var u := WithStatus(s, system, status);
    var v := u.(held := u.held[system := status]);
    SameSetupsRefl(s.alerts, a);
    assert u.alerts == s.alerts && v.alerts == s.alerts;
    match status
    case Down => ScheduleKeepsSetup(v, StatusAlertsOf(v, system), a);
    case Up => ClearsKeepSetup(v, system, a);
    case _ =>
      ClearsKeepSetup(u, system, a);
      ClearsKeepSetup(v, system, a);
  }

  lemma RestartSetup(s: State, a: Id)
    ensures SameSetups(s.alerts, Restarted(s).alerts, a)
  {
    hide Deactivated, UpHandled, Scheduled, StaleResolved;
    var v := s.(held := map[], pending := map[], armed := map[], running := {});
    ClearsKeepSetup(v, "", a);
    ScheduleKeepsSetup(StaleResolved(v), Restorable(StaleResolved(v)), a);
  }

  /** Exact: which alerts there are after a step and what they are set to. */
  lemma StepSetup(s: State, step: Step, t: State, a: Id)
    requires Follows(s, step, t)
    ensures SetupLaw(s, step, t, a)
  {
    hide StatusSet, Restarted, ResolveFirst;
    match step
    case SetStatus(system, status, ws) => WriteSetup(s, system, status, ws, a);
    case Restart => RestartSetup(s, a);
    case _ =>
  }

  // ---------------------------------------------------------------- runs

  /** The step leaves the alert's entry as it is. */
  predicate Carries(s: State, step: Step, a: Id) {
    StaysQueued(s, step, a) && !Queues(s, step, a)
  }

  /** Step k queued the alert and no step since then, before i, took it out or queued it again. */
  predicate QueuedAt(states: seq<State>, steps: seq<Step>, k: int, i: nat, a: Id)
    requires |states| == |steps| + 1 && i <= |steps|
  {
    && 0 <= k < i && Queues(states[k], steps[k], a)
    && forall l {:trigger steps[l]} :: k < l < i ==> Carries(states[l], steps[l], a)
  }

  ghost predicate Outstanding(states: seq<State>, steps: seq<Step>, i: nat, a: Id)
    requires |states| == |steps| + 1 && i <= |steps|
  {
    exists k :: QueuedAt(states, steps, k, i, a)
  }

  lemma OutstandingNext(states: seq<State>, steps: seq<Step>, i: nat, a: Id)
    requires |states| == |steps| + 1 && i < |steps|
    ensures Outstanding(states, steps, i + 1, a)
            <==> Queues(states[i], steps[i], a) || (Outstanding(states, steps, i, a) && Carries(states[i], steps[i], a))
  {
    hide Queues, Carries;
    if Queues(states[i], steps[i], a) {
      assert QueuedAt(states, steps, i, i + 1, a);
    } else if Outstanding(states, steps, i, a) && Carries(states[i], steps[i], a) {
      var k :| QueuedAt(states, steps, k, i, a);
      assert QueuedAt(states, steps, k, i + 1, a);
    }
    if Outstanding(states, steps, i + 1, a) && !Queues(states[i], steps[i], a) {
      var k :| QueuedAt(states, steps, k, i + 1, a);
      assert Carries(states[i], steps[i], a);
      assert QueuedAt(states, steps, k, i, a);
    }
  }

  lemma InPending(s: State, step: Step, t: State, a: Id)
    requires QueueLaw(s, step, t, a)
    ensures a in t.pending <==> Queues(s, step, a) || (a in s.pending && Carries(s, step, a))
  {
  }

  /** In every run, the pending alerts are exactly those that a step queued and that none has taken out since. */
  lemma {:induction false} PendingIff(states: seq<State>, steps: seq<Step>, i: nat, a: Id)
    requires IsRun(states, steps) && i <= |steps|
    ensures a in states[i].pending <==> Outstanding(states, steps, i, a)
  {
    hide Apply, Enabled, Queues, Carries, QueueLaw;
    if i > 0 {
      PendingIff(states, steps, i - 1, a);
      var s, step := states[i - 1], steps[i - 1];
      assert Follows(s, step, states[i]);
      StepQueues(s, step, states[i], a);
      InPending(s, step, states[i], a);
      OutstandingNext(states, steps, i - 1, a);
    }
  }

  /** And their entry is the one of that step: the time it was taken, and the minutes the alert had then. */
  lemma {:induction false} EntryOfQueueing(states: seq<State>, steps: seq<Step>, k: nat, i: nat, a: Id)
    requires IsRun(states, steps) && i <= |steps| && QueuedAt(states, steps, k, i, a)
    ensures a in states[i].pending
    ensures var s := states[k];
            states[i].pending[a] == Entry(s.alerts[a].system, s.now, Wait(s.alerts[a]), s.alerts[a].timers)
  {
    hide Apply, Enabled;
    assert Follows(states[i - 1], steps[i - 1], states[i]);
    StepQueues(states[i - 1], steps[i - 1], states[i], a);
    if k < i - 1 {
      EntryOfQueueing(states, steps, k, i - 1, a);
    }
  }

  /**
  In every undisturbed run, a "down" is sent no earlier than the alert's minutes, as they were when it was queued, after
  the step that queued it.
   */
  lemma DownAfterMinutes(states: seq<State>, steps: seq<Step>, i: nat, a: Id, token: nat)
    requires IsRun(states, steps) && i < |steps| && Undisturbed(states, steps, i)
    requires steps[i] == RunCallback(a, token) && a in states[i].alerts && Raises(states[i], steps[i], a)
    ensures exists k :: && QueuedAt(states, steps, k, i, a)
                        && states[k].now + Wait(states[k].alerts[a]) <= states[i].now
  {
    hide Apply, Queues, Carries;
    RunHonest(states, steps, i);
    PendingIff(states, steps, i, a);
    var k :| QueuedAt(states, steps, k, i, a);
    EntryOfQueueing(states, steps, k, i, a);
    var s := states[i];
    assert Follows(s, steps[i], states[i + 1]);
    assert IsLive(s, a) && Owned(s, (a, token));
    assert EntryOk(s, a);
  }

  // ---------------------------------------------------------------- and "down" is sent

  function Later(x: int, y: int): int {
    if x < y then y else x
  }

  /** The hub does nothing but wait, expire timers and run callbacks. */
  predicate IsIdle(steps: seq<Step>) {
    forall i :: 0 <= i < |steps| ==> steps[i].Tick? || steps[i].Fire? || steps[i].RunCallback?
  }

  /** Nothing more than "down" happened to the alert, at the time. */
  predicate HasSent(s: State, t: State, a: Id, at: int)
    requires a in s.alerts && a in s.pending
  {
    && a in t.alerts && t.alerts[a].triggered && a !in t.pending
    && t.alerts[a].log == s.alerts[a].log + [DownSent(at, SinceOf(s, s.pending[a].system), s.pending[a].delay)]
  }

  /** From the expiry of its timer on, the callback of an alert that can send does send. */
  lemma CallbackSends(s: State, a: Id, token: nat)
    requires Base(s) && a in s.pending && CanSend(s, a) && (a, token) in s.running
    ensures HasSent(s, Apply(s, RunCallback(a, token)), a, s.now)
  {
    hide ResolveFirst;
    assert EntryOk(s, a);
  }

  /** Every pending alert that can send does so, when it expires, if the hub is left alone. */
  lemma WillSend(s: State, a: Id) returns (steps: seq<Step>, t: State)
    requires Base(s) && a in s.pending && CanSend(s, a)
    ensures IsIdle(steps) && Leads(s, steps, t)
    ensures var e := s.pending[a];
            if (a, e.token) in s.armed then HasSent(s, t, a, Later(s.now, e.scheduledAt + e.delay))
            else HasSent(s, t, a, s.now)
  {
    hide Apply;
    var e := s.pending[a];
    assert EntryOk(s, a);
    var run := RunCallback(a, e.token);
    if (a, e.token) in s.armed {
      var v := s.(now := Later(s.now, e.scheduledAt + e.delay));
      var w := v.(armed := v.armed - {(a, e.token)}, running := v.running + {(a, e.token)});
      assert Follows(s, Tick(v.now), v) && Follows(v, Fire(a, e.token), w) by {
        TickAndFire(s, a);
      }
      StepBase(s, Tick(v.now), v);
      StepBase(v, Fire(a, e.token), w);
      CallbackSends(w, a, e.token);
      t := Apply(w, run);
      Before(w, run, t, [], t);
      Before(v, Fire(a, e.token), w, [run], t);
      Before(s, Tick(v.now), v, [Fire(a, e.token), run], t);
      steps := [Tick(v.now), Fire(a, e.token), run];
      assert [Tick(v.now)] + [Fire(a, e.token), run] == steps && [Fire(a, e.token)] + [run] == [Fire(a, e.token), run];
    } else {
      CallbackSends(s, a, e.token);
      t := Apply(s, run);
      Before(s, run, t, [], t);
      steps := [run];
      assert [run] + [] == steps;
    }
  }

  lemma TickAndFire(s: State, a: Id)
    requires Base(s) && a in s.pending && (a, s.pending[a].token) in s.armed
    ensures var e := s.pending[a];
            var v := s.(now := Later(s.now, e.scheduledAt + e.delay));
            && Follows(s, Tick(v.now), v)
            && Follows(v, Fire(a, e.token),
                       v.(armed := v.armed - {(a, e.token)}, running := v.running + {(a, e.token)}))
  {
    assert EntryOk(s, a);
  }

  /**
  After a restart, every live and untriggered status alert of a system that the table has as down sends "down" as many
  minutes later as it has.
   */
  lemma RestartSends(s: State, a: Id) returns (steps: seq<Step>, t: State)
    requires Base(s) && a in s.alerts && s.alerts[a].live && s.alerts[a].isStatus && !s.alerts[a].triggered
    requires s.alerts[a].system in s.systems && s.systems[s.alerts[a].system] == Down
    ensures IsIdle(steps) && Leads(s, [Restart] + steps, t)
    ensures a in t.alerts && t.alerts[a].triggered
    ensures t.alerts[a].log == s.alerts[a].log
              + [DownSent(s.now + Wait(s.alerts[a]), Some(s.downSince[s.alerts[a].system]), Wait(s.alerts[a]))]
  {
    hide Restarted, Leads;
    var u := Restarted(s);
    assert Follows(s, Restart, u);
    StepBase(s, Restart, u);
    StepQueues(s, Restart, u, a);
    StepFlags(s, Restart, u, a);
    RestartTables(s);
    RestartLives(s, a);
    steps, t := WillSend(u, a);
    Before(s, Restart, u, steps, t);
    assert s.alerts[a].log + [] == s.alerts[a].log;
  }

  lemma RestartLives(s: State, a: Id)
    requires a in s.alerts
    ensures a in Restarted(s).alerts && Restarted(s).alerts[a].live == s.alerts[a].live
  {
    hide Scheduled, StaleResolved;
    var v := s.(held := map[], pending := map[], armed := map[], running := {});
    StaleLaw(v, a);
    ScheduledLaw(StaleResolved(v), Restorable(StaleResolved(v)), a);
  }

  /** So does every such alert of a system that goes down in the manager's sight. */
  lemma GoingDownSends(s: State, system: Id, ws: bool, a: Id) returns (steps: seq<Step>, t: State)
    requires Base(s) && system in s.held && s.held[system] == Up
    requires a in s.alerts && s.alerts[a].live && s.alerts[a].isStatus && !s.alerts[a].triggered
    requires s.alerts[a].system == system && a !in s.pending
    ensures IsIdle(steps) && Leads(s, [SetStatus(system, Down, ws)] + steps, t)
    ensures a in t.alerts && t.alerts[a].triggered
    ensures t.alerts[a].log == s.alerts[a].log
              + [DownSent(s.now + Wait(s.alerts[a]), Some(s.now), Wait(s.alerts[a]))]
  {
    hide StatusSet, Leads;
    var step := SetStatus(system, Down, ws);
    var u := StatusSet(s, system, Down, ws);
    assert Follows(s, step, u);
    StepBase(s, step, u);
    StepQueues(s, step, u, a);
    StepFlags(s, step, u, a);
    StepTables(s, step, u, system);
    WriteLives(s, system, ws, a);
    steps, t := WillSend(u, a);
    Before(s, step, u, steps, t);
    assert s.alerts[a].log + [] == s.alerts[a].log;
  }

  lemma WriteLives(s: State, system: Id, ws: bool, a: Id)
    requires a in s.alerts && system in s.held && s.held[system].Up?
    ensures a in StatusSet(s, system, Down, ws).alerts
    ensures StatusSet(s, system, Down, ws).alerts[a].live == s.alerts[a].live
  {
    hide Scheduled;
    var u := WithStatus(s, system, Down).(held := s.held[system := Down]);
    ScheduledLaw(u, StatusAlertsOf(u, system), a);
  }
}
