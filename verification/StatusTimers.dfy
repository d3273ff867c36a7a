/**
When a "down" notification is honest: the system has been down, without a break, for the whole delay fixed when the
alert was scheduled. Two kinds of step can spoil it; StatusHonesty proves that they are exactly the ones that do.
 */
module StatusTimers {
  import opened Basics
  import opened StatusAlerts

  // ---------------------------------------------------------------- what every step keeps

  predicate TimeOk(s: State) {
    && (forall sys <- s.downSince :: sys in s.systems && s.systems[sys].Down? && s.downSince[sys] <= s.now)
    && (forall sys <- s.systems :: s.systems[sys].Down? ==> sys in s.downSince)
  }

  /** The manager's copy of a status is the table's. */
  predicate HeldOk(s: State) {
    forall sys <- s.held :: sys in s.systems && s.held[sys] == s.systems[sys]
  }

  /** A pending alert's timer is set for its expiry, or has expired and its callback is about to run. */
  predicate EntryOk(s: State, a: Id)
    requires a in s.pending
  {
    var e := s.pending[a];
    && a in s.alerts && s.alerts[a].isStatus && s.alerts[a].system == e.system
    && e.scheduledAt <= s.now && MINUTE <= e.delay && e.token < s.alerts[a].timers
    && (if (a, e.token) in s.armed then s.armed[(a, e.token)] == e.scheduledAt + e.delay
        else (a, e.token) in s.running && e.scheduledAt + e.delay <= s.now)
  }

  predicate EntriesOk(s: State) {
    forall a <- s.pending :: EntryOk(s, a)
  }

  predicate Known(s: State, t: Timer) {
    t.0 in s.alerts && t.1 < s.alerts[t.0].timers
  }

  predicate TimersOk(s: State) {
    && (forall t <- s.armed :: Known(s, t) && t !in s.running)
    && (forall t <- s.running :: Known(s, t))
  }

  predicate Base(s: State) {
    TimeOk(s) && HeldOk(s) && EntriesOk(s) && TimersOk(s)
  }

  /** Alerts keep their system and kind, and timer numbers only grow. */
  predicate SameAlerts(s: State, t: State) {
    && s.alerts.Keys <= t.alerts.Keys
    && forall a <- s.alerts ::
         t.alerts[a].system == s.alerts[a].system && t.alerts[a].isStatus == s.alerts[a].isStatus
             && s.alerts[a].timers <= t.alerts[a].timers
  }

  lemma TimersFrame(s: State, t: State)
    requires EntriesOk(s) && TimersOk(s) && SameAlerts(s, t)
    requires t.pending == s.pending && t.armed == s.armed && t.running == s.running && s.now <= t.now
    ensures EntriesOk(t) && TimersOk(t)
  {
    forall a <- t.pending ensures EntryOk(t, a) {
      assert EntryOk(s, a);
    }
  }

  lemma CancelledBase(s: State, who: set<Id>)
    requires EntriesOk(s) && TimersOk(s)
    ensures EntriesOk(Cancelled(s, who)) && TimersOk(Cancelled(s, who))
  {
    var t := Cancelled(s, who);
    forall a <- t.pending ensures EntryOk(t, a) {
      assert EntryOk(s, a);
    }
  }

  lemma ScheduledBase(s: State, who: set<Id>)
    requires EntriesOk(s) && TimersOk(s) && who <= s.alerts.Keys && forall a <- who :: s.alerts[a].isStatus
    ensures EntriesOk(Scheduled(s, who)) && TimersOk(Scheduled(s, who))
  {
    var t := Scheduled(s, who);
    forall a <- t.pending ensures EntryOk(t, a) {
      if a in s.pending {
        assert EntryOk(s, a);
      } else {
        assert (a, s.alerts[a].timers) in t.armed;
      }
    }
  }

  /** The handlers do not touch the clock, the systems or the manager. */
  lemma HandlersTables(s: State, system: Id, who: set<Id>)
    requires TimeOk(s)
    ensures TimeOk(Deactivated(s, system)) && TimeOk(UpHandled(s, system)) && TimeOk(Cancelled(s, who))
    ensures TimeOk(Scheduled(s, StatusAlertsOf(s, system)))
    ensures HeldOk(s) ==> HeldOk(Deactivated(s, system)) && HeldOk(UpHandled(s, system)) && HeldOk(Cancelled(s, who))
                          && HeldOk(Scheduled(s, StatusAlertsOf(s, system)))
  {
    hide Stopped, Entries, Started, Counted;
  }

  lemma WithStatusTables(s: State, system: Id, status: Status)
    requires TimeOk(s) && HeldOk(s) && system in s.systems
    ensures var t := WithStatus(s, system, status);
            TimeOk(t) && TimeOk(t.(held := t.held[system := status])) && HeldOk(t.(held := t.held[system := status]))
            && (system !in s.held ==> HeldOk(t))
  {
  }

  lemma StatusSetTables(s: State, system: Id, status: Status, ws: bool)
    requires TimeOk(s) && HeldOk(s) && system in s.systems
    ensures TimeOk(StatusSet(s, system, status, ws)) && HeldOk(StatusSet(s, system, status, ws))
  {
    hide Deactivated, UpHandled, Cancelled, Scheduled, TimeOk, HeldOk;
    var t := WithStatus(s, system, status);
    WithStatusTables(s, system, status);
    var u := t.(held := t.held[system := status]);
    HandlersTables(t, system, {});
    HandlersTables(u, system, {});
    HandlersTables(Deactivated(t, system), system, PendingOf(t, system));
    HandlersTables(Deactivated(u, system), system, PendingOf(u, system));
  }

  lemma ClearedBase(s: State, system: Id)
    requires EntriesOk(s) && TimersOk(s)
    ensures EntriesOk(Deactivated(s, system)) && TimersOk(Deactivated(s, system))
    ensures EntriesOk(UpHandled(s, system)) && TimersOk(UpHandled(s, system))
  {
    hide EntryOk, Known, ResolveFirst, Stopped;
    TimersFrame(s, Deactivated(s, system));
    CancelledBase(s, StatusAlertsOf(s, system));
    TimersFrame(Cancelled(s, StatusAlertsOf(s, system)), UpHandled(s, system));
  }

  lemma StatusSetTimers(s: State, system: Id, status: Status, ws: bool)
    requires EntriesOk(s) && TimersOk(s)
    ensures EntriesOk(StatusSet(s, system, status, ws)) && TimersOk(StatusSet(s, system, status, ws))
  {
    hide EntriesOk, TimersOk, Deactivated, UpHandled, Scheduled, Cancelled;
    var t := WithStatus(s, system, status);
    var u := t.(held := t.held[system := status]);
    TimersFrame(s, t);
    TimersFrame(s, u);
    ClearedBase(t, system);
    ClearedBase(u, system);
    ScheduledBase(u, StatusAlertsOf(u, system));
    var v := if system in t.held then u else t;
    CancelledBase(Deactivated(v, system), PendingOf(v, system));
  }

  lemma StatusSetBase(s: State, system: Id, status: Status, ws: bool)
    requires Base(s) && system in s.systems
    ensures Base(StatusSet(s, system, status, ws))
  {
    StatusSetTables(s, system, status, ws);
    StatusSetTimers(s, system, status, ws);
  }

  lemma RestartBase(s: State)
    requires Base(s)
    ensures Base(Restarted(s))
  {
    var t := StaleResolved(s.(held := map[], pending := map[], armed := map[], running := {}));
    ScheduledBase(t, Restorable(t));
  }

  lemma ProcessedFrame(s: State, a: Id)
    ensures var t := Processed(s, a);
            && t.now == s.now && t.systems == s.systems && t.downSince == s.downSince && t.held == s.held
            && t.armed == s.armed && t.running == s.running && t.pending == s.pending - {a}
            && SameAlerts(s, t)
  {
    if a !in s.pending {
      assert s.pending == s.pending - {a};
    } else if Sends(s, a) {
      var al := Processed(s, a).alerts[a];
      assert al.system == s.alerts[a].system && al.isStatus == s.alerts[a].isStatus && al.timers == s.alerts[a].timers;
    }
  }

  lemma DroppedBase(s: State, a: Id, token: nat)
    requires EntriesOk(s) && TimersOk(s)
    ensures var u := s.(pending := s.pending - {a}, running := s.running - {(a, token)}); EntriesOk(u) && TimersOk(u)
  {
    var u := s.(pending := s.pending - {a}, running := s.running - {(a, token)});
    forall b <- u.pending ensures EntryOk(u, b) {
      assert EntryOk(s, b);
    }
  }

  lemma ProcessedBase(s: State, a: Id, token: nat)
    requires Base(s)
    ensures Base(Processed(s.(running := s.running - {(a, token)}), a))
  {
    var v := s.(running := s.running - {(a, token)});
    DroppedBase(s, a, token);
    ProcessedFrame(v, a);
    TimersFrame(v.(pending := s.pending - {a}), Processed(v, a));
  }

  lemma FireBase(s: State, a: Id, token: nat)
    requires Base(s) && Enabled(s, Fire(a, token))
    ensures Base(Apply(s, Fire(a, token)))
  {
    var t := Apply(s, Fire(a, token));
    forall b <- t.pending ensures EntryOk(t, b) {
      assert EntryOk(s, b);
    }
  }

  /** The steps that touch no timer and send no status notification. */
  predicate Plain(step: Step) {
    !step.SetStatus? && !step.Restart? && !step.RunCallback? && !step.Fire?
  }

  /** What a plain step leaves as it was. */
  lemma PlainFrame(s: State, step: Step, t: State)
    requires Plain(step) && Follows(s, step, t)
    ensures t.pending == s.pending && t.armed == s.armed && t.running == s.running && t.downSince == s.downSince
    ensures s.now <= t.now && SameAlerts(s, t)
    ensures forall a <- s.alerts :: t.alerts[a].log == s.alerts[a].log && (t.alerts[a].live ==> s.alerts[a].live)
    ensures forall a <- t.alerts :: a !in s.alerts ==> t.alerts[a].log == []
    ensures step.DeleteAlert? || forall a <- s.alerts :: t.alerts[a].live == s.alerts[a].live
  {
    hide ResolveFirst;
  }

  lemma PlainTriggered(s: State, step: Step, t: State)
    requires Plain(step) && Follows(s, step, t)
    ensures forall a <- s.alerts ::
              a in t.alerts && (s.alerts[a].isStatus ==> t.alerts[a].triggered == s.alerts[a].triggered)
    ensures forall a <- t.alerts :: a in s.alerts || !t.alerts[a].triggered
  {
    hide ResolveFirst;
  }

  lemma PlainTables(s: State, step: Step, t: State)
    requires TimeOk(s) && HeldOk(s) && Plain(step) && Follows(s, step, t)
    ensures TimeOk(t) && HeldOk(t)
  {
  }

  lemma StepBase(s: State, step: Step, t: State)
    requires Base(s) && Follows(s, step, t)
    ensures Base(t)
  {
    hide StatusSet, Restarted, Processed;
    if Plain(step) {
      PlainFrame(s, step, t);
      PlainTables(s, step, t);
      TimersFrame(s, t);
    } else {
      match step
      case SetStatus(system, status, ws) => StatusSetBase(s, system, status, ws);
      case Restart => RestartBase(s);
      case RunCallback(a, token) => ProcessedBase(s, a, token);
      case Fire(a, token) => FireBase(s, a, token);
    }
  }

  lemma {:induction false} RunBase(states: seq<State>, steps: seq<Step>, i: nat)
    requires IsRun(states, steps) && i < |states|
    ensures Base(states[i])
  {
    if i > 0 {
      RunBase(states, steps, i - 1);
      assert Follows(states[i - 1], steps[i - 1], states[i]);
      StepBase(states[i - 1], steps[i - 1], states[i]);
    }
  }

  // ---------------------------------------------------------------- a pending alert's system is down throughout

  /** The alert's callback would send "down". */
  predicate CanSend(s: State, a: Id) {
    a in s.alerts && s.alerts[a].live && !s.alerts[a].triggered
  }

  predicate Steady(s: State, a: Id)
    requires a in s.pending
  {
    var e := s.pending[a];
    CanSend(s, a) ==> e.system in s.downSince && s.downSince[e.system] <= e.scheduledAt
  }

  predicate Continuous(s: State) {
    forall a <- s.pending :: Steady(s, a)
  }

  predicate Waiting(s: State, system: Id) {
    exists a <- s.pending :: CanSend(s, a) && s.pending[a].system == system
  }

  /** Some alert of the system is pending, triggered or not. */
  predicate Queued(s: State, system: Id) {
    exists a <- s.pending :: a in s.alerts && s.alerts[a].live && s.pending[a].system == system
  }

  /** A write of "pending" resets the system's alerts, unless the manager keeps the system for its WebSocket. */
  predicate Resets(s: State, system: Id, ws: bool) {
    !(system in s.held && ws)
  }

  /**
  A status write that takes a system out of "down" and leaves an alert of it pending and able to send: to "pending",
  which cancels nothing and may reset a triggered alert, or to "up" when the manager does not hold the system.
   */
  predicate LosesTimer(s: State, step: Step) {
    && step.SetStatus?
    && match step.status
       case Pending => Waiting(s, step.system) || (Resets(s, step.system, step.ws) && Queued(s, step.system))
       case Up => step.system !in s.held && Waiting(s, step.system)
       case _ => false
  }

  lemma ContinuousFrame(s: State, t: State)
    requires Continuous(s)
    requires forall a <- t.pending :: a in s.pending && t.pending[a] == s.pending[a]
    requires forall a <- t.pending :: CanSend(t, a) ==> CanSend(s, a)
    requires forall sys <- s.downSince ::
               (exists a <- t.pending :: t.pending[a].system == sys) ==>
                   sys in t.downSince && t.downSince[sys] == s.downSince[sys]
    ensures Continuous(t)
  {
    forall a <- t.pending ensures Steady(t, a) {
      assert Steady(s, a);
    }
  }

  /** Nothing waits on a system that is not down. */
  lemma NotDownNotWaiting(s: State, system: Id)
    requires TimeOk(s) && Continuous(s)
    requires system !in s.systems || !s.systems[system].Down?
    ensures !Waiting(s, system)
  {
    forall a <- s.pending ensures CanSend(s, a) ==> s.pending[a].system in s.downSince {
      assert Steady(s, a);
    }
  }

  /** Writing a status does no harm to the alerts of other systems. */
  lemma WithStatusContinuous(s: State, system: Id, status: Status, u: State)
    requires Base(s) && Continuous(s)
    requires u == WithStatus(s, system, status).(held := u.held)
    ensures status.Down? || !Waiting(s, system) ==> Continuous(u)
    ensures !status.Down? && Waiting(s, system) ==> !Continuous(u)
  {
    if status.Down? || !Waiting(s, system) {
      forall a <- u.pending ensures Steady(u, a) {
        assert Steady(s, a);
      }
    } else {
      var a :| a in s.pending && CanSend(s, a) && s.pending[a].system == system;
      assert !Steady(u, a);
    }
  }

  /** Resetting the alerts of a system that is not down is safe exactly when none of them is pending. */
  lemma ResetContinuous(s: State, u: State, system: Id)
    requires Base(s) && Continuous(s) && system !in u.downSince
    requires u.alerts == s.alerts && u.pending == s.pending && u.downSince == s.downSince - {system}
    ensures Continuous(Deactivated(u, system)) <==> !Queued(s, system)
  {
    hide ResolveFirst;
    var t := Deactivated(u, system);
    if Queued(s, system) {
      var a :| a in s.pending && a in s.alerts && s.alerts[a].live && s.pending[a].system == system;
      assert EntryOk(s, a);
      assert CanSend(t, a) && !Steady(t, a);
    } else {
      forall a <- t.pending ensures Steady(t, a) {
        assert Steady(s, a) && EntryOk(s, a);
      }
    }
  }

  lemma ScheduledContinuous(s: State, system: Id)
    requires TimeOk(s) && Continuous(s) && system in s.downSince
    ensures Continuous(Scheduled(s, StatusAlertsOf(s, system)))
  {
    var t := Scheduled(s, StatusAlertsOf(s, system));
    forall a <- t.pending ensures Steady(t, a) {
      if a in s.pending {
        assert Steady(s, a);
      }
    }
  }

  /** Cancelling every waiting alert of a system is enough. */
  lemma CancelledContinuous(s: State, t: State, system: Id, status: Status)
    requires Base(s) && Continuous(s)
    requires t.downSince == WithStatus(s, system, status).downSince
    requires forall a <- t.pending :: a in s.pending && t.pending[a] == s.pending[a]
    requires forall a <- t.pending :: CanSend(t, a) ==> CanSend(s, a)
    requires !Waiting(t, system)
    ensures Continuous(t)
  {
    forall a <- t.pending ensures Steady(t, a) {
      assert Steady(s, a);
    }
  }

  lemma PausedContinuous(s: State, system: Id, ws: bool)
    requires Base(s) && Continuous(s) && system in s.systems
    ensures Continuous(StatusSet(s, system, Paused, ws))
  {
    hide ResolveFirst, Stopped;
    var t := StatusSet(s, system, Paused, ws);
    forall a <- t.pending ensures t.pending[a].system != system && (CanSend(t, a) ==> CanSend(s, a)) {
      assert EntryOk(s, a);
    }
    CancelledContinuous(s, t, system, Paused);
  }

  lemma PendingContinuous(s: State, system: Id, ws: bool)
    requires Base(s) && Continuous(s) && system in s.systems
    ensures Continuous(StatusSet(s, system, Status.Pending, ws))
            <==> !LosesTimer(s, SetStatus(system, Status.Pending, ws))
  {
    hide Deactivated;
    var u := WithStatus(s, system, Status.Pending).(held := s.held[system := Status.Pending]);
    assert Waiting(s, system) ==> Queued(s, system);
    if Resets(s, system, ws) {
      ResetContinuous(s, u, system);
    } else {
      WithStatusContinuous(s, system, Status.Pending, u);
    }
  }

  lemma DownContinuous(s: State, system: Id, ws: bool)
    requires Base(s) && Continuous(s) && system in s.systems
    ensures Continuous(StatusSet(s, system, Down, ws))
  {
    var u := WithStatus(s, system, Down).(held := s.held[system := Down]);
    assert TimeOk(u);
    WithStatusContinuous(s, system, Down, u);
    ScheduledContinuous(u, system);
  }

  lemma UpContinuous(s: State, system: Id, ws: bool)
    requires Base(s) && Continuous(s) && system in s.systems
    ensures Continuous(StatusSet(s, system, Up, ws)) <==> !Waiting(s, system) || system in s.held
  {
    hide ResolveFirst;
    var t := StatusSet(s, system, Up, ws);
    if system in s.held && s.held[system].Down? {
      forall a <- t.pending ensures CanSend(t, a) ==> t.pending[a].system != system && CanSend(s, a) {
        assert EntryOk(s, a);
      }
      CancelledContinuous(s, t, system, Up);
    } else {
      if system in s.held {
        NotDownNotWaiting(s, system);
      }
      WithStatusContinuous(s, system, Up, t);
    }
  }

  lemma RestartContinuous(s: State)
    requires Base(s)
    ensures Continuous(Restarted(s))
  {
    var t := Restarted(s);
    forall a <- t.pending ensures Steady(t, a) {
    }
  }

  lemma CallbackContinuous(s: State, a: Id, token: nat, t: State)
    requires Base(s) && Continuous(s) && Follows(s, RunCallback(a, token), t)
    ensures Continuous(t)
  {
    var v := s.(running := s.running - {(a, token)});
    ProcessedFrame(v, a);
    ProcessedAlerts(v, a);
    ContinuousFrame(s, t);
  }

  lemma PlainContinuous(s: State, step: Step, t: State)
    requires Base(s) && Continuous(s) && Plain(step) && Follows(s, step, t)
    ensures Continuous(t)
  {
    hide Apply;
    PlainFrame(s, step, t);
    PlainTriggered(s, step, t);
    forall a <- t.pending ensures a in s.alerts && s.alerts[a].isStatus { assert EntryOk(s, a); }
    ContinuousFrame(s, t);
  }

  /**
  The condition is exact: every waiting alert's system stays down since before it was scheduled, or the step loses a
  timer.
   */
  lemma ContinuousExact(s: State, step: Step, t: State)
    requires Base(s) && Continuous(s) && Follows(s, step, t)
    ensures Continuous(t) <==> !LosesTimer(s, step)
  {
    hide StatusSet, Restarted, Processed, Continuous;
    if Plain(step) {
      PlainContinuous(s, step, t);
    } else {
      match step
      case SetStatus(system, Paused, ws) => PausedContinuous(s, system, ws);
      case SetStatus(system, Pending, ws) => PendingContinuous(s, system, ws);
      case SetStatus(system, Down, ws) => DownContinuous(s, system, ws);
      case SetStatus(system, Up, ws) => UpContinuous(s, system, ws);
      case Restart => RestartContinuous(s);
      case RunCallback(a, token) => CallbackContinuous(s, a, token, t);
      case Fire(a, token) => FireContinuous(s, a, token, t);
    }
  }

  lemma FireContinuous(s: State, a: Id, token: nat, t: State)
    requires Continuous(s) && Follows(s, Fire(a, token), t)
    ensures Continuous(t)
  {
    ContinuousFrame(s, t);
  }

  lemma ProcessedAlerts(s: State, a: Id)
    ensures Processed(s, a).alerts.Keys == s.alerts.Keys
    ensures forall b <- s.alerts :: Processed(s, a).alerts[b].live == s.alerts[b].live
    ensures forall b <- s.alerts ::
              Processed(s, a).alerts[b].triggered == (s.alerts[b].triggered || (b == a && Sends(s, a)))
    ensures forall b <- s.alerts :: Processed(s, a).alerts[b].log ==
                                    if b == a && Sends(s, a)
                                    then s.alerts[b].log + [DownSent(s.now, SinceOf(s, s.pending[a].system),
                                                                     s.pending[a].delay)]
                                    else s.alerts[b].log
  {
  }

  function SinceOf(s: State, system: Id): Option<int> {
    if system in s.downSince then Some(s.downSince[system]) else None
  }

  // ---------------------------------------------------------------- callbacks run for the alert that started them

  /** The timer is the one of its alert's current entry. */
  predicate Owned(s: State, t: Timer) {
    t.0 in s.pending && s.pending[t.0].token == t.1
  }

  predicate IsLive(s: State, a: Id) {
    a in s.alerts && s.alerts[a].live
  }

  /** The timers of live alerts are those of their current entries. */
  predicate Current(s: State) {
    && (forall x <- s.armed :: IsLive(s, x.0) ==> Owned(s, x))
    && (forall x <- s.running :: IsLive(s, x.0) ==> Owned(s, x))
  }

  /** The pending alerts a step cancels. */
  function Cancels(s: State, step: Step): set<Id> {
    match step
    case SetStatus(system, Paused, _) => PendingOf(s, system)
    case SetStatus(system, Up, _) =>
      if system in s.held && s.held[system].Down? then StatusAlertsOf(s, system) * s.pending.Keys else {}
    case _ => {}
  }

  /** The step cancels a live alert whose timer has already expired: the callback outlives its entry. */
  predicate Overtakes(s: State, step: Step) {
    exists a <- Cancels(s, step) :: IsLive(s, a) && a in s.pending && (a, s.pending[a].token) in s.running
  }

  lemma CancelledCurrent(s: State, who: set<Id>)
    requires Current(s) && who <= s.pending.Keys
    ensures Current(Cancelled(s, who)) <==> !exists a <- who :: IsLive(s, a) && (a, s.pending[a].token) in s.running
  {
    var t := Cancelled(s, who);
    if a :| a in who && IsLive(s, a) && (a, s.pending[a].token) in s.running {
      assert !Owned(t, (a, s.pending[a].token)) && (a, s.pending[a].token) in t.running;
    } else {
      forall x <- t.running ensures IsLive(t, x.0) ==> Owned(t, x) {
        if IsLive(s, x.0) {
          assert Owned(s, x);
          assert x == (x.0, s.pending[x.0].token);
        }
      }
      forall x <- t.armed ensures IsLive(t, x.0) ==> Owned(t, x) {
        assert IsLive(s, x.0) ==> Owned(s, x);
      }
    }
  }

  lemma CurrentFrame(s: State, t: State)
    requires t.pending == s.pending && t.armed == s.armed && t.running == s.running
    requires forall a: Id :: IsLive(t, a) ==> IsLive(s, a) || (a !in s.alerts && a in t.alerts)
    requires TimersOk(s)
    ensures Current(s) ==> Current(t)
    ensures (forall a: Id :: IsLive(t, a) <==> IsLive(s, a)) ==> (Current(t) <==> Current(s))
  {
    forall x: Timer ensures Owned(t, x) <==> Owned(s, x) {
    }
    forall x: Timer | x in s.armed || x in s.running ensures IsLive(t, x.0) ==> IsLive(s, x.0) {
      assert Known(s, x);
    }
  }

  lemma ScheduledCurrent(s: State, who: set<Id>)
    requires Current(s) && who <= s.alerts.Keys
    ensures Current(Scheduled(s, who))
  {
    var t := Scheduled(s, who);
    forall x <- t.armed ensures IsLive(t, x.0) ==> Owned(t, x) {
      if x in s.armed {
        assert IsLive(s, x.0) ==> Owned(s, x);
      }
    }
    forall x <- t.running ensures IsLive(t, x.0) ==> Owned(t, x) {
      assert IsLive(s, x.0) ==> Owned(s, x);
    }
  }

  lemma HandlersLive(s: State, system: Id, a: Id)
    ensures IsLive(Deactivated(s, system), a) <==> IsLive(s, a)
    ensures IsLive(UpHandled(s, system), a) <==> IsLive(s, a)
  {
    hide ResolveFirst, Stopped;
  }

  lemma DeactivatedCurrent(s: State, system: Id)
    requires TimersOk(s)
    ensures Current(Deactivated(s, system)) <==> Current(s)
  {
    hide Current, IsLive;
    forall a: Id ensures IsLive(Deactivated(s, system), a) <==> IsLive(s, a) {
      HandlersLive(s, system, a);
    }
    CurrentFrame(s, Deactivated(s, system));
  }

  lemma UpHandledCurrent(s: State, system: Id)
    requires TimersOk(s)
    ensures Current(UpHandled(s, system)) <==> Current(Cancelled(s, StatusAlertsOf(s, system)))
  {
    hide Current, IsLive, Stopped;
    forall a: Id ensures IsLive(UpHandled(s, system), a) <==> IsLive(Cancelled(s, StatusAlertsOf(s, system)), a) {
      HandlersLive(s, system, a);
      CancelledLive(s, StatusAlertsOf(s, system), a);
    }
    CancelledTimers(s, StatusAlertsOf(s, system));
    CurrentFrame(Cancelled(s, StatusAlertsOf(s, system)), UpHandled(s, system));
  }

  lemma CancelledLive(s: State, who: set<Id>, a: Id)
    ensures IsLive(Cancelled(s, who), a) <==> IsLive(s, a)
  {
  }

  lemma CancelledTimers(s: State, who: set<Id>)
    requires TimersOk(s)
    ensures TimersOk(Cancelled(s, who))
  {
  }

  lemma WithStatusCurrent(s: State, system: Id, status: Status)
    requires TimersOk(s)
    ensures var t := WithStatus(s, system, status);
            && TimersOk(t) && TimersOk(t.(held := t.held[system := status]))
            && (Current(t) <==> Current(s)) && (Current(t.(held := t.held[system := status])) <==> Current(s))
  {
    var t := WithStatus(s, system, status);
    var u := t.(held := t.held[system := status]);
    assert forall a: Id :: IsLive(t, a) <==> IsLive(s, a);
    assert forall a: Id :: IsLive(u, a) <==> IsLive(s, a);
    CurrentFrame(s, t);
    CurrentFrame(s, u);
  }

  lemma StatusCurrent(s: State, system: Id, status: Status, ws: bool)
    requires Base(s) && Current(s) && system in s.systems
    ensures Current(StatusSet(s, system, status, ws)) <==> !Overtakes(s, SetStatus(system, status, ws))
  {
    hide Current, TimersOk, Deactivated, UpHandled, Scheduled, Cancelled, IsLive;
    var t := WithStatus(s, system, status);
    var u := t.(held := t.held[system := status]);
    WithStatusCurrent(s, system, status);
    match status
    case Paused =>
      var v := if system in t.held then u else t;
      PausedCurrent(s, v, system);
    case Pending =>
      DeactivatedCurrent(u, system);
    case Down => ScheduledCurrent(u, StatusAlertsOf(u, system));
    case Up =>
      if system in s.held && s.held[system].Down? {
        UpCurrent(s, u, system);
      }
  }

  lemma PausedCurrent(s: State, u: State, system: Id)
    requires Current(u) && TimersOk(u) && u.pending == s.pending && u.running == s.running && u.alerts == s.alerts
    ensures Current(Cancelled(Deactivated(u, system), PendingOf(u, system))) <==>
            !exists a <- PendingOf(s, system) :: IsLive(s, a) && a in s.pending && (a, s.pending[a].token) in s.running
  {
    hide Current, TimersOk;
    DeactivatedCurrent(u, system);
    forall a: Id ensures IsLive(Deactivated(u, system), a) <==> IsLive(s, a) {
      HandlersLive(u, system, a);
    }
    CancelledCurrent(Deactivated(u, system), PendingOf(s, system));
    assert PendingOf(u, system) == PendingOf(s, system);
  }

  lemma UpCurrent(s: State, u: State, system: Id)
    requires Current(u) && TimersOk(u) && u.pending == s.pending && u.running == s.running && u.alerts == s.alerts
    ensures Current(UpHandled(u, system)) <==>
            !exists a <- StatusAlertsOf(s, system) * s.pending.Keys :: IsLive(s, a) && a in s.pending
                && (a, s.pending[a].token) in s.running
  {
    hide Current, TimersOk, UpHandled;
    var who := StatusAlertsOf(s, system) * s.pending.Keys;
    assert StatusAlertsOf(u, system) == StatusAlertsOf(s, system);
    UpHandledCurrent(u, system);
    CancelledCurrent(u, who);
    CancelledSame(u, StatusAlertsOf(s, system), who);
  }

  lemma CancelledSame(s: State, all: set<Id>, who: set<Id>)
    requires who == all * s.pending.Keys
    ensures Cancelled(s, all) == Cancelled(s, who)
  {
    assert s.pending - all == s.pending - who;
    assert Cancelled(s, all).armed == Cancelled(s, who).armed;
  }

  lemma RunCallbackCurrent(s: State, a: Id, token: nat, t: State)
    requires Current(s) && Follows(s, RunCallback(a, token), t) && TimersOk(s)
    ensures Current(t)
  {
    var v := s.(running := s.running - {(a, token)});
    ProcessedFrame(v, a);
    ProcessedAlerts(v, a);
    assert IsLive(s, a) ==> Owned(s, (a, token));
    forall x <- t.armed ensures IsLive(t, x.0) ==> Owned(t, x) {
      assert IsLive(s, x.0) ==> Owned(s, x);
      assert x != (a, token);
    }
    forall x <- t.running ensures IsLive(t, x.0) ==> Owned(t, x) {
      assert IsLive(s, x.0) ==> Owned(s, x);
    }
  }

  lemma RestartCurrent(s: State)
    ensures Current(Restarted(s))
  {
    var t := StaleResolved(s.(held := map[], pending := map[], armed := map[], running := {}));
    ScheduledCurrent(t, Restorable(t));
  }

  lemma FireCurrent(s: State, a: Id, token: nat, t: State)
    requires Current(s) && Follows(s, Fire(a, token), t)
    ensures Current(t)
  {
    assert IsLive(s, a) ==> Owned(s, (a, token));
    forall x <- t.running ensures IsLive(t, x.0) ==> Owned(t, x) { assert x == (a, token)
                                                                  || (IsLive(s, x.0) ==> Owned(s, x)); }
    forall x <- t.armed ensures IsLive(t, x.0) ==> Owned(t, x) { assert IsLive(s, x.0) ==> Owned(s, x); }
  }

  lemma PlainCurrent(s: State, step: Step, t: State)
    requires TimersOk(s) && Current(s) && Plain(step) && Follows(s, step, t)
    ensures Current(t)
  {
    hide Apply, Current;
    PlainFrame(s, step, t);
    CurrentFrame(s, t);
  }

  /** Exact again: every live alert's timers belong to its current entry, or the step overtook an expired one. */
  lemma CurrentExact(s: State, step: Step, t: State)
    requires Base(s) && Current(s) && Follows(s, step, t)
    ensures Current(t) <==> !Overtakes(s, step)
  {
    hide StatusSet, Restarted, Processed, Current;
    if Plain(step) {
      PlainCurrent(s, step, t);
    } else {
      match step
      case SetStatus(system, status, ws) => StatusCurrent(s, system, status, ws);
      case Restart => RestartCurrent(s);
      case RunCallback(a, token) => RunCallbackCurrent(s, a, token, t);
      case Fire(a, token) => FireCurrent(s, a, token, t);
    }
  }

  // ---------------------------------------------------------------- "down" means down for the whole delay

  predicate HonestEvent(e: Event) {
    e.DownSent? ==> MINUTE <= e.delay && e.since.Some? && e.since.value + e.delay <= e.at
  }

  predicate HonestLog(log: seq<Event>) {
    forall k :: 0 <= k < |log| ==> HonestEvent(log[k])
  }

  predicate Honest(s: State) {
    forall a <- s.alerts :: HonestLog(s.alerts[a].log)
  }

  /** Only "up"s and resets were appended. */
  predicate Quiet(before: map<Id, Alert>, after: map<Id, Alert>) {
    && after.Keys == before.Keys
    && forall a <- before :: || after[a].log == before[a].log
                             || after[a].log == before[a].log + [UpSent]
                             || after[a].log == before[a].log + [Cleared]
  }

  lemma QuietHonest(s: State, t: State)
    requires Honest(s) && Quiet(s.alerts, t.alerts)
    ensures Honest(t)
  {
    forall a <- t.alerts ensures HonestLog(t.alerts[a].log) {
      assert HonestLog(s.alerts[a].log);
    }
  }

  lemma DeactivatedQuiet(s: State, system: Id)
    ensures Quiet(s.alerts, s.alerts) && Quiet(s.alerts, Deactivated(s, system).alerts)
  {
    hide ResolveFirst;
  }

  lemma UpHandledQuiet(s: State, system: Id)
    ensures Quiet(s.alerts, UpHandled(s, system).alerts)
  {
    hide ResolveFirst, Cancelled;
  }

  lemma ScheduledQuiet(s: State, system: Id)
    ensures Quiet(s.alerts, Scheduled(s, StatusAlertsOf(s, system)).alerts)
  {
    hide Entries, Started;
    assert StatusAlertsOf(s, system) <= s.alerts.Keys;
  }

  lemma StatusQuiet(s: State, system: Id, status: Status, ws: bool)
    ensures Quiet(s.alerts, StatusSet(s, system, status, ws).alerts)
  {
    hide Deactivated, UpHandled, Scheduled, Quiet;
    var t := WithStatus(s, system, status);
    var u := t.(held := t.held[system := status]);
    DeactivatedQuiet(t, system);
    DeactivatedQuiet(u, system);
    UpHandledQuiet(u, system);
    ScheduledQuiet(u, system);
  }

  lemma RestartQuiet(s: State)
    ensures Quiet(s.alerts, Restarted(s).alerts)
  {
    var t := StaleResolved(s.(held := map[], pending := map[], armed := map[], running := {}));
    assert Quiet(s.alerts, t.alerts);
    assert forall a <- t.alerts :: Scheduled(t, Restorable(t)).alerts[a].log == t.alerts[a].log;
  }

  /** The "down" that a callback sends is honest. */
  lemma SendHonest(s: State, a: Id, token: nat, v: State)
    requires Base(s) && Continuous(s) && Current(s) && (a, token) in s.running
    requires v == s.(running := s.running - {(a, token)}) && Sends(v, a)
    ensures HonestEvent(DownSent(v.now, SinceOf(v, v.pending[a].system), v.pending[a].delay))
  {
    assert IsLive(s, a) && Owned(s, (a, token));
    assert EntryOk(s, a) && Steady(s, a);
  }

  lemma CallbackHonest(s: State, a: Id, token: nat, t: State)
    requires Base(s) && Continuous(s) && Current(s) && Honest(s) && Follows(s, RunCallback(a, token), t)
    ensures Honest(t)
  {
    hide Processed, Base, Continuous, Current, Sends;
    var v := s.(running := s.running - {(a, token)});
    ProcessedAlerts(v, a);
    if Sends(v, a) {
      SendHonest(s, a, token, v);
    }
    forall b <- t.alerts ensures HonestLog(t.alerts[b].log) {
      assert HonestLog(s.alerts[b].log);
    }
  }

  lemma StepHonest(s: State, step: Step, t: State)
    requires Base(s) && Continuous(s) && Current(s) && Honest(s) && Follows(s, step, t)
    ensures Honest(t)
  {
    hide StatusSet, Restarted, Processed;
    if Plain(step) {
      PlainFrame(s, step, t);
      forall a <- t.alerts ensures HonestLog(t.alerts[a].log) {
        assert a in s.alerts ==> HonestLog(s.alerts[a].log);
      }
    } else {
      match step
      case SetStatus(system, status, ws) =>
        StatusQuiet(s, system, status, ws);
        QuietHonest(s, t);
      case Restart =>
        RestartQuiet(s);
        QuietHonest(s, t);
      case RunCallback(a, token) => CallbackHonest(s, a, token, t);
      case Fire(_, _) => QuietHonest(s, t);
    }
  }

  /** The step loses a timer or overtakes one. */
  predicate Disturbs(s: State, step: Step) {
    LosesTimer(s, step) || Overtakes(s, step)
  }

  /** No step of the run up to `n` does. */
  ghost predicate Undisturbed(states: seq<State>, steps: seq<Step>, n: nat)
    requires n <= |steps| <= |states|
  {
    forall i {:trigger steps[i]} :: 0 <= i < n ==> !Disturbs(states[i], steps[i])
  }

  lemma {:induction false} RunHonest(states: seq<State>, steps: seq<Step>, n: nat)
    requires IsRun(states, steps) && n <= |steps| && Undisturbed(states, steps, n)
    ensures Base(states[n]) && Continuous(states[n]) && Current(states[n]) && Honest(states[n])
  {
    if n > 0 {
      RunHonest(states, steps, n - 1);
      var s, step, t := states[n - 1], steps[n - 1], states[n];
      StepBase(s, step, t);
      ContinuousExact(s, step, t);
      CurrentExact(s, step, t);
      StepHonest(s, step, t);
    }
  }

  /**
  In every undisturbed run, each "down" notification was sent when the systems table had said "down" without a break for
  at least the whole delay fixed at scheduling, itself at least a minute.
   */
  lemma DownMeansDown(states: seq<State>, steps: seq<Step>, n: nat, a: Id, k: nat)
    requires IsRun(states, steps) && n <= |steps| && Undisturbed(states, steps, n)
    requires a in states[n].alerts && k < |states[n].alerts[a].log| && states[n].alerts[a].log[k].DownSent?
    ensures var e := states[n].alerts[a].log[k];
            MINUTE <= e.delay && e.since.Some? && e.since.value + e.delay <= e.at
  {
    RunHonest(states, steps, n);
    assert HonestLog(states[n].alerts[a].log);
    assert HonestEvent(states[n].alerts[a].log[k]);
  }

  /** In every run, a pending alert's timer is set for its expiry or has expired: it cannot be forgotten. */
  lemma PendingHasTimer(states: seq<State>, steps: seq<Step>, n: nat, a: Id)
    requires IsRun(states, steps) && n < |states| && a in states[n].pending
    ensures var s, e := states[n], states[n].pending[a];
            || ((a, e.token) in s.armed && s.armed[(a, e.token)] == e.scheduledAt + e.delay)
            || ((a, e.token) in s.running && e.scheduledAt + e.delay <= s.now)
  {
    RunBase(states, steps, n);
    assert EntryOk(states[n], a);
  }

  // ---------------------------------------------------------------- a paused system is left alone

  predicate IsPaused(s: State, system: Id) {
    system in s.systems && s.systems[system].Paused?
  }

  /** No status alert of a paused system is pending or triggered. */
  predicate PausedQuiet(s: State) {
    && (forall a <- s.pending :: !IsPaused(s, s.pending[a].system))
    && (forall a <- s.alerts :: Active(s.alerts[a]) && s.alerts[a].isStatus ==> !IsPaused(s, s.alerts[a].system))
  }

  lemma PlainPaused(s: State, step: Step, t: State)
    requires PausedQuiet(s) && Base(s) && Plain(step) && Follows(s, step, t)
    ensures PausedQuiet(t)
  {
    PlainFrame(s, step, t);
    PlainTriggered(s, step, t);
    forall a <- t.alerts | Active(t.alerts[a]) && t.alerts[a].isStatus ensures !IsPaused(t, t.alerts[a].system) {
      assert a in s.alerts && Active(s.alerts[a]);
    }
  }

  /** Alerts keep their system and kind, and none becomes active. */
  predicate Calmer(before: map<Id, Alert>, after: map<Id, Alert>) {
    && after.Keys == before.Keys
    && forall a <- after :: after[a].system == before[a].system && after[a].isStatus == before[a].isStatus
        && (Active(after[a]) ==> Active(before[a]))
  }

  /** What is pending was pending before, or is of the given system. */
  predicate PendingWithin(before: map<Id, Entry>, after: map<Id, Entry>, system: Id) {
    forall a <- after :: after[a].system == system || (a in before && after[a] == before[a])
  }

  lemma DeactivatedCalm(s: State, system: Id)
    ensures Calmer(s.alerts, Deactivated(s, system).alerts)
  {
    hide ResolveFirst;
  }

  lemma UpHandledCalm(s: State, system: Id)
    ensures Calmer(s.alerts, UpHandled(s, system).alerts)
  {
    hide ResolveFirst, Cancelled;
  }

  lemma ScheduledCalm(s: State, system: Id)
    ensures Calmer(s.alerts, Scheduled(s, StatusAlertsOf(s, system)).alerts)
  {
    hide Entries, Started;
    assert StatusAlertsOf(s, system) <= s.alerts.Keys;
  }

  lemma HandlersWithin(s: State, system: Id)
    ensures PendingWithin(s.pending, s.pending, system)
            && PendingWithin(s.pending, UpHandled(s, system).pending, system)
    ensures PendingWithin(s.pending, Deactivated(s, system).pending, system)
    ensures PendingWithin(s.pending, Scheduled(s, StatusAlertsOf(s, system)).pending, system)
  {
    assert StatusAlertsOf(s, system) <= s.alerts.Keys;
  }

  lemma WithinQuiet(s: State, t: State, system: Id)
    requires PausedQuiet(s) && Calmer(s.alerts, t.alerts) && PendingWithin(s.pending, t.pending, system)
    requires forall other: Id :: other != system ==> (IsPaused(t, other) <==> IsPaused(s, other))
    requires !IsPaused(t, system)
    ensures PausedQuiet(t)
  {
  }

  /** Each outcome of a status write other than a pause. */
  lemma HandlersQuietPaused(s: State, t: State, system: Id)
    requires PausedQuiet(s) && t.alerts == s.alerts && t.pending == s.pending && !IsPaused(t, system)
    requires forall other: Id :: other != system ==> (IsPaused(t, other) <==> IsPaused(s, other))
    ensures PausedQuiet(t) && PausedQuiet(Deactivated(t, system)) && PausedQuiet(UpHandled(t, system))
    ensures PausedQuiet(Scheduled(t, StatusAlertsOf(t, system)))
  {
    hide Deactivated, UpHandled, Scheduled, Calmer, PendingWithin, PausedQuiet;
    SameCalm(s, system);
    WithinQuiet(s, t, system);
    HandlersSystems(t, system);
    HandlersWithin(t, system);
    DeactivatedCalm(t, system);
    WithinQuiet(s, Deactivated(t, system), system);
    UpHandledCalm(t, system);
    WithinQuiet(s, UpHandled(t, system), system);
    ScheduledCalm(t, system);
    WithinQuiet(s, Scheduled(t, StatusAlertsOf(t, system)), system);
  }

  lemma SameCalm(s: State, system: Id)
    ensures Calmer(s.alerts, s.alerts) && PendingWithin(s.pending, s.pending, system)
  {
  }

  lemma SetStatusPaused(s: State, system: Id, status: Status, ws: bool)
    requires PausedQuiet(s) && system in s.systems
    ensures PausedQuiet(StatusSet(s, system, status, ws))
  {
    if status.Paused? {
      PauseQuiets(s, system, ws);
    } else {
      hide Deactivated, UpHandled, Scheduled, PausedQuiet;
      var t := WithStatus(s, system, status);
      HandlersQuietPaused(s, t, system);
      HandlersQuietPaused(s, t.(held := t.held[system := status]), system);
    }
  }

  lemma HandlersSystems(s: State, system: Id)
    ensures Deactivated(s, system).systems == UpHandled(s, system).systems
            == Scheduled(s, StatusAlertsOf(s, system)).systems == s.systems
  {
  }

  lemma PauseQuiets(s: State, system: Id, ws: bool)
    requires PausedQuiet(s) && system in s.systems
    ensures PausedQuiet(StatusSet(s, system, Paused, ws))
  {
    hide Stopped, ResolveFirst;
    var t := StatusSet(s, system, Paused, ws);
    forall a <- t.alerts ensures Active(t.alerts[a]) ==> t.alerts[a].system != system && t.alerts[a] == s.alerts[a] {
    }
  }

  lemma RestartPaused(s: State)
    ensures PausedQuiet(s) ==> PausedQuiet(Restarted(s))
  {
    hide Started, ResolveFirst;
    var t := Restarted(s);
    forall a <- t.alerts | PausedQuiet(s) && Active(t.alerts[a]) && t.alerts[a].isStatus
        ensures !IsPaused(t, t.alerts[a].system) {
      assert Active(s.alerts[a]);
    }
  }

  lemma CallbackPaused(s: State, a: Id, token: nat, t: State)
    requires PausedQuiet(s) && Follows(s, RunCallback(a, token), t)
    ensures PausedQuiet(t)
  {
    var v := s.(running := s.running - {(a, token)});
    ProcessedFrame(v, a);
    forall b <- t.alerts | Active(t.alerts[b]) && t.alerts[b].isStatus ensures !IsPaused(t, t.alerts[b].system) {
      assert Active(s.alerts[b]) || (b == a && Sends(v, a));
    }
  }

  lemma {:induction false} RunPaused(states: seq<State>, steps: seq<Step>, i: nat)
    requires IsRun(states, steps) && i < |states|
    ensures PausedQuiet(states[i])
  {
    hide StatusSet, Restarted, Processed;
    if i > 0 {
      RunPaused(states, steps, i - 1);
      RunBase(states, steps, i - 1);
      var s, step, t := states[i - 1], steps[i - 1], states[i];
      assert Follows(s, step, t);
      if Plain(step) {
        PlainPaused(s, step, t);
      } else {
        match step
        case SetStatus(system, status, ws) => SetStatusPaused(s, system, status, ws);
        case Restart => RestartPaused(s);
        case RunCallback(a, token) => CallbackPaused(s, a, token, t);
        case Fire(a, token) =>
      }
    }
  }

  /** In every run, no status alert of a paused system is pending or triggered, whatever happened before the pause. */
  lemma PausedIsQuiet(states: seq<State>, steps: seq<Step>, i: nat, a: Id)
    requires IsRun(states, steps) && i < |states| && a in states[i].alerts && states[i].alerts[a].live
             && states[i].alerts[a].isStatus
    requires IsPaused(states[i], states[i].alerts[a].system)
    ensures a !in states[i].pending && !states[i].alerts[a].triggered
  {
    RunPaused(states, steps, i);
    RunBase(states, steps, i);
    assert a in states[i].pending ==> EntryOk(states[i], a);
  }

  /**
  A system that comes back up, in the manager's sight, has none of its status alerts pending. Those that were pending
  are cancelled and keep their flag; the other triggered ones are resolved with one "up".
   */
  lemma UpClearsAlerts(s: State, system: Id, ws: bool, a: Id)
    requires Base(s) && system in s.held && s.held[system].Down? && a in s.alerts && StatusAlertOf(s.alerts[a], system)
    ensures var t := StatusSet(s, system, Up, ws);
            a !in t.pending && (t.alerts[a].triggered <==> a in s.pending && s.alerts[a].triggered)
            && t.alerts[a].log == s.alerts[a].log + if a !in s.pending && s.alerts[a].triggered then [UpSent] else []
  {
    assert a in StatusAlertsOf(s, system);
    assert s.alerts[a].log + [] == s.alerts[a].log;
  }

  /** A system that goes down has every one of its status alerts pending, each with its own delay. */
  lemma DownSchedulesAlerts(s: State, system: Id, ws: bool, a: Id)
    requires system in s.held && s.held[system].Up? && a in s.alerts && StatusAlertOf(s.alerts[a], system)
    ensures var t := StatusSet(s, system, Down, ws);
            a in t.pending && t.pending[a] == if a in s.pending then s.pending[a]
                else Entry(system, s.now, Delay(s.alerts[a].min), s.alerts[a].timers)
  {
    assert a in StatusAlertsOf(s, system);
  }

  // ---------------------------------------------------------------- what the two kinds of step do

  /** `steps` can be taken one after the other from `s` and lead to `t`. */
  ghost predicate Leads(s: State, steps: seq<Step>, t: State)
    decreases |steps|
  {
    if steps == [] then s == t else Enabled(s, steps[0]) && Leads(Apply(s, steps[0]), steps[1..], t)
  }

  lemma Before(s: State, step: Step, s1: State, rest: seq<Step>, t: State)
    requires Follows(s, step, s1) && Leads(s1, rest, t)
    ensures Leads(s, [step] + rest, t)
  {
    assert ([step] + rest)[1..] == rest;
  }

  /** The state of a hub with one system, which it holds, and one status alert on it. */
  ghost function One(a: Id, system: Id, now: int, status: Status, al: Alert, pending: map<Id, Entry>,
                     armed: map<Timer, int>, running: set<Timer>, since: Option<int>): State
  {
    State(now, map[system := status], if since.Some? then map[system := since.value] else map[],
          map[system := status], map[a := al], pending, armed, running)
  }

  ghost function Idle(system: Id, timers: nat, log: seq<Event>): Alert {
    Alert(system, true, 0, true, log != [], if log == [] then [] else [false], log, timers)
  }

  /** The alert has been scheduled when the system went down at time 0. */
  ghost function Watched(a: Id, system: Id, now: int): State {
    One(a, system, now, Down, Idle(system, 1, []), map[a := Entry(system, 0, MINUTE, 0)], map[(a, 0) := MINUTE], {},
        Some(0))
  }

  /** A system that goes down has its alert scheduled, triggered or not. */
  lemma GoesDown(a: Id, system: Id, now: int, timers: nat, running: set<Timer>, log: seq<Event>)
    ensures var s := One(a, system, now, Up, Idle(system, timers, log), map[], map[], running, None);
            Follows(s, SetStatus(system, Down, false),
                    One(a, system, now, Down, Idle(system, timers + 1, log),
                        map[a := Entry(system, now, MINUTE, timers)],
                        map[(a, timers) := now + MINUTE], running, Some(now)))
  {
    var s := One(a, system, now, Up, Idle(system, timers, log), map[], map[], running, None);
    assert StatusAlertsOf(s, system) == {a};
    var t := Apply(s, SetStatus(system, Down, false));
    assert t.pending == map[a := Entry(system, now, MINUTE, timers)];
    assert t.armed == map[(a, timers) := now + MINUTE];
    assert t.alerts == map[a := Idle(system, timers + 1, log)];
  }

  /** A system is added and comes up. */
  lemma ComesUp(system: Id)
    ensures Leads(INITIAL, [AddSystem(system), SetStatus(system, Up, false)],
                  INITIAL.(systems := map[system := Up], held := map[system := Up]))
  {
    var s := INITIAL.(systems := map[system := Status.Pending], held := map[system := Status.Pending]);
    var t := INITIAL.(systems := map[system := Up], held := map[system := Up]);
    assert Follows(s, SetStatus(system, Up, false), t);
    Before(s, SetStatus(system, Up, false), t, [], t);
    Before(INITIAL, AddSystem(system), s, [SetStatus(system, Up, false)], t);
  }

  /** Both runs below start from a state a hub can be in. */
  lemma WatchedHappens(a: Id, system: Id)
    ensures Leads(INITIAL.(systems := map[system := Up], held := map[system := Up]),
                  [CreateAlert(a, system, true, 0), SetStatus(system, Down, false)], Watched(a, system, 0))
  {
    var s := INITIAL.(systems := map[system := Up], held := map[system := Up]);
    var s1 := One(a, system, 0, Up, Idle(system, 0, []), map[], map[], {}, None);
    var t := Watched(a, system, 0);
    GoesDown(a, system, 0, 0, {}, []);
    Before(s1, SetStatus(system, Down, false), t, [], t);
    Before(s, CreateAlert(a, system, true, 0), s1, [SetStatus(system, Down, false)], t);
  }

  /** A callback that finds an entry sends "down", whatever timer started it. */
  lemma Calls(a: Id, system: Id, status: Status, e: Entry, armed: map<Timer, int>, timers: nat, since: Option<int>)
    requires e.system == system
    ensures Follows(One(a, system, MINUTE, status, Idle(system, timers, []), map[a := e], armed, {(a, 0)}, since),
                    RunCallback(a, 0),
                    One(a, system, MINUTE, status, Idle(system, timers, [DownSent(MINUTE, since, e.delay)]), map[],
                        armed, {}, since))
  {
    var s := One(a, system, MINUTE, status, Idle(system, timers, []), map[a := e], armed, {(a, 0)}, since);
    var v := s.(running := s.running - {(a, 0)});
    assert Sends(v, a);
    var event := DownSent(MINUTE, since, e.delay);
    assert [] + [event] == [event] && [] + [false] == [false];
    assert Logged(WithTriggered(Idle(system, timers, []), true), event) == Idle(system, timers, [event]);
    assert s.pending - {a} == map[];
  }

  /** A write of "pending" leaves the timer set. */
  lemma GoesPending(a: Id, system: Id)
    ensures Follows(Watched(a, system, 0), SetStatus(system, Status.Pending, false),
                    Watched(a, system, 0).(systems := map[system := Status.Pending],
                                           held := map[system := Status.Pending], downSince := map[]))
    ensures LosesTimer(Watched(a, system, 0), SetStatus(system, Status.Pending, false))
  {
    assert Apply(Watched(a, system, 0), SetStatus(system, Status.Pending, false)).alerts
           == Watched(a, system, 0).alerts;
    assert a in Watched(a, system, 0).pending;
  }

  /** "Down" goes out for a system that has been up for a minute. */
  lemma PendingWriteMisleads(a: Id, system: Id)
    ensures Leads(Watched(a, system, 0),
                  [SetStatus(system, Status.Pending, false), SetStatus(system, Up, false), Tick(MINUTE), Fire(a, 0),
                   RunCallback(a, 0)],
                  One(a, system, MINUTE, Up, Idle(system, 1, [DownSent(MINUTE, None, MINUTE)]), map[], map[], {}, None))
  {
    var s := Watched(a, system, 0);
    var entries, timers := map[a := Entry(system, 0, MINUTE, 0)], map[(a, 0) := MINUTE];
    var s1 := s.(systems := map[system := Status.Pending], held := map[system := Status.Pending], downSince := map[]);
    var s2 := One(a, system, 0, Up, Idle(system, 1, []), entries, timers, {}, None);
    var s3 := One(a, system, MINUTE, Up, Idle(system, 1, []), entries, timers, {}, None);
    var s4 := One(a, system, MINUTE, Up, Idle(system, 1, []), entries, map[], {(a, 0)}, None);
    var t := One(a, system, MINUTE, Up, Idle(system, 1, [DownSent(MINUTE, None, MINUTE)]), map[], map[], {}, None);
    Calls(a, system, Up, Entry(system, 0, MINUTE, 0), map[], 1, None);
    Before(s4, RunCallback(a, 0), t, [], t);
    Before(s3, Fire(a, 0), s4, [RunCallback(a, 0)], t);
    Before(s2, Tick(MINUTE), s3, [Fire(a, 0), RunCallback(a, 0)], t);
    assert Follows(s1, SetStatus(system, Up, false), s2);
    Before(s1, SetStatus(system, Up, false), s2, [Tick(MINUTE), Fire(a, 0), RunCallback(a, 0)], t);
    GoesPending(a, system);
    Before(s, SetStatus(system, Status.Pending, false), s1,
           [SetStatus(system, Up, false), Tick(MINUTE), Fire(a, 0), RunCallback(a, 0)], t);
  }

  /** Coming up cancels the entry but not the callback that has already been started. */
  lemma GoesUp(a: Id, system: Id)
    ensures var s := One(a, system, MINUTE, Down, Idle(system, 1, []), map[a := Entry(system, 0, MINUTE, 0)], map[],
                         {(a, 0)}, Some(0));
            && Follows(s, SetStatus(system, Up, false),
                       One(a, system, MINUTE, Up, Idle(system, 1, []), map[], map[], {(a, 0)}, None))
            && Overtakes(s, SetStatus(system, Up, false))
  {
    var s := One(a, system, MINUTE, Down, Idle(system, 1, []), map[a := Entry(system, 0, MINUTE, 0)], map[], {(a, 0)},
                 Some(0));
    assert StatusAlertsOf(s, system) == {a};
    var t := Apply(s, SetStatus(system, Up, false));
    assert t.pending == map[] && t.alerts == s.alerts && t.armed == map[];
    assert a in Cancels(s, SetStatus(system, Up, false));
  }

  /** The overtaken callback finds the next entry and sends "down" the moment the system went down. */
  lemma OvertakenMisleads(a: Id, system: Id)
    ensures Leads(Watched(a, system, 0),
                  [Tick(MINUTE), Fire(a, 0), SetStatus(system, Up, false), SetStatus(system, Down, false),
                   RunCallback(a, 0)],
                  One(a, system, MINUTE, Down, Idle(system, 2, [DownSent(MINUTE, Some(MINUTE), MINUTE)]), map[],
                      map[(a, 1) := MINUTE + MINUTE], {}, Some(MINUTE)))
  {
    hide StatusSet, Processed, Cancels;
    var s := Watched(a, system, MINUTE);
    var s1 := One(a, system, MINUTE, Down, Idle(system, 1, []), map[a := Entry(system, 0, MINUTE, 0)], map[], {(a, 0)},
                  Some(0));
    var s2 := One(a, system, MINUTE, Up, Idle(system, 1, []), map[], map[], {(a, 0)}, None);
    var timers := map[(a, 1) := MINUTE + MINUTE];
    var s3 := One(a, system, MINUTE, Down, Idle(system, 2, []), map[a := Entry(system, MINUTE, MINUTE, 1)], timers,
                  {(a, 0)}, Some(MINUTE));
    var t := One(a, system, MINUTE, Down, Idle(system, 2, [DownSent(MINUTE, Some(MINUTE), MINUTE)]), map[], timers, {},
                 Some(MINUTE));
    Calls(a, system, Down, Entry(system, MINUTE, MINUTE, 1), timers, 2, Some(MINUTE));
    Before(s3, RunCallback(a, 0), t, [], t);
    GoesDown(a, system, MINUTE, 1, {(a, 0)}, []);
    Before(s2, SetStatus(system, Down, false), s3, [RunCallback(a, 0)], t);
    GoesUp(a, system);
    Before(s1, SetStatus(system, Up, false), s2, [SetStatus(system, Down, false), RunCallback(a, 0)], t);
    Before(s, Fire(a, 0), s1, [SetStatus(system, Up, false), SetStatus(system, Down, false), RunCallback(a, 0)], t);
    Before(Watched(a, system, 0), Tick(MINUTE), s,
           [Fire(a, 0), SetStatus(system, Up, false), SetStatus(system, Down, false), RunCallback(a, 0)], t);
  }
}
