/**
The handlers of internal/alerts/alerts_status.go and internal/hub/systems/system_manager.go as they run: loops over the
alert records, one map update at a time. Each is proved to do what its step of StatusAlerts says.
 */
module StatusHub {
  import opened Basics
  import opened StatusAlerts

  class Hub {
    var now: int
    var systems: map<Id, Status>
    var downSince: map<Id, int>
    var held: map<Id, Status>
    var alerts: map<Id, Alert>
    var pending: map<Id, Entry>
    var armed: map<Timer, int>
    var running: set<Timer>

    function View(): State
      reads this
    {
      State(now, systems, downSince, held, alerts, pending, armed, running)
    }

    constructor ()
      ensures View() == INITIAL
    {
      now, systems, downSince, held, alerts, pending, armed, running := 0, map[], map[], map[], map[], map[], map[], {};
    }

    /** schedulePendingStatusAlert */
    method Schedule(a: Id) returns (scheduled: bool)
      requires a in alerts
      modifies this`alerts, this`pending, this`armed
      ensures scheduled <==> a !in old(pending)
      ensures !scheduled ==> View() == old(View())
      ensures scheduled ==>
                var al := old(alerts)[a];
                && pending == old(pending)[a := NewEntry(al, now)]
                && armed == old(armed)[(a, al.timers) := now + Delay(al.min)]
                && alerts == old(alerts)[a := al.(timers := al.timers + 1)]
    {
      if a in pending {
        return false;
      }
      var e := NewEntry(alerts[a], now);
      pending := pending[a := e];
      armed := armed[(a, e.token) := now + e.delay];
      alerts := alerts[a := alerts[a].(timers := alerts[a].timers + 1)];
      return true;
    }

    /** handleSystemDown; also the queueing loop of restorePendingStatusAlerts. */
    method ScheduleAll(who: set<Id>)
      requires who <= alerts.Keys
      modifies this`alerts, this`pending, this`armed
      ensures View() == Scheduled(old(View()), who)
    {
      hide Counted, Entries, Started, NewEntry, Delay;
      ghost var entries, timers, records := pending, armed, alerts;
      ghost var added: set<Id> := {};
      var rest := who;
      NothingAdded(records, now);
      while rest != {}
        invariant rest <= who <= records.Keys == alerts.Keys
        invariant added == who - rest - entries.Keys
        invariant alerts == Counted(records, added)
        invariant pending == entries + Entries(records, now, added)
        invariant armed == timers + Started(records, now, added)
      {
        var a :| a in rest;
        OneMore(records, now, added, a);
        PlusUpdate(entries, Entries(records, now, added), a, NewEntry(records[a], now));
        PlusUpdate(timers, Started(records, now, added), (a, records[a].timers), now + Delay(records[a].min));
        var scheduled := Schedule(a);
        rest := rest - {a};
        if scheduled {
          added := added + {a};
        }
      }
      assert who - rest == who;
    }

    /** cancelPendingAlert */
    method Cancel(a: Id) returns (cancelled: bool)
      modifies this`pending, this`armed
      ensures pending == old(pending) - {a} && armed == Stopped(old(armed), old(pending), {a})
      ensures cancelled <==> a in old(pending)
    {
      cancelled := a in pending;
      if cancelled {
        armed := armed - {(a, pending[a].token)};
      }
      assert armed == Stopped(old(armed), pending, {a});
      pending := pending - {a};
    }

    /** handleSystemUp, over the alerts the cache held when it was called. */
    method HandleSystemUp(system: Id)
      modifies this`alerts, this`pending, this`armed
      ensures View() == UpHandled(old(View()), system)
    {
      hide Stopped, Answered;
      ghost var s := View();
      var records := alerts;
      var rest := set a | a in records && StatusAlertOf(records[a], system);
      ghost var done: set<Id> := {};
      NothingAnswered(s);
      while rest != {}
        invariant done + rest == StatusAlertsOf(s, system) && done !! rest
        invariant pending == s.pending - done && armed == Stopped(s.armed, s.pending, done)
        invariant alerts == Answered(s, done)
      {
        var a :| a in rest;
        StoppedOneMore(s.armed, s.pending, done, a);
        AnsweredOneMore(s, done, a);
        var cancelled := Cancel(a);
        if !cancelled && records[a].triggered {
          alerts := alerts[a := Logged(WithTriggered(records[a], false), UpSent)];
        }
        rest := rest - {a};
        done := done + {a};
      }
      assert done == StatusAlertsOf(s, system);
      AnsweredAll(s, system);
    }

    /** CancelPendingStatusAlerts */
    method CancelPending(system: Id)
      modifies this`pending, this`armed
      ensures View() == Cancelled(old(View()), PendingOf(old(View()), system))
    {
      ghost var s := View();
      var entries := pending;
      var rest := entries.Keys;
      ghost var hit: set<Id> := {};
      assert Stopped(armed, pending, {}) == armed;
      while rest != {}
        invariant rest <= entries.Keys
        invariant hit == set a | a in entries && a !in rest && entries[a].system == system
        invariant pending == s.pending - hit && armed == Stopped(s.armed, s.pending, hit)
      {
        var a :| a in rest;
        if entries[a].system == system {
          StoppedOneMore(s.armed, s.pending, hit, a);
          var _ := Cancel(a);
          hit := hit + {a};
        }
        rest := rest - {a};
      }
      assert hit == PendingOf(s, system);
    }

    /** deactivateAlerts */
    method Deactivate(system: Id)
      modifies this`alerts
      ensures View() == Deactivated(old(View()), system)
    {
      ghost var s := View();
      var records := alerts;
      var rest := set a | a in records && records[a].live && records[a].system == system && records[a].triggered;
      ghost var who := rest;
      while rest != {}
        invariant rest <= who && alerts.Keys == records.Keys
        invariant forall a <- records ::
                    alerts[a] == if a in who - rest then Logged(WithTriggered(records[a], false), Cleared)
                        else records[a]
      {
        var a :| a in rest;
        alerts := alerts[a := Logged(WithTriggered(alerts[a], false), Cleared)];
        rest := rest - {a};
      }
      assert alerts == Deactivated(s, system).alerts;
    }

    /** processPendingAlert */
    method ProcessPending(a: Id)
      modifies this`alerts, this`pending
      ensures View() == Processed(old(View()), a)
    {
      if a !in pending {
        return;
      }
      var e := pending[a];
      pending := pending - {a};
      if a !in alerts || !alerts[a].live || alerts[a].system != e.system || alerts[a].triggered {
        return;
      }
      var since := if e.system in downSince then Some(downSince[e.system]) else None;
      alerts := alerts[a := Logged(WithTriggered(alerts[a], true), DownSent(now, since, e.delay))];
    }

    /** onRecordAfterUpdateSuccess of the systems table, with the write it answers to. */
    method UpdateStatus(system: Id, status: Status, ws: bool)
      modifies this
      ensures View() == StatusSet(old(View()), system, status, ws)
    {
      systems := systems[system := status];
      if !status.Down? {
        downSince := downSince - {system};
      } else if system !in downSince {
        downSince := downSince[system := now];
      }
      var prev, ok := Status.Pending, system in held;
      if ok {
        prev := held[system];
        held := held[system := status];
      }
      if status.Paused? {
        Deactivate(system);
        assert PendingOf(View(), system) == PendingOf(old(View()), system);
        CancelPending(system);
        return;
      }
      if status.Pending? {
        if ok && ws {
          return;
        }
        held := held[system := status];
        Deactivate(system);
        return;
      }
      if !ok {
        held := held[system := status];
        return;
      }
      if status.Down? && prev.Up? {
        ScheduleAll(set a | a in alerts && StatusAlertOf(alerts[a], system));
      } else if status.Up? && prev.Down? {
        HandleSystemUp(system);
      }
    }

    /** resolveStatusAlerts */
    method ResolveStale()
      modifies this`alerts
      ensures View() == StaleResolved(old(View()))
    {
      ghost var s := View();
      var records := alerts;
      var rest := set a | a in records && records[a].live && records[a].isStatus && records[a].triggered
                          && records[a].system in systems && systems[records[a].system].Up?;
      ghost var who := rest;
      while rest != {}
        invariant rest <= who && alerts.Keys == records.Keys
        invariant forall a <- records ::
                    alerts[a] == if a in who - rest then Logged(WithTriggered(records[a], false), Cleared)
                        else records[a]
      {
        var a :| a in rest;
        alerts := alerts[a := Logged(WithTriggered(alerts[a], false), Cleared)];
        rest := rest - {a};
      }
      assert alerts == StaleResolved(s).alerts;
    }

    /** A restart: the maps in memory are gone; OnServe resolves stale alerts and re-queues the rest. */
    method Serve()
      modifies this
      ensures View() == Restarted(old(View()))
    {
      hide Scheduled, StaleResolved;
      held, pending, armed, running := map[], map[], map[], {};
      ResolveStale();
      ScheduleAll(set a | a in alerts && alerts[a].live && alerts[a].isStatus && !alerts[a].triggered
                          && alerts[a].system in systems && systems[alerts[a].system].Down?);
    }
  }

  /** The alert records once handleSystemUp has dealt with `done`. */
  ghost function Answered(s: State, done: set<Id>): map<Id, Alert> {
    map a | a in s.alerts :: if a in done && a !in s.pending && s.alerts[a].triggered
                             then Logged(WithTriggered(s.alerts[a], false), UpSent) else s.alerts[a]
  }

  lemma AnsweredOneMore(s: State, done: set<Id>, a: Id)
    requires a in s.alerts && a !in done
    ensures Answered(s, done + {a}) == if a !in s.pending && s.alerts[a].triggered
                                       then Answered(s, done)[a := Logged(WithTriggered(s.alerts[a], false), UpSent)]
                                       else Answered(s, done)
  {
  }

  lemma NothingAnswered(s: State)
    ensures Answered(s, {}) == s.alerts && Stopped(s.armed, s.pending, {}) == s.armed
  {
  }

  lemma AnsweredAll(s: State, system: Id)
    ensures Answered(s, StatusAlertsOf(s, system)) == UpHandled(s, system).alerts
  {
  }

  lemma NothingAdded(alerts: map<Id, Alert>, now: int)
    ensures Counted(alerts, {}) == alerts && Entries(alerts, now, {}) == map[] && Started(alerts, now, {}) == map[]
  {
  }

  /** Alerts can be scheduled one by one. */
  lemma OneMore(alerts: map<Id, Alert>, now: int, who: set<Id>, a: Id)
    requires who <= alerts.Keys && a in alerts && a !in who
    ensures Entries(alerts, now, who).Keys == who
    ensures Counted(alerts, who).Keys == alerts.Keys && Counted(alerts, who)[a] == alerts[a]
    ensures Counted(alerts, who)[a := alerts[a].(timers := alerts[a].timers + 1)] == Counted(alerts, who + {a})
    ensures Entries(alerts, now, who)[a := NewEntry(alerts[a], now)] == Entries(alerts, now, who + {a})
    ensures Started(alerts, now, who)[(a, alerts[a].timers) := now + Delay(alerts[a].min)]
            == Started(alerts, now, who + {a})
  {
  }

  /** And cancelled one by one. */
  lemma StoppedOneMore(armed: map<Timer, int>, pending: map<Id, Entry>, who: set<Id>, a: Id)
    requires a !in who
    ensures Stopped(Stopped(armed, pending, who), pending - who, {a}) == Stopped(armed, pending, who + {a})
  {
  }
}
