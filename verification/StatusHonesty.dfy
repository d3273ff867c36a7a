/**
The exact condition for honest "down" notifications. As long as no step disturbs a timer every "down" is honest; and
after a step that does disturb one, some further run, itself undisturbed, sends a "down" that is not. The last part does
the same for alerts that stay triggered although their system is up.
 */
module StatusHonesty {
  import opened Basics
  import opened StatusAlerts
  import opened StatusTimers

  // ---------------------------------------------------------------- undisturbed continuations

  /** `steps` can be taken from `s`, none of them disturbs a timer, and they lead to `t`. */
  ghost predicate Calmly(s: State, steps: seq<Step>, t: State)
    decreases |steps|
  {
    if steps == [] then s == t
    else Enabled(s, steps[0]) && !Disturbs(s, steps[0]) && Calmly(Apply(s, steps[0]), steps[1..], t)
  }

  /** Some undisturbed continuation sends a "down" that is not honest. */
  ghost predicate Misled(s: State) {
    exists steps, t :: Calmly(s, steps, t) && !Honest(t)
  }

  /** All that undisturbed runs keep. */
  predicate Sound(s: State) {
    Base(s) && Continuous(s) && Current(s) && Honest(s)
  }

  lemma StepSound(s: State, step: Step, t: State)
    requires Sound(s) && Follows(s, step, t) && !Disturbs(s, step)
    ensures Sound(t)
  {
    hide Apply, Base, Continuous, Current, Honest, LosesTimer, Overtakes;
    StepBase(s, step, t);
    ContinuousExact(s, step, t);
    CurrentExact(s, step, t);
    StepHonest(s, step, t);
  }

  lemma {:induction false} CalmIsHonest(s: State, steps: seq<Step>, t: State)
    requires Sound(s) && Calmly(s, steps, t)
    ensures Honest(t)
    decreases |steps|
  {
    hide Apply, Enabled, Base, Continuous, Current, Honest, Disturbs;
    if steps != [] {
      StepSound(s, steps[0], Apply(s, steps[0]));
      CalmIsHonest(Apply(s, steps[0]), steps[1..], t);
    }
  }

  lemma MisledBefore(s: State, step: Step, t: State)
    requires Follows(s, step, t) && !Disturbs(s, step) && Misled(t)
    ensures Misled(s)
  {
    hide Apply, Enabled, Honest, Disturbs;
    var steps, u :| Calmly(t, steps, u) && !Honest(u);
    assert ([step] + steps)[1..] == steps;
    assert Calmly(s, [step] + steps, u);
  }

  lemma DishonestNow(s: State)
    requires !Honest(s)
    ensures Misled(s)
  {
    assert Calmly(s, [], s);
  }

  // ---------------------------------------------------------------- a callback about to mislead

  /** A callback whose "down" would not be honest is enough. */
  lemma CallbackMisleads(s: State, a: Id, token: nat)
    requires (a, token) in s.running && a in s.pending && CanSend(s, a) && s.alerts[a].system == s.pending[a].system
    requires !HonestEvent(DownSent(s.now, SinceOf(s, s.pending[a].system), s.pending[a].delay))
    ensures Misled(s)
  {
    var v := s.(running := s.running - {(a, token)});
    var t := Apply(s, RunCallback(a, token));
    ProcessedAlerts(v, a);
    assert Sends(v, a);
    var log := t.alerts[a].log;
    assert log[|log| - 1] == DownSent(s.now, SinceOf(s, s.pending[a].system), s.pending[a].delay);
    assert !HonestLog(log);
    DishonestNow(t);
    MisledBefore(s, RunCallback(a, token), t);
  }

  /** An alert that is pending and can send although its system is not down will mislead when its timer expires. */
  lemma PendingMisleads(s: State, a: Id)
    requires Base(s) && a in s.pending && CanSend(s, a) && s.pending[a].system !in s.downSince
    ensures Misled(s)
  {
    assert EntryOk(s, a);
    var e := s.pending[a];
    if (a, e.token) in s.armed {
      var now := if s.now < e.scheduledAt + e.delay then e.scheduledAt + e.delay else s.now;
      var t := Apply(s, Tick(now));
      var u := Apply(t, Fire(a, e.token));
      CallbackMisleads(u, a, e.token);
      MisledBefore(t, Fire(a, e.token), u);
      MisledBefore(s, Tick(now), t);
    } else {
      CallbackMisleads(s, a, e.token);
    }
  }

  lemma ResetMisleads(s: State, system: Id, ws: bool)
    requires Base(s) && Base(StatusSet(s, system, Status.Pending, ws)) && Resets(s, system, ws) && Queued(s, system)
    ensures Misled(StatusSet(s, system, Status.Pending, ws))
  {
    hide StatusSet, Misled;
    var a :| a in s.pending && a in s.alerts && s.alerts[a].live && s.pending[a].system == system;
    assert EntryOk(s, a);
    ResetCanSend(s, system, ws, a);
    PendingMisleads(StatusSet(s, system, Status.Pending, ws), a);
  }

  lemma LostTimerMisleads(s: State, step: Step, t: State)
    requires Base(s) && Follows(s, step, t) && LosesTimer(s, step)
    ensures Misled(t)
  {
    hide Misled, Base, ResolveFirst;
    StepBase(s, step, t);
    var system, ws := step.system, step.ws;
    if step.status.Pending? && Resets(s, system, ws) {
      ResetMisleads(s, system, ws);
    } else {
      var a :| a in s.pending && CanSend(s, a) && s.pending[a].system == system;
      PendingMisleads(t, a);
    }
  }

  lemma ResetCanSend(s: State, system: Id, ws: bool, a: Id)
    requires Resets(s, system, ws) && a in s.pending && a in s.alerts && s.alerts[a].live
             && s.alerts[a].system == system
    ensures var t := StatusSet(s, system, Status.Pending, ws);
            CanSend(t, a) && t.pending == s.pending && system !in t.downSince
  {
    hide ResolveFirst;
  }

  // ---------------------------------------------------------------- an overtaken callback

  /** A live status alert of the system has a callback running, no entry, and no companion is pending. */
  predicate Haunted(s: State, a: Id, system: Id, token: nat) {
    && system in s.systems && a in s.alerts && StatusAlertOf(s.alerts[a], system)
    && a !in s.pending && (a, token) in s.running && !Queued(s, system)
  }

  lemma NotQueuedNotWaiting(s: State, system: Id)
    requires !Queued(s, system)
    ensures !Waiting(s, system)
  {
    forall a <- s.pending ensures CanSend(s, a) ==> s.pending[a].system != system {
      assert CanSend(s, a) ==> a in s.alerts && s.alerts[a].live;
    }
  }

  /** A write of "pending" resets the alert. */
  lemma HauntedPending(s: State, a: Id, system: Id, token: nat)
    requires Haunted(s, a, system, token)
    ensures var step := SetStatus(system, Status.Pending, false);
            && Enabled(s, step) && !Disturbs(s, step)
            && var t := Apply(s, step);
               Haunted(t, a, system, token) && !t.alerts[a].triggered && system in t.held && t.held[system].Pending?
                   && system !in t.downSince
  {
    hide ResolveFirst;
    NotQueuedNotWaiting(s, system);
    var t := StatusSet(s, system, Status.Pending, false);
    forall b <- t.pending ensures !(b in t.alerts && t.alerts[b].live && t.pending[b].system == system) {
      assert !(b in s.alerts && s.alerts[b].live && s.pending[b].system == system);
    }
  }

  /** Coming up from "pending" changes nothing else. */
  lemma HauntedUp(s: State, a: Id, system: Id, token: nat)
    requires Haunted(s, a, system, token) && !s.alerts[a].triggered && system in s.held && s.held[system].Pending?
             && system !in s.downSince
    ensures var step := SetStatus(system, Up, false);
            && Enabled(s, step) && !Disturbs(s, step)
            && var t := Apply(s, step);
               Haunted(t, a, system, token) && !t.alerts[a].triggered && system in t.held && t.held[system].Up?
                   && system !in t.downSince
  {
    NotQueuedNotWaiting(s, system);
    var t := StatusSet(s, system, Up, false);
    forall b <- t.pending ensures !(b in t.alerts && t.alerts[b].live && t.pending[b].system == system) {
      assert !(b in s.alerts && s.alerts[b].live && s.pending[b].system == system);
    }
  }

  /** Going down gives the alert an entry, which the old callback finds at once. */
  lemma HauntedDown(s: State, a: Id, system: Id, token: nat)
    requires Haunted(s, a, system, token) && !s.alerts[a].triggered && system in s.held && s.held[system].Up?
             && system !in s.downSince
    ensures Misled(s)
  {
    var step := SetStatus(system, Down, false);
    var t := Apply(s, step);
    assert a in StatusAlertsOf(s, system);
    DownSchedulesAlerts(s, system, false, a);
    ScheduledKeeps(s, system, a, token);
    assert !HonestEvent(DownSent(t.now, SinceOf(t, t.pending[a].system), t.pending[a].delay));
    CallbackMisleads(t, a, token);
    MisledBefore(s, step, t);
  }

  lemma ScheduledKeeps(s: State, system: Id, a: Id, token: nat)
    requires system in s.held && s.held[system].Up? && a in s.alerts && system !in s.downSince
    ensures var t := StatusSet(s, system, Down, false);
            && t.running == s.running && t.now == s.now && SinceOf(t, system) == Some(s.now)
            && a in t.alerts && t.alerts[a].system == s.alerts[a].system && t.alerts[a].live == s.alerts[a].live
            && t.alerts[a].triggered == s.alerts[a].triggered
  {
    hide Entries, Started;
  }

  lemma HauntedMisleads(s: State, a: Id, system: Id, token: nat)
    requires Haunted(s, a, system, token)
    ensures Misled(s)
  {
    hide StatusSet, Disturbs, Haunted;
    var p, q := SetStatus(system, Status.Pending, false), SetStatus(system, Up, false);
    HauntedPending(s, a, system, token);
    var t := Apply(s, p);
    HauntedUp(t, a, system, token);
    var u := Apply(t, q);
    HauntedDown(u, a, system, token);
    MisledBefore(t, q, u);
    MisledBefore(s, p, t);
  }

  /** What the cancelling step leaves behind. */
  lemma OvertakenHaunts(s: State, step: Step, t: State, a: Id)
    requires Base(s) && Follows(s, step, t) && a in Cancels(s, step) && IsLive(s, a) && a in s.pending
             && (a, s.pending[a].token) in s.running
    ensures Haunted(t, a, step.system, s.pending[a].token)
  {
    hide ResolveFirst, Stopped;
    assert EntryOk(s, a);
    var system := step.system;
    forall b <- t.pending ensures !(b in t.alerts && t.alerts[b].live && t.pending[b].system == system) {
      assert EntryOk(s, b);
      assert b in s.alerts && t.alerts[b].live == s.alerts[b].live && t.alerts[b].isStatus == s.alerts[b].isStatus;
    }
  }

  lemma OvertakingMisleads(s: State, step: Step, t: State)
    requires Base(s) && Follows(s, step, t) && Overtakes(s, step)
    ensures Misled(t)
  {
    var a :| a in Cancels(s, step) && IsLive(s, a) && a in s.pending && (a, s.pending[a].token) in s.running;
    OvertakenHaunts(s, step, t, a);
    HauntedMisleads(t, a, step.system, s.pending[a].token);
  }

  // ---------------------------------------------------------------- the exact condition

  /**
  Exact: in any state an undisturbed run can be in, a step opens the way to a "down" notification that is not honest,
  with no further disturbance, if and only if it loses a timer or overtakes one.
   */
  lemma MisleadsIff(s: State, step: Step, t: State)
    requires Sound(s) && Follows(s, step, t)
    ensures Misled(t) <==> Disturbs(s, step)
  {
    hide Apply, Enabled, Base, Continuous, Current, Honest, LosesTimer, Overtakes;
    if LosesTimer(s, step) {
      LostTimerMisleads(s, step, t);
    } else if Overtakes(s, step) {
      OvertakingMisleads(s, step, t);
    } else {
      StepSound(s, step, t);
      forall steps, u | Calmly(t, steps, u) ensures Honest(u) {
        CalmIsHonest(t, steps, u);
      }
    }
  }

  /**
  The same for runs: after undisturbed steps, the next step is the first to open the way exactly when it disturbs.
   */
  lemma RunMisleadsIff(states: seq<State>, steps: seq<Step>, n: nat)
    requires IsRun(states, steps) && n < |steps| && Undisturbed(states, steps, n)
    ensures !Misled(states[n])
    ensures Misled(states[n + 1]) <==> Disturbs(states[n], steps[n])
  {
    hide Apply, Enabled, Base, Continuous, Current, Honest, Disturbs;
    RunHonest(states, steps, n);
    assert Follows(states[n], steps[n], states[n + 1]);
    MisleadsIff(states[n], steps[n], states[n + 1]);
    forall later, u | Calmly(states[n], later, u) ensures Honest(u) {
      CalmIsHonest(states[n], later, u);
    }
  }

  // ---------------------------------------------------------------- alerts that stay triggered

  predicate IsUp(s: State, system: Id) {
    system in s.systems && s.systems[system].Up?
  }

  /** No live status alert of a system that is up is triggered. */
  predicate UpQuiet(s: State) {
    forall a <- s.alerts :: Active(s.alerts[a]) && s.alerts[a].isStatus ==> !IsUp(s, s.alerts[a].system)
  }

  /**
  The steps that leave one: a write of "up" that finds a triggered alert and does not handle it, because the manager
  does not have the system as down or because the alert is also pending; and a "down" sent for a system that is up.
   */
  predicate StaysTriggered(s: State, step: Step) {
    match step
    case SetStatus(system, Up, _) =>
      exists a <- s.alerts :: StatusAlertOf(s.alerts[a], system) && s.alerts[a].triggered
                              && !(system in s.held && s.held[system].Down? && a !in s.pending)
    case RunCallback(a, _) => Sends(s, a) && IsUp(s, s.pending[a].system)
    case _ => false
  }

  lemma PlainUpQuiet(s: State, step: Step, t: State)
    requires UpQuiet(s) && Plain(step) && Follows(s, step, t)
    ensures UpQuiet(t)
  {
    PlainFrame(s, step, t);
    PlainTriggered(s, step, t);
    forall a <- t.alerts | Active(t.alerts[a]) && t.alerts[a].isStatus ensures !IsUp(t, t.alerts[a].system) {
      assert a in s.alerts && Active(s.alerts[a]);
    }
  }

  /** A handler that makes no alert active, on a system that is not up. */
  lemma CalmerUpQuiet(s: State, t: State, system: Id)
    requires UpQuiet(s) && Calmer(s.alerts, t.alerts) && !IsUp(t, system)
    requires forall other: Id :: other != system ==> (IsUp(t, other) <==> IsUp(s, other))
    ensures UpQuiet(t)
  {
  }

  lemma OtherWriteUpQuiet(s: State, system: Id, status: Status, ws: bool)
    requires UpQuiet(s) && !status.Up?
    ensures UpQuiet(StatusSet(s, system, status, ws))
  {
    hide Deactivated, UpHandled, Scheduled, Calmer, UpQuiet;
    var t := WithStatus(s, system, status);
    var u := t.(held := t.held[system := status]);
    SameCalm(s, system);
    DeactivatedCalm(t, system);
    DeactivatedCalm(u, system);
    ScheduledCalm(u, system);
    HandlersSystems(t, system);
    HandlersSystems(u, system);
    CalmerUpQuiet(s, StatusSet(s, system, status, ws), system);
  }

  lemma UpWriteAlerts(s: State, system: Id, ws: bool)
    ensures var t, handled := StatusSet(s, system, Up, ws), system in s.held && s.held[system].Down?;
            && t.systems == s.systems[system := Up] && t.alerts.Keys == s.alerts.Keys
            && forall a <- s.alerts ::
                 && (Active(t.alerts[a]) <==> Active(s.alerts[a]) && !(handled && StatusAlertOf(s.alerts[a], system)
                                                                       && a !in s.pending))
                 && t.alerts[a].live == s.alerts[a].live && t.alerts[a].system == s.alerts[a].system
                     && t.alerts[a].isStatus == s.alerts[a].isStatus
  {
    hide ResolveFirst, Stopped;
  }

  lemma UpWriteUpQuiet(s: State, system: Id, ws: bool)
    requires UpQuiet(s)
    ensures UpQuiet(StatusSet(s, system, Up, ws)) <==> !StaysTriggered(s, SetStatus(system, Up, ws))
  {
    var t := StatusSet(s, system, Up, ws);
    var handled := system in s.held && s.held[system].Down?;
    UpWriteAlerts(s, system, ws);
    hide StatusSet;
    if StaysTriggered(s, SetStatus(system, Up, ws)) {
      var a :| a in s.alerts && StatusAlertOf(s.alerts[a], system) && s.alerts[a].triggered
          && !(handled && a !in s.pending);
      assert Active(t.alerts[a]) && IsUp(t, t.alerts[a].system);
    } else {
      forall a <- t.alerts | Active(t.alerts[a]) && t.alerts[a].isStatus ensures !IsUp(t, t.alerts[a].system) {
        assert Active(s.alerts[a]);
      }
    }
  }

  lemma CallbackUpQuiet(s: State, a: Id, token: nat, t: State)
    requires Base(s) && UpQuiet(s) && Follows(s, RunCallback(a, token), t)
    ensures UpQuiet(t) <==> !StaysTriggered(s, RunCallback(a, token))
  {
    var v := s.(running := s.running - {(a, token)});
    assert Sends(v, a) <==> Sends(s, a);
    hide Processed, Sends;
    ProcessedFrame(v, a);
    ProcessedAlerts(v, a);
    if StaysTriggered(s, RunCallback(a, token)) {
      assert EntryOk(s, a);
      assert Active(t.alerts[a]) && t.alerts[a].isStatus && IsUp(t, t.alerts[a].system);
    } else {
      forall b <- t.alerts | Active(t.alerts[b]) && t.alerts[b].isStatus ensures !IsUp(t, t.alerts[b].system) {
        assert Active(s.alerts[b]) || (b == a && Sends(s, a));
      }
    }
  }

  lemma RestartUpQuiet(s: State)
    requires UpQuiet(s)
    ensures UpQuiet(Restarted(s))
  {
    hide ResolveFirst, Entries, Started;
    var t := Restarted(s);
    forall a <- t.alerts | Active(t.alerts[a]) && t.alerts[a].isStatus ensures !IsUp(t, t.alerts[a].system) {
      assert Active(s.alerts[a]);
    }
  }

  /** Exact: a step leaves a live status alert of an up system triggered if and only if it is one of those two. */
  lemma UpQuietIff(s: State, step: Step, t: State)
    requires Base(s) && UpQuiet(s) && Follows(s, step, t)
    ensures UpQuiet(t) <==> !StaysTriggered(s, step)
  {
    hide StatusSet, Restarted, Processed, UpQuiet, Base;
    if Plain(step) {
      PlainUpQuiet(s, step, t);
    } else {
      match step
      case SetStatus(system, status, ws) =>
        if status.Up? {
          UpWriteUpQuiet(s, system, ws);
        } else {
          OtherWriteUpQuiet(s, system, status, ws);
        }
      case Restart => RestartUpQuiet(s);
      case RunCallback(a, token) => CallbackUpQuiet(s, a, token, t);
      case Fire(a, token) => FireUpQuiet(s, a, token, t);
    }
  }

  lemma FireUpQuiet(s: State, a: Id, token: nat, t: State)
    requires UpQuiet(s) && Follows(s, Fire(a, token), t)
    ensures UpQuiet(t)
  {
  }

  /** In every run without such steps, no live status alert of a system that is up is triggered. */
  lemma {:induction false} RunUpQuiet(states: seq<State>, steps: seq<Step>, n: nat)
    requires IsRun(states, steps) && n <= |steps|
    requires forall i {:trigger steps[i]} :: 0 <= i < n ==> !StaysTriggered(states[i], steps[i])
    ensures UpQuiet(states[n])
  {
    hide Apply, Base;
    if n > 0 {
      RunUpQuiet(states, steps, n - 1);
      RunBase(states, steps, n - 1);
      assert Follows(states[n - 1], steps[n - 1], states[n]);
      UpQuietIff(states[n - 1], steps[n - 1], states[n]);
    }
  }

  /** An alert that is pending and triggered is cancelled and not resolved. */
  lemma GoesUpTriggered(a: Id, system: Id, log: seq<Event>)
    requires log != []
    ensures var s := One(a, system, MINUTE, Down, Idle(system, 2, log), map[a := Entry(system, MINUTE, MINUTE, 1)],
                         map[(a, 1) := MINUTE + MINUTE], {}, Some(MINUTE));
            && Follows(s, SetStatus(system, Up, false),
                       One(a, system, MINUTE, Up, Idle(system, 2, log), map[], map[], {}, None))
            && StaysTriggered(s, SetStatus(system, Up, false))
  {
    var s := One(a, system, MINUTE, Down, Idle(system, 2, log), map[a := Entry(system, MINUTE, MINUTE, 1)],
                 map[(a, 1) := MINUTE + MINUTE], {}, Some(MINUTE));
    assert StatusAlertsOf(s, system) == {a};
    var t := Apply(s, SetStatus(system, Up, false));
    assert t.pending == map[] && t.armed == map[] && t.alerts == s.alerts;
    assert a in s.alerts && StatusAlertOf(s.alerts[a], system);
  }

  /** With a WebSocket, "pending" and "up" leave the alert as it is. */
  lemma GoesPendingConnected(a: Id, system: Id, log: seq<Event>)
    ensures var t := One(a, system, MINUTE, Status.Pending, Idle(system, 1, log), map[], map[], {}, None);
            && Follows(One(a, system, MINUTE, Down, Idle(system, 1, log), map[], map[], {}, Some(0)),
                       SetStatus(system, Status.Pending, true), t)
            && Follows(t, SetStatus(system, Up, true),
                       One(a, system, MINUTE, Up, Idle(system, 1, log), map[], map[], {}, None))
  {
  }

  /** A minute after the system went down, "down" is sent. */
  lemma DownIsSent(a: Id, system: Id)
    ensures Leads(Watched(a, system, 0), [Tick(MINUTE), Fire(a, 0), RunCallback(a, 0)],
                  One(a, system, MINUTE, Down, Idle(system, 1, [DownSent(MINUTE, Some(0), MINUTE)]), map[], map[], {},
                      Some(0)))
  {
    hide StatusSet, Processed;
    var e := Entry(system, 0, MINUTE, 0);
    var s := Watched(a, system, MINUTE);
    var s1 := One(a, system, MINUTE, Down, Idle(system, 1, []), map[a := e], map[], {(a, 0)}, Some(0));
    var t := One(a, system, MINUTE, Down, Idle(system, 1, [DownSent(MINUTE, Some(0), MINUTE)]), map[], map[], {},
                 Some(0));
    Calls(a, system, Down, e, map[], 1, Some(0));
    Before(s1, RunCallback(a, 0), t, [], t);
    Before(s, Fire(a, 0), s1, [RunCallback(a, 0)], t);
    Before(Watched(a, system, 0), Tick(MINUTE), s, [Fire(a, 0), RunCallback(a, 0)], t);
  }

  /**
  The system is then written "pending" over its WebSocket, comes up, goes down and comes up again: it is up, its alert
  is still triggered and no "up" was sent.
   */
  lemma TriggeredThoughUp(a: Id, system: Id, log: seq<Event>)
    requires log != []
    ensures Leads(One(a, system, MINUTE, Down, Idle(system, 1, log), map[], map[], {}, Some(0)),
                  [SetStatus(system, Status.Pending, true), SetStatus(system, Up, true),
                   SetStatus(system, Down, false), SetStatus(system, Up, false)],
                  One(a, system, MINUTE, Up, Idle(system, 2, log), map[], map[], {}, None))
  {
    hide Apply, Enabled;
    var s := One(a, system, MINUTE, Down, Idle(system, 1, log), map[], map[], {}, Some(0));
    var s1 := One(a, system, MINUTE, Status.Pending, Idle(system, 1, log), map[], map[], {}, None);
    var s2 := One(a, system, MINUTE, Up, Idle(system, 1, log), map[], map[], {}, None);
    var s3 := One(a, system, MINUTE, Down, Idle(system, 2, log), map[a := Entry(system, MINUTE, MINUTE, 1)],
                  map[(a, 1) := MINUTE + MINUTE], {}, Some(MINUTE));
    var t := One(a, system, MINUTE, Up, Idle(system, 2, log), map[], map[], {}, None);
    var p, q, d, u := SetStatus(system, Status.Pending, true), SetStatus(system, Up, true),
        SetStatus(system, Down, false), SetStatus(system, Up, false);
    GoesUpTriggered(a, system, log);
    Before(s3, u, t, [], t);
    GoesDown(a, system, MINUTE, 1, {}, log);
    Before(s2, d, s3, [u], t);
    GoesPendingConnected(a, system, log);
    Before(s1, q, s2, [d, u], t);
    Before(s, p, s1, [q, d, u], t);
  }
}
