/**
The hub's WebSocket request multiplexer (internal/hub/ws/request_manager.go)
together with the goroutines that share it: senders, the single read loop, the
per-request timeout watchers, the waiters and Close.

Every lock-protected block, channel operation and context expiry is one step.
A request object is named by its handle (the order in which it was allocated),
which is not its wire id: ids are 32 bits wide and wrap.
 */
module RequestMux {
  import opened Basics

  const ID_SPACE: nat := 0x1_0000_0000

  type Handle = nat
  type Message = nat

  /** Where the goroutine that issued a request stands. */
  datatype Phase =
    | Fresh                       // object built, not yet in the pending map
    | Registered                  // in the pending map, write still in progress
    | Waiting                     // SendRequest returned, watcher started
    | Holding(message: Message)   // reply received, not yet closed
    | Left                        // gone: answered, timed out or failed to send

  /** A PendingRequest: `sent` is everything ever put in its channel, `taken` how much was received. */
  datatype Request = Request(id: nat, createdAt: int, phase: Phase, done: bool, sent: seq<Message>, taken: nat)

  /** The read loop between two of its blocks. */
  datatype Reader = Idle | Routing(message: Message, target: Handle) | Delivered(target: Handle)

  /** `arrived[m]` is the id carried by message m, None for a legacy reply. */
  datatype State = State(
    nextId: nat,
    reqs: seq<Request>,
    pending: map<nat, Handle>,
    arrived: seq<Option<nat>>,
    reader: Reader,
    closed: multiset<Message>)

  datatype Step =
    | Allocate(createdAt: int)
    | Register(h: Handle)
    | Return(h: Handle)
    | SendFailed(h: Handle)
    | Expire(h: Handle)
    | Watch(h: Handle)
    | Read(reply: Option<nat>, oldest: Handle)
    | Deliver
    | Drop
    | Forget
    | Receive(h: Handle)
    | Finish(h: Handle)
    | GiveUp(h: Handle)
    | CloseAll

  const INITIAL := State(0, [], map[], [], Idle, multiset{})

  // ---------------------------------------------------------------- steps

  predicate IsPending(s: State, h: Handle)
    requires h < |s.reqs|
  {
    s.reqs[h].id in s.pending && s.pending[s.reqs[h].id] == h
  }

  /** No pending request was created before h. */
  ghost predicate IsOldest(s: State, h: Handle) {
    && h < |s.reqs|
    && h in s.pending.Values
    && forall i <- s.pending ::
         s.pending[i] < |s.reqs| ==> s.reqs[h].createdAt <= s.reqs[s.pending[i]].createdAt
  }

  ghost predicate Enabled(s: State, step: Step) {
    match step
    case Allocate(_) => true
    case Register(h) => h < |s.reqs| && s.reqs[h].phase.Fresh?
    case Return(h) => h < |s.reqs| && s.reqs[h].phase.Registered?
    case SendFailed(h) => h < |s.reqs| && s.reqs[h].phase.Registered?
    case Expire(h) => h < |s.reqs|
    case Watch(h) => h < |s.reqs| && s.reqs[h].done
        && (s.reqs[h].phase.Waiting? || s.reqs[h].phase.Holding? || s.reqs[h].phase.Left?)
    case Read(None, oldest) => s.reader.Idle? && (s.pending == map[] || IsOldest(s, oldest))
    case Read(Some(_), _) => s.reader.Idle?
    case Deliver => s.reader.Routing? && s.reader.target < |s.reqs|
        && |s.reqs[s.reader.target].sent| <= s.reqs[s.reader.target].taken
    case Drop => s.reader.Routing? && s.reader.target < |s.reqs| && s.reqs[s.reader.target].done
    case Forget => s.reader.Delivered? && s.reader.target < |s.reqs|
    case Receive(h) => h < |s.reqs| && s.reqs[h].phase.Waiting? && s.reqs[h].taken < |s.reqs[h].sent|
    case Finish(h) => h < |s.reqs| && s.reqs[h].phase.Holding?
    case GiveUp(h) => h < |s.reqs| && s.reqs[h].phase.Waiting? && s.reqs[h].done
    case CloseAll => true
  }

  function Put(s: State, h: Handle, r: Request): State
    requires h < |s.reqs|
  {
    s.(reqs := s.reqs[h := r])
  }

  /** cancelRequest: one critical section. */
  function Cancel(s: State, id: nat): State {
    if id in s.pending then
      var t := s.(pending := s.pending - {id});
      var h := s.pending[id];
      if h < |s.reqs| then Put(t, h, s.reqs[h].(done := true)) else t
    else s
  }

  /** The requests after Close has cancelled every pending one. */
  function Cancelled(s: State): seq<Request> {
    seq(|s.reqs|, h requires 0 <= h < |s.reqs| =>
      if h in s.pending.Values then s.reqs[h].(done := true) else s.reqs[h])
  }

  function Apply(s: State, step: Step): State
    requires Enabled(s, step)
  {
    match step
    case Allocate(createdAt) =>
      var id := (s.nextId + 1) % ID_SPACE;
      s.(nextId := id, reqs := s.reqs + [Request(id, createdAt, Fresh, false, [], 0)])
    case Register(h) =>
      Put(s, h, s.reqs[h].(phase := Registered)).(pending := s.pending[s.reqs[h].id := h])
    case Return(h) => Put(s, h, s.reqs[h].(phase := Waiting))
    case SendFailed(h) => Cancel(Put(s, h, s.reqs[h].(phase := Left)), s.reqs[h].id)
    case Expire(h) => Put(s, h, s.reqs[h].(done := true))
    case Watch(h) => Cancel(s, s.reqs[h].id)
    case Read(reply, oldest) =>
      var m := |s.arrived|;
      var t := s.(arrived := s.arrived + [reply]);
      if reply.None? then
        if s.pending == map[] then t.(closed := s.closed + multiset{m}) else t.(reader := Routing(m, oldest))
      else if reply.value in s.pending then t.(reader := Routing(m, s.pending[reply.value]))
      else t.(closed := s.closed + multiset{m})
    case Deliver =>
      var h := s.reader.target;
      Put(s, h, s.reqs[h].(sent := s.reqs[h].sent + [s.reader.message])).(reader := Delivered(h))
    case Drop => s.(reader := Idle, closed := s.closed + multiset{s.reader.message})
    case Forget => s.(reader := Idle, pending := s.pending - {s.reqs[s.reader.target].id})
    case Receive(h) => Put(s, h, s.reqs[h].(phase := Holding(s.reqs[h].sent[s.reqs[h].taken]),
                                            taken := s.reqs[h].taken + 1))
    case Finish(h) =>
      Put(s, h, s.reqs[h].(phase := Left, done := true)).(closed := s.closed + multiset{s.reqs[h].phase.message})
    case GiveUp(h) => Put(s, h, s.reqs[h].(phase := Left))
    case CloseAll => s.(reqs := Cancelled(s), pending := map[])
  }

  ghost predicate Follows(s: State, step: Step, t: State) {
    Enabled(s, step) && t == Apply(s, step)
  }

  ghost predicate IsRun(states: seq<State>, steps: seq<Step>) {
    && |states| == |steps| + 1
    && states[0] == INITIAL
    && forall i {:trigger steps[i]} :: 0 <= i < |steps| ==> Follows(states[i], steps[i], states[i + 1])
  }

  // ---------------------------------------------------------------- invariant

  /** A registered request is still reachable by its reply, has its reply, or knows that it will not come. */
  predicate NotOrphaned(s: State, h: Handle)
    requires h < |s.reqs|
  {
    s.reqs[h].phase.Fresh? || IsPending(s, h) || s.reqs[h].sent != [] || s.reqs[h].done
  }

  predicate ChannelOk(s: State, h: Handle)
    requires h < |s.reqs|
  {
    var r := s.reqs[h];
    && r.taken <= |r.sent| <= 1
    && (r.phase.Fresh? ==> r.sent == [])
    && (r.phase.Holding? ==> r.sent == [r.phase.message])
    && (r.taken == 1 <==> r.phase.Holding? || (r.phase.Left? && r.sent != [] && s.closed[r.sent[0]] == 1))
    && (r.sent != [] ==>
          r.sent[0] < |s.arrived| && s.closed[r.sent[0]] == (if r.taken == 1 && r.phase.Left? then 1 else 0))
    && (r.sent != [] && IsPending(s, h) ==> s.reader == Delivered(h))
  }

  predicate RoutedById(s: State, h: Handle)
    requires h < |s.reqs|
  {
    forall m <- s.reqs[h].sent :: m < |s.arrived| && (s.arrived[m].Some? ==> s.arrived[m].value == s.reqs[h].id)
  }

  predicate IdsOk(s: State) {
    && s.nextId == |s.reqs| % ID_SPACE
    && (forall h :: 0 <= h < |s.reqs| ==> s.reqs[h].id == (h + 1) % ID_SPACE)
  }

  predicate PendingOk(s: State) {
    forall i <- s.pending :: s.pending[i] < |s.reqs| && s.reqs[s.pending[i]].id == i
        && !s.reqs[s.pending[i]].phase.Fresh?
  }

  predicate RequestsOk(s: State) {
    forall h :: 0 <= h < |s.reqs| ==> NotOrphaned(s, h) && ChannelOk(s, h) && RoutedById(s, h)
  }

  predicate ReaderOk(s: State) {
    && (s.reader.Delivered? ==> s.reader.target < |s.reqs| && s.reqs[s.reader.target].sent != [])
    && RoutingOk(s)
  }

  /** The read loop only ever holds a message for a request whose channel was never used. */
  predicate RoutingOk(s: State) {
    s.reader.Routing? ==>
      && s.reader.target < |s.reqs|
      && s.reader.message < |s.arrived|
      && var r := s.reqs[s.reader.target];
         && !r.phase.Fresh?
         && r.sent == []
         && s.closed[s.reader.message] == 0
         && (s.arrived[s.reader.message].Some? ==> s.arrived[s.reader.message].value == r.id)
  }

  ghost predicate WasSent(s: State, m: Message) {
    exists h :: 0 <= h < |s.reqs| && s.reqs[h].sent == [m]
  }

  ghost predicate MessagesOk(s: State) {
    && (forall m :: s.closed[m] <= 1)
    && (forall m :: m in s.closed ==> m < |s.arrived|)
    && (forall g, h :: 0 <= g < h < |s.reqs| && s.reqs[g].sent != [] ==> s.reqs[g].sent != s.reqs[h].sent)
    && (s.reader.Routing? ==> !WasSent(s, s.reader.message))
    && (forall m :: 0 <= m < |s.arrived| ==>
        m in s.closed || WasSent(s, m) || (s.reader.Routing? && s.reader.message == m))
  }

  ghost predicate Inv(s: State) {
    IdsOk(s) && PendingOk(s) && RequestsOk(s) && ReaderOk(s) && MessagesOk(s)
  }

  /** Below 2^32 requests no two objects share an id. */
  lemma IdsDistinct(s: State, g: Handle, h: Handle)
    requires IdsOk(s) && |s.reqs| <= ID_SPACE && g < |s.reqs| && h < |s.reqs| && s.reqs[g].id == s.reqs[h].id
    ensures g == h
  {
  }

  /** Steps that put nothing in a channel leave the set of sent messages alone. */
  lemma SameChannels(s: State, t: State)
    requires |s.reqs| <= |t.reqs|
    requires forall h :: 0 <= h < |t.reqs| ==> t.reqs[h].sent == (if h < |s.reqs| then s.reqs[h].sent else [])
    ensures forall m: Message :: WasSent(s, m) <==> WasSent(t, m)
  {
    forall m: Message ensures WasSent(s, m) <==> WasSent(t, m) {
      if WasSent(s, m) {
        var g :| 0 <= g < |s.reqs| && s.reqs[g].sent == [m];
        assert t.reqs[g].sent == [m];
      }
      if WasSent(t, m) {
        var g :| 0 <= g < |t.reqs| && t.reqs[g].sent == [m];
        assert s.reqs[g].sent == [m];
      }
    }
  }

  predicate PhaseMove(p: Phase, q: Phase) {
    p == q || (p.Registered? && (q.Waiting? || q.Left?)) || (p.Waiting? && q.Left?)
  }

  /** Steps that move a request along or expire its context, touching no channel and no pending entry. */
  lemma PhaseOnly(s: State, h: Handle, r: Request)
    requires Inv(s) && h < |s.reqs|
    requires r.id == s.reqs[h].id && r.sent == s.reqs[h].sent && r.taken == s.reqs[h].taken
             && (s.reqs[h].done ==> r.done)
    requires PhaseMove(s.reqs[h].phase, r.phase)
    ensures Inv(Put(s, h, r))
  {
    var t := Put(s, h, r);
    SameChannels(s, t);
    forall g | 0 <= g < |t.reqs| ensures NotOrphaned(t, g) && ChannelOk(t, g) && RoutedById(t, g) {
      assert NotOrphaned(s, g) && ChannelOk(s, g) && RoutedById(s, g);
    }
  }

  lemma AllocateIds(s: State, createdAt: int)
    requires IdsOk(s)
    ensures IdsOk(Apply(s, Allocate(createdAt)))
  {
  }

  lemma AllocateKeeps(s: State, createdAt: int)
    requires Inv(s)
    ensures Inv(Apply(s, Allocate(createdAt)))
  {
    var t := Apply(s, Allocate(createdAt));
    AllocateIds(s, createdAt);
    assert MessagesOk(t) by {
      SameChannels(s, t);
    }
    assert RequestsOk(t) by {
      forall g | 0 <= g < |t.reqs| ensures NotOrphaned(t, g) && ChannelOk(t, g) && RoutedById(t, g) {
        if g < |s.reqs| {
          assert NotOrphaned(s, g) && ChannelOk(s, g) && RoutedById(s, g);
        }
      }
    }
  }

  lemma RegisterKeeps(s: State, h: Handle)
    requires Inv(s) && |s.reqs| <= ID_SPACE && Enabled(s, Register(h))
    ensures Inv(Apply(s, Register(h)))
  {
    var t := Apply(s, Register(h));
    assert MessagesOk(t) by {
      SameChannels(s, t);
    }
    assert RequestsOk(t) by {
      forall g | 0 <= g < |t.reqs| ensures NotOrphaned(t, g) && ChannelOk(t, g) && RoutedById(t, g) {
        assert NotOrphaned(s, g) && ChannelOk(s, g) && RoutedById(s, g);
        if g != h && s.reqs[g].id == s.reqs[h].id {
          IdsDistinct(s, g, h);
        }
      }
    }
  }

  /** Dropping a pending entry is safe once its request is done or has its reply. */
  lemma RemoveKeeps(s: State, id: nat)
    requires Inv(s) && |s.reqs| <= ID_SPACE
    requires id in s.pending ==> s.reqs[s.pending[id]].done || s.reqs[s.pending[id]].sent != []
    ensures Inv(s.(pending := s.pending - {id}))
  {
    var t := s.(pending := s.pending - {id});
    SameChannels(s, t);
    forall g | 0 <= g < |t.reqs| ensures NotOrphaned(t, g) && ChannelOk(t, g) && RoutedById(t, g) {
      assert NotOrphaned(s, g) && ChannelOk(s, g) && RoutedById(s, g);
    }
  }

  lemma ForgetKeeps(s: State)
    requires Inv(s) && |s.reqs| <= ID_SPACE && Enabled(s, Forget)
    ensures Inv(Apply(s, Forget))
  {
    var h := s.reader.target;
    if s.reqs[h].id in s.pending {
      IdsDistinct(s, h, s.pending[s.reqs[h].id]);
    }
    var t, u := s.(pending := s.pending - {s.reqs[h].id}), Apply(s, Forget);
    RemoveKeeps(s, s.reqs[h].id);
    assert MessagesOk(u) by {
      SameChannels(t, u);
    }
    assert RequestsOk(u) by {
      forall g | 0 <= g < |u.reqs| ensures NotOrphaned(u, g) && ChannelOk(u, g) && RoutedById(u, g) {
        assert NotOrphaned(t, g) && ChannelOk(t, g) && RoutedById(t, g);
      }
    }
  }

  lemma CancelKeeps(s: State, id: nat)
    requires Inv(s) && |s.reqs| <= ID_SPACE
    ensures Inv(Cancel(s, id))
  {
    if id in s.pending {
      var h := s.pending[id];
      PhaseOnly(s, h, s.reqs[h].(done := true));
      RemoveKeeps(Put(s, h, s.reqs[h].(done := true)), id);
    }
  }

  /** A message that has just arrived is nowhere yet. */
  lemma ArrivalIsNew(s: State)
    requires Inv(s)
    ensures |s.arrived| !in s.closed && !WasSent(s, |s.arrived|)
  {
    forall g | 0 <= g < |s.reqs| ensures s.reqs[g].sent != [|s.arrived|] {
      assert ChannelOk(s, g);
    }
  }

  lemma ReadToClose(s: State, reply: Option<nat>)
    requires Inv(s) && s.reader.Idle?
    ensures Inv(s.(arrived := s.arrived + [reply], closed := s.closed + multiset{|s.arrived|}))
  {
    var t := s.(arrived := s.arrived + [reply], closed := s.closed + multiset{|s.arrived|});
    SameChannels(s, t);
    ArrivalIsNew(s);
    forall g | 0 <= g < |t.reqs| ensures NotOrphaned(t, g) && ChannelOk(t, g) && RoutedById(t, g) {
      assert NotOrphaned(s, g) && ChannelOk(s, g) && RoutedById(s, g);
    }
  }

  lemma ReadToRoute(s: State, reply: Option<nat>, h: Handle)
    requires Inv(s) && s.reader.Idle? && h in s.pending.Values
    requires reply.Some? ==> h < |s.reqs| && s.reqs[h].id == reply.value
    ensures Inv(s.(arrived := s.arrived + [reply], reader := Routing(|s.arrived|, h)))
  {
    var t := s.(arrived := s.arrived + [reply], reader := Routing(|s.arrived|, h));
    SameChannels(s, t);
    ArrivalIsNew(s);
    assert ChannelOk(s, h) && IsPending(s, h);
    forall g | 0 <= g < |t.reqs| ensures NotOrphaned(t, g) && ChannelOk(t, g) && RoutedById(t, g) {
      assert NotOrphaned(s, g) && ChannelOk(s, g) && RoutedById(s, g);
    }
  }

  lemma ReadKeeps(s: State, reply: Option<nat>, oldest: Handle)
    requires Inv(s) && Enabled(s, Read(reply, oldest))
    ensures Inv(Apply(s, Read(reply, oldest)))
  {
    if reply.None? && s.pending != map[] {
      ReadToRoute(s, reply, oldest);
    } else if reply.Some? && reply.value in s.pending {
      ReadToRoute(s, reply, s.pending[reply.value]);
    } else {
      ReadToClose(s, reply);
    }
  }

  lemma DeliverSends(s: State, t: State)
    requires Inv(s) && Enabled(s, Deliver) && t == Apply(s, Deliver)
    ensures t.reqs[s.reader.target].sent == [s.reader.message]
    ensures forall m: Message :: WasSent(t, m) <==> WasSent(s, m) || m == s.reader.message
  {
    var h, m0 := s.reader.target, s.reader.message;
    assert t.reqs[h].sent == [m0];
    forall m: Message ensures WasSent(t, m) <==> WasSent(s, m) || m == m0 {
      if WasSent(s, m) {
        var g :| 0 <= g < |s.reqs| && s.reqs[g].sent == [m];
        assert t.reqs[g].sent == [m];
      }
      if WasSent(t, m) {
        var g :| 0 <= g < |t.reqs| && t.reqs[g].sent == [m];
        assert g != h ==> s.reqs[g].sent == [m];
      }
    }
  }

  lemma DeliverKeeps(s: State)
    requires Inv(s) && |s.reqs| <= ID_SPACE && Enabled(s, Deliver)
    ensures Inv(Apply(s, Deliver))
  {
    var t := Apply(s, Deliver);
    var h, m0 := s.reader.target, s.reader.message;
    DeliverSends(s, t);
    assert MessagesOk(t) by {
      forall g, k | 0 <= g < k < |t.reqs| && t.reqs[g].sent != [] ensures t.reqs[g].sent != t.reqs[k].sent {
        assert g != h ==> t.reqs[g].sent == s.reqs[g].sent && s.reqs[g].sent != [m0];
        assert k != h ==> t.reqs[k].sent == s.reqs[k].sent && s.reqs[k].sent != [m0];
      }
    }
    assert RequestsOk(t) by {
      forall g | 0 <= g < |t.reqs| ensures NotOrphaned(t, g) && ChannelOk(t, g) && RoutedById(t, g) {
        assert NotOrphaned(s, g) && ChannelOk(s, g) && RoutedById(s, g);
        if g != h {
          DeliverOther(s, t, g);
        }
      }
    }
  }

  lemma DeliverOther(s: State, t: State, g: Handle)
    requires Inv(s) && |s.reqs| <= ID_SPACE && Enabled(s, Deliver) && t == Apply(s, Deliver)
    requires g < |s.reqs| && g != s.reader.target
    ensures ChannelOk(t, g)
  {
    assert ChannelOk(s, g);
    assert t.reqs[g] == s.reqs[g];
  }

  lemma DropKeeps(s: State)
    requires Inv(s) && Enabled(s, Drop)
    ensures Inv(Apply(s, Drop))
  {
    var t := Apply(s, Drop);
    SameChannels(s, t);
    forall g | 0 <= g < |t.reqs| ensures NotOrphaned(t, g) && ChannelOk(t, g) && RoutedById(t, g) {
      assert NotOrphaned(s, g) && ChannelOk(s, g) && RoutedById(s, g);
      assert s.reqs[g].sent != [s.reader.message];
    }
  }

  lemma ReceiveKeeps(s: State, h: Handle)
    requires Inv(s) && Enabled(s, Receive(h))
    ensures Inv(Apply(s, Receive(h)))
  {
    var t := Apply(s, Receive(h));
    assert MessagesOk(t) by {
      SameChannels(s, t);
    }
    assert RequestsOk(t) by {
      forall g | 0 <= g < |t.reqs| ensures NotOrphaned(t, g) && ChannelOk(t, g) && RoutedById(t, g) {
        assert NotOrphaned(s, g) && ChannelOk(s, g) && RoutedById(s, g);
      }
    }
  }

  lemma FinishKeeps(s: State, h: Handle)
    requires Inv(s) && Enabled(s, Finish(h))
    ensures Inv(Apply(s, Finish(h)))
  {
    var t := Apply(s, Finish(h));
    assert ChannelOk(s, h);
    assert MessagesOk(t) by {
      SameChannels(s, t);
    }
    assert RequestsOk(t) by {
      forall g | 0 <= g < |t.reqs| ensures NotOrphaned(t, g) && ChannelOk(t, g) && RoutedById(t, g) {
        assert NotOrphaned(s, g) && ChannelOk(s, g) && RoutedById(s, g);
        assert g != h && s.reqs[g].sent != [] ==> s.reqs[g].sent != s.reqs[h].sent;
      }
    }
  }

  lemma CloseAllKeeps(s: State)
    requires Inv(s)
    ensures Inv(Apply(s, CloseAll))
  {
    var t := Apply(s, CloseAll);
    SameChannels(s, t);
    forall g | 0 <= g < |t.reqs| ensures NotOrphaned(t, g) && ChannelOk(t, g) && RoutedById(t, g) {
      assert NotOrphaned(s, g) && ChannelOk(s, g) && RoutedById(s, g);
      assert IsPending(s, g) ==> g in s.pending.Values;
    }
  }

  /** Every step of every goroutine keeps the invariant, as long as ids have not wrapped. */
  lemma StepKeeps(s: State, step: Step)
    requires Inv(s) && |s.reqs| <= ID_SPACE && Enabled(s, step)
    ensures Inv(Apply(s, step))
  {
    match step
    case Allocate(createdAt) => AllocateKeeps(s, createdAt);
    case Register(h) => RegisterKeeps(s, h);
    case Return(h) => PhaseOnly(s, h, s.reqs[h].(phase := Waiting));
    case SendFailed(h) =>
      PhaseOnly(s, h, s.reqs[h].(phase := Left));
      CancelKeeps(Put(s, h, s.reqs[h].(phase := Left)), s.reqs[h].id);
    case Expire(h) => PhaseOnly(s, h, s.reqs[h].(done := true));
    case Watch(h) => CancelKeeps(s, s.reqs[h].id);
    case Read(reply, oldest) => ReadKeeps(s, reply, oldest);
    case Deliver => DeliverKeeps(s);
    case Drop => DropKeeps(s);
    case Forget => ForgetKeeps(s);
    case Receive(h) => ReceiveKeeps(s, h);
    case Finish(h) => FinishKeeps(s, h);
    case GiveUp(h) => PhaseOnly(s, h, s.reqs[h].(phase := Left));
    case CloseAll => CloseAllKeeps(s);
  }

  // ---------------------------------------------------------------- whole runs

  lemma {:induction false} RunGrows(states: seq<State>, steps: seq<Step>, i: nat)
    requires IsRun(states, steps) && i < |states|
    ensures |states[i].reqs| <= |states[|steps|].reqs|
    decreases |states| - i
  {
    if i < |steps| {
      assert Follows(states[i], steps[i], states[i + 1]);
      RunGrows(states, steps, i + 1);
    }
  }

  lemma {:induction false} RunKeeps(states: seq<State>, steps: seq<Step>, i: nat)
    requires IsRun(states, steps) && |states[|steps|].reqs| <= ID_SPACE && i < |states|
    ensures Inv(states[i])
  {
    if i > 0 {
      RunKeeps(states, steps, i - 1);
      RunGrows(states, steps, i - 1);
      assert Follows(states[i - 1], steps[i - 1], states[i]);
      StepKeeps(states[i - 1], steps[i - 1]);
    }
  }

  /**
  In every interleaving of at most 2^32 requests, no request is orphaned, and whenever the
  read loop holds a message its target's one-slot channel has never been used, so it never blocks.
   */
  lemma NoWaiterOrphaned(states: seq<State>, steps: seq<Step>, i: nat)
    requires IsRun(states, steps) && |states[|steps|].reqs| <= ID_SPACE && i < |states|
    ensures forall h :: 0 <= h < |states[i].reqs| ==> NotOrphaned(states[i], h)
    ensures states[i].reader.Routing? ==>
              && Enabled(states[i], Deliver)
              && states[i].reqs[states[i].reader.target].sent == []
  {
    RunKeeps(states, steps, i);
    var s := states[i];
    if s.reader.Routing? {
      assert ChannelOk(s, s.reader.target);
    }
  }

  /** A waiter that is neither answered nor timed out gets the next reply that carries its id. */
  lemma ReplyReachesWaiter(s: State, h: Handle, oldest: Handle)
    requires Inv(s) && |s.reqs| <= ID_SPACE && s.reader.Idle?
    requires h < |s.reqs| && s.reqs[h].phase.Waiting? && !s.reqs[h].done && s.reqs[h].sent == []
    ensures var t := Apply(s, Read(Some(s.reqs[h].id), oldest));
            && !Enabled(t, Drop)
            && Enabled(t, Deliver)
            && Apply(t, Deliver).reqs[h].sent == [|s.arrived|]
            && Enabled(Apply(t, Deliver), Receive(h))
  {
    assert NotOrphaned(s, h) && ChannelOk(s, h);
  }

  // ---------------------------------------------------------------- who is pending

  /** The steps after which h is not pending: its write failed, its watcher or Close ran, or its reply was delivered. */
  predicate Removes(s: State, step: Step, h: Handle) {
    step == SendFailed(h) || step == Watch(h) || step == CloseAll || (step.Forget? && s.reader == Delivered(h))
  }

  /** cancelRequest with a request's own id removes that request and no other. */
  lemma CancelPending(s: State, g: Handle, h: Handle)
    requires IdsOk(s) && PendingOk(s) && g < |s.reqs| <= ID_SPACE && h < |s.reqs|
    ensures var t := Cancel(s, s.reqs[g].id);
            && |t.reqs| == |s.reqs| && t.reqs[h].id == s.reqs[h].id
            && (IsPending(t, h) <==> IsPending(s, h) && g != h)
            && (t.reqs[h].done <==> s.reqs[h].done || (g == h && IsPending(s, h)))
  {
    if s.reqs[g].id == s.reqs[h].id {
      IdsDistinct(s, g, h);
    }
    if s.reqs[g].id in s.pending {
      IdsDistinct(s, g, s.pending[s.reqs[g].id]);
    }
  }

  predicate Cancels(step: Step) {
    step.SendFailed? || step.Watch?
  }

  lemma CancelStep(s: State, step: Step, h: Handle)
    requires IdsOk(s) && PendingOk(s) && Enabled(s, step) && Cancels(step) && h < |s.reqs| <= ID_SPACE
    ensures var t := Apply(s, step);
            && |t.reqs| == |s.reqs| && (IsPending(t, h) <==> IsPending(s, h) && step.h != h)
            && (t.reqs[h].done <==> s.reqs[h].done || (step.h == h && IsPending(s, h)))
  {
    hide Cancel;
    var u := if step.Watch? then s else Put(s, step.h, s.reqs[step.h].(phase := Left));
    CancelPending(u, step.h, h);
  }

  predicate ChangesPending(step: Step) {
    Cancels(step) || step.Register? || step.Forget? || step.CloseAll?
  }

  lemma OtherStep(s: State, step: Step, h: Handle)
    requires Enabled(s, step) && !ChangesPending(step) && h < |s.reqs|
    ensures var t := Apply(s, step);
            && t.pending == s.pending && h < |t.reqs| && t.reqs[h].id == s.reqs[h].id
            && (t.reqs[h].done <==> s.reqs[h].done || step == Expire(h) || step == Finish(h))
  {
    match step
    case _ =>
  }

  lemma StepPending(s: State, step: Step, h: Handle)
    requires IdsOk(s) && PendingOk(s) && Enabled(s, step) && h < |s.reqs| <= ID_SPACE
    ensures var t := Apply(s, step);
            h < |t.reqs| && (IsPending(t, h) <==> step == Register(h) || (IsPending(s, h) && !Removes(s, step, h)))
  {
    if !ChangesPending(step) {
      hide Apply, Enabled;
      OtherStep(s, step, h);
    } else if Cancels(step) {
      hide Apply, Enabled;
      CancelStep(s, step, h);
    } else if !step.CloseAll? {
      var g := if step.Register? then step.h else s.reader.target;
      if s.reqs[g].id == s.reqs[h].id {
        IdsDistinct(s, g, h);
      }
    }
  }

  /** Step k registered h and no step since then, before i, removed it. */
  predicate StaysRegistered(states: seq<State>, steps: seq<Step>, k: int, i: nat, h: Handle)
    requires |states| == |steps| + 1 && i <= |steps|
  {
    && 0 <= k < i && steps[k] == Register(h)
    && forall l {:trigger steps[l]} :: k < l < i ==> !Removes(states[l], steps[l], h)
  }

  ghost predicate Outstanding(states: seq<State>, steps: seq<Step>, i: nat, h: Handle)
    requires |states| == |steps| + 1 && i <= |steps|
  {
    exists k :: StaysRegistered(states, steps, k, i, h)
  }

  lemma OutstandingNext(states: seq<State>, steps: seq<Step>, i: nat, h: Handle)
    requires |states| == |steps| + 1 && i < |steps|
    ensures Outstanding(states, steps, i + 1, h)
            <==> steps[i] == Register(h) || (Outstanding(states, steps, i, h) && !Removes(states[i], steps[i], h))
  {
    if steps[i] == Register(h) {
      assert StaysRegistered(states, steps, i, i + 1, h);
    } else if Outstanding(states, steps, i, h) && !Removes(states[i], steps[i], h) {
      var k :| StaysRegistered(states, steps, k, i, h);
      assert StaysRegistered(states, steps, k, i + 1, h);
    }
    if Outstanding(states, steps, i + 1, h) && steps[i] != Register(h) {
      var k :| StaysRegistered(states, steps, k, i + 1, h);
      assert !Removes(states[i], steps[i], h);
      assert StaysRegistered(states, steps, k, i, h);
    }
  }

  /** In every run the pending requests are exactly those that were registered and that no step has removed since. */
  lemma {:induction false} PendingIff(states: seq<State>, steps: seq<Step>, i: nat, h: Handle)
    requires IsRun(states, steps) && |states[|steps|].reqs| <= ID_SPACE && i <= |steps|
    ensures h in states[i].pending.Values <==> Outstanding(states, steps, i, h)
  {
    hide Inv, Apply, Enabled, Removes, Outstanding;
    if i == 0 {
      NothingOutstanding(states, steps, h);
    } else {
      var s, step := states[i - 1], steps[i - 1];
      PendingIff(states, steps, i - 1, h);
      RunKeeps(states, steps, i - 1);
      RunKeeps(states, steps, i);
      RunGrows(states, steps, i);
      RunGrows(states, steps, i - 1);
      OutstandingNext(states, steps, i - 1, h);
      assert Follows(s, step, states[i]);
      PendingValues(s, h);
      PendingValues(states[i], h);
      if h < |s.reqs| {
        InvParts(s);
        StepPending(s, step, h);
      } else {
        NewNotPending(s, step, h);
      }
    }
  }

  lemma InvParts(s: State)
    requires Inv(s)
    ensures IdsOk(s) && PendingOk(s)
  {
  }

  lemma NothingOutstanding(states: seq<State>, steps: seq<Step>, h: Handle)
    requires |states| == |steps| + 1
    ensures !Outstanding(states, steps, 0, h)
  {
  }

  lemma PendingValues(s: State, h: Handle)
    requires Inv(s)
    ensures h in s.pending.Values <==> h < |s.reqs| && IsPending(s, h)
  {
    if h in s.pending.Values {
      var i :| i in s.pending && s.pending[i] == h;
    }
  }

  lemma NewNotPending(s: State, step: Step, h: Handle)
    requires Inv(s) && Enabled(s, step) && h >= |s.reqs|
    ensures step != Register(h) && (h < |Apply(s, step).reqs| ==> !IsPending(Apply(s, step), h))
  {
  }

  /** A request is registered once. */
  lemma {:induction false} NotFreshAgain(states: seq<State>, steps: seq<Step>, i: nat, j: nat, h: Handle)
    requires IsRun(states, steps) && i <= j <= |steps| && h < |states[i].reqs| && !states[i].reqs[h].phase.Fresh?
    ensures h < |states[j].reqs| && !states[j].reqs[h].phase.Fresh?
  {
    if i < j {
      NotFreshAgain(states, steps, i, j - 1, h);
      assert Follows(states[j - 1], steps[j - 1], states[j]);
    }
  }

  /** What the watcher, a failed write, a delivery or Close has removed is pending in no later state. */
  lemma RemovedForGood(states: seq<State>, steps: seq<Step>, k: nat, i: nat, h: Handle)
    requires IsRun(states, steps) && |states[|steps|].reqs| <= ID_SPACE && k < i <= |steps|
    requires Removes(states[k], steps[k], h) && h < |states[k].reqs| && !states[k].reqs[h].phase.Fresh?
    ensures h !in states[i].pending.Values
  {
    hide Apply;
    PendingIff(states, steps, i, h);
    forall l ensures !StaysRegistered(states, steps, l, i, h) {
      if 0 <= l < i {
        assert Follows(states[l], steps[l], states[l + 1]);
        if k < l {
          NotFreshAgain(states, steps, k, l, h);
        } else {
          assert Removes(states[k], steps[k], h);
        }
      }
    }
  }

  /** So an expired request leaves no trace once its watcher has run. */
  lemma WatchedForGood(states: seq<State>, steps: seq<Step>, k: nat, i: nat, h: Handle)
    requires IsRun(states, steps) && |states[|steps|].reqs| <= ID_SPACE && k < i <= |steps| && steps[k] == Watch(h)
    ensures h !in states[i].pending.Values
  {
    assert Follows(states[k], steps[k], states[k + 1]);
    RemovedForGood(states, steps, k, i, h);
  }

  /** And Close leaves nothing pending that was registered before it. */
  lemma ClosedForGood(states: seq<State>, steps: seq<Step>, k: nat, i: nat, h: Handle)
    requires IsRun(states, steps) && |states[|steps|].reqs| <= ID_SPACE && k < i <= |steps| && steps[k] == CloseAll
    requires h in states[i].pending.Values
    ensures exists l :: k < l < i && steps[l] == Register(h)
  {
    PendingIff(states, steps, i, h);
    var l :| StaysRegistered(states, steps, l, i, h);
    assert Removes(states[k], steps[k], h);
  }

  /**
  A reply without an id goes to a request that was created no later than any other that was registered and not removed
  since: with the expired ones watched, the oldest live one.
   */
  lemma LegacyReplyGoesToOldest(states: seq<State>, steps: seq<Step>, i: nat, oldest: Handle, g: Handle)
    requires IsRun(states, steps) && |states[|steps|].reqs| <= ID_SPACE && i <= |steps|
    requires Enabled(states[i], Read(None, oldest)) && Outstanding(states, steps, i, g)
    ensures Apply(states[i], Read(None, oldest)).reader == Routing(|states[i].arrived|, oldest)
    ensures Outstanding(states, steps, i, oldest) && oldest < |states[i].reqs| && g < |states[i].reqs|
    ensures states[i].reqs[oldest].createdAt <= states[i].reqs[g].createdAt
  {
    hide Outstanding;
    var s := states[i];
    RunKeeps(states, steps, i);
    PendingIff(states, steps, i, g);
    PendingIff(states, steps, i, oldest);
    var id :| id in s.pending && s.pending[id] == g;
    assert s.pending[id] < |s.reqs|;
  }

  /**
  A live waiter gets the next reply without an id once every other request that was registered has been removed: timed
  out and watched, answered, or failed.
   */
  lemma LegacyReplyReachesWaiter(states: seq<State>, steps: seq<Step>, i: nat, h: Handle, oldest: Handle)
    requires IsRun(states, steps) && |states[|steps|].reqs| <= ID_SPACE && i <= |steps|
    requires h < |states[i].reqs| && states[i].reqs[h].phase.Waiting? && !states[i].reqs[h].done
    requires states[i].reqs[h].sent == []
    requires forall g: Handle :: g != h ==> !Outstanding(states, steps, i, g)
    requires Enabled(states[i], Read(None, oldest))
    ensures oldest == h
    ensures var t := Apply(states[i], Read(None, oldest));
            && !Enabled(t, Drop)
            && Enabled(t, Deliver)
            && Apply(t, Deliver).reqs[h].sent == [|states[i].arrived|]
            && Enabled(Apply(t, Deliver), Receive(h))
  {
    hide Outstanding;
    var s := states[i];
    RunKeeps(states, steps, i);
    assert NotOrphaned(s, h) && ChannelOk(s, h);
    PendingValues(s, h);
    PendingIff(states, steps, i, h);
    PendingIff(states, steps, i, oldest);
  }

  /** The steps that end a request's context: its time is over, its waiter is done, or it is cancelled while pending. */
  predicate Ends(s: State, step: Step, h: Handle) {
    || step == Expire(h) || step == Finish(h)
    || ((step == SendFailed(h) || step == CloseAll) && h < |s.reqs| && IsPending(s, h))
  }

  lemma StepDone(s: State, step: Step, h: Handle)
    requires IdsOk(s) && PendingOk(s) && Enabled(s, step) && h < |s.reqs| <= ID_SPACE
    ensures var t := Apply(s, step); h < |t.reqs| && (t.reqs[h].done <==> s.reqs[h].done || Ends(s, step, h))
  {
    if !ChangesPending(step) {
      hide Apply, Enabled;
      OtherStep(s, step, h);
    } else if Cancels(step) {
      hide Apply, Enabled;
      CancelStep(s, step, h);
    } else if step.CloseAll? {
      CloseDone(s, h);
    }
  }

  lemma CloseDone(s: State, h: Handle)
    requires PendingOk(s) && h < |s.reqs|
    ensures Cancelled(s)[h].done <==> s.reqs[h].done || IsPending(s, h)
  {
    if h in s.pending.Values {
      var i :| i in s.pending && s.pending[i] == h;
    }
  }

  lemma {:induction false} RunLonger(states: seq<State>, steps: seq<Step>, i: nat, j: nat)
    requires IsRun(states, steps) && i <= j <= |steps|
    ensures |states[i].reqs| <= |states[j].reqs|
  {
    if i < j {
      RunLonger(states, steps, i, j - 1);
      assert Follows(states[j - 1], steps[j - 1], states[j]);
    }
  }

  /** In every run a request's context has ended if and only if one of those steps was taken. */
  lemma {:induction false} DoneIff(states: seq<State>, steps: seq<Step>, i: nat, h: Handle)
    requires IsRun(states, steps) && |states[|steps|].reqs| <= ID_SPACE && i <= |steps| && h < |states[i].reqs|
    ensures states[i].reqs[h].done <==> exists k {:trigger steps[k]} :: 0 <= k < i && Ends(states[k], steps[k], h)
  {
    hide Inv, Apply, Enabled, Ends;
    if i > 0 {
      var s, step := states[i - 1], steps[i - 1];
      RunKeeps(states, steps, i - 1);
      RunGrows(states, steps, i);
      RunGrows(states, steps, i - 1);
      assert Follows(s, step, states[i]);
      if h < |s.reqs| {
        DoneIff(states, steps, i - 1, h);
        InvParts(s);
        StepDone(s, step, h);
      } else {
        NewNotDone(s, step, h);
        forall k | 0 <= k < i ensures !Ends(states[k], steps[k], h) {
          RunLonger(states, steps, k, i - 1);
          assert Follows(states[k], steps[k], states[k + 1]);
          UnknownNotEnded(states[k], steps[k], h);
        }
      }
    }
  }

  lemma NewNotDone(s: State, step: Step, h: Handle)
    requires Enabled(s, step) && |s.reqs| <= h < |Apply(s, step).reqs|
    ensures !Apply(s, step).reqs[h].done
  {
  }

  lemma UnknownNotEnded(s: State, step: Step, h: Handle)
    requires Enabled(s, step) && |s.reqs| <= h
    ensures !Ends(s, step, h)
  {
  }

  // ---------------------------------------------------------------- messages

  ghost predicate InChannel(s: State, m: Message) {
    exists h :: 0 <= h < |s.reqs| && s.reqs[h].sent == [m] && s.reqs[h].taken == 0
  }

  ghost predicate InHand(s: State, m: Message) {
    exists h :: 0 <= h < |s.reqs| && s.reqs[h].phase == Holding(m)
  }

  predicate InReader(s: State, m: Message) {
    s.reader.Routing? && s.reader.message == m
  }

  function Count(b: bool): nat {
    if b then 1 else 0
  }

  /**
  Conservation: each message that arrived is in exactly one place. It is being routed, or lies unread
  in a channel, or is held by a waiter, or has been closed, and closed once.
   */
  lemma MessageHasOneHome(states: seq<State>, steps: seq<Step>, i: nat, m: Message)
    requires IsRun(states, steps) && |states[|steps|].reqs| <= ID_SPACE && i < |states|
    requires m < |states[i].arrived|
    ensures var s := states[i];
            s.closed[m] + Count(InReader(s, m)) + Count(InChannel(s, m)) + Count(InHand(s, m)) == 1
  {
    RunKeeps(states, steps, i);
    OneHome(states[i], m);
  }

  lemma OneHome(s: State, m: Message)
    requires Inv(s) && m < |s.arrived|
    ensures s.closed[m] + Count(InReader(s, m)) + Count(InChannel(s, m)) + Count(InHand(s, m)) == 1
  {
    assert s.closed[m] <= 1;
    forall h | 0 <= h < |s.reqs| ensures ChannelOk(s, h) {}
    if WasSent(s, m) {
      var g :| 0 <= g < |s.reqs| && s.reqs[g].sent == [m];
      assert ChannelOk(s, g);
      assert !InReader(s, m);
      assert forall h :: 0 <= h < |s.reqs| && s.reqs[h].sent == [m] ==> h == g;
      assert InChannel(s, m) <==> s.reqs[g].taken == 0;
      forall h | 0 <= h < |s.reqs| && s.reqs[h].phase == Holding(m) ensures h == g {
        assert ChannelOk(s, h);
      }
    } else {
      assert !InChannel(s, m);
      assert !InHand(s, m) by {
        forall h | 0 <= h < |s.reqs| ensures s.reqs[h].phase != Holding(m) {
          assert ChannelOk(s, h);
        }
      }
    }
  }

  /**
  A reply that carries an id is only ever put in the channel of a request issued with that id, and in one channel only.
   */
  lemma RepliesMatchRequests(states: seq<State>, steps: seq<Step>, i: nat, g: Handle, h: Handle, m: Message)
    requires IsRun(states, steps) && |states[|steps|].reqs| <= ID_SPACE && i < |states|
    requires g < |states[i].reqs| && h < |states[i].reqs|
    requires m in states[i].reqs[g].sent
    ensures m < |states[i].arrived|
    ensures states[i].arrived[m].Some? ==> states[i].arrived[m].value == states[i].reqs[g].id
    ensures m in states[i].reqs[h].sent ==> g == h
    ensures states[i].reqs[g].sent == [m]
  {
    RunKeeps(states, steps, i);
    var s := states[i];
    assert RoutedById(s, g) && ChannelOk(s, g) && ChannelOk(s, h);
    if m in s.reqs[h].sent {
      assert s.reqs[h].sent == [m];
    }
  }

  predicate Abandoned(s: State, h: Handle) {
    h < |s.reqs| && s.reqs[h].phase.Left? && |s.reqs[h].sent| == 1 && s.reqs[h].taken == 0
  }

  lemma StaysAbandoned(s: State, step: Step, h: Handle)
    requires Abandoned(s, h) && Enabled(s, step)
    ensures Abandoned(Apply(s, step), h) && Apply(s, step).reqs[h].sent == s.reqs[h].sent
  {
  }

  lemma {:induction false} RunStaysAbandoned(states: seq<State>, steps: seq<Step>, i: nat, j: nat, h: Handle)
    requires IsRun(states, steps) && i <= j < |states|
    requires Abandoned(states[i], h)
    ensures Abandoned(states[j], h) && states[j].reqs[h].sent == states[i].reqs[h].sent
  {
    if i < j {
      RunStaysAbandoned(states, steps, i, j - 1, h);
      assert Follows(states[j - 1], steps[j - 1], states[j]);
      StaysAbandoned(states[j - 1], steps[j - 1], h);
    }
  }

  lemma AbandonedIsOpen(s: State, h: Handle)
    requires Inv(s) && Abandoned(s, h)
    ensures s.closed[s.reqs[h].sent[0]] == 0
  {
    assert ChannelOk(s, h);
  }

  /** A reply handed to a request whose waiter has left stays in that channel for good: nobody ever closes it. */
  lemma LeakIsForever(states: seq<State>, steps: seq<Step>, i: nat, j: nat, h: Handle)
    requires IsRun(states, steps) && |states[|steps|].reqs| <= ID_SPACE && i <= j < |states|
    requires Abandoned(states[i], h)
    ensures Abandoned(states[j], h) && states[j].reqs[h].sent == states[i].reqs[h].sent
    ensures states[j].closed[states[i].reqs[h].sent[0]] == 0
  {
    RunStaysAbandoned(states, steps, i, j, h);
    RunKeeps(states, steps, j);
    AbandonedIsOpen(states[j], h);
  }

  /**
  The ways a reply is lost: it is sent to a request whose waiter has left, its waiter leaves with the reply unread, or
  the write of a request fails after its reply has come.
   */
  predicate Strands(s: State, step: Step, h: Handle) {
    && h < |s.reqs|
    && match step
       case Deliver => s.reader.Routing? && s.reader.target == h && s.reqs[h].phase.Left?
       case GiveUp(g) => g == h && |s.reqs[h].sent| > s.reqs[h].taken
       case SendFailed(g) => g == h && s.reqs[h].sent != []
       case _ => false
  }

  /** Exact: a step abandons a reply of request h if and only if it is one of those three on h. */
  lemma AbandonedIff(s: State, step: Step, h: Handle)
    requires Inv(s) && Enabled(s, step) && !Abandoned(s, h)
    ensures Abandoned(Apply(s, step), h) <==> Strands(s, step, h)
  {
    hide Apply, Enabled, Abandoned, Strands;
    if h < |s.reqs| {
      assert ChannelOk(s, h);
      AbandonedBy(s, step, h);
    } else {
      NewNotAbandoned(s, step, h);
    }
  }

  lemma AbandonedBy(s: State, step: Step, h: Handle)
    requires h < |s.reqs| && ChannelOk(s, h) && RoutingOk(s) && Enabled(s, step) && !Abandoned(s, h)
    ensures Abandoned(Apply(s, step), h) <==> Strands(s, step, h)
  {
  }

  lemma NewNotAbandoned(s: State, step: Step, h: Handle)
    requires h >= |s.reqs| && Enabled(s, step)
    ensures !Abandoned(Apply(s, step), h) && !Strands(s, step, h)
  {
  }

  /** No step before i strands a reply. */
  ghost predicate NothingStranded(states: seq<State>, steps: seq<Step>, i: nat)
    requires i <= |steps| <= |states|
  {
    forall k, h {:trigger Strands(states[k], steps[k], h)} :: 0 <= k < i ==> !Strands(states[k], steps[k], h)
  }

  lemma {:induction false} RunNotAbandoned(states: seq<State>, steps: seq<Step>, i: nat, h: Handle)
    requires IsRun(states, steps) && |states[|steps|].reqs| <= ID_SPACE && i <= |steps|
             && NothingStranded(states, steps, i)
    ensures !Abandoned(states[i], h)
  {
    if i > 0 {
      RunNotAbandoned(states, steps, i - 1, h);
      RunKeeps(states, steps, i - 1);
      assert Follows(states[i - 1], steps[i - 1], states[i]);
      assert !Strands(states[i - 1], steps[i - 1], h);
      AbandonedIff(states[i - 1], steps[i - 1], h);
    }
  }

  /** The message lies in the channel of a request whose waiter can still take it. */
  ghost predicate InLiveChannel(s: State, m: Message) {
    exists h :: 0 <= h < |s.reqs| && s.reqs[h].sent == [m] && s.reqs[h].taken == 0 && !s.reqs[h].phase.Left?
  }

  /**
  In every run, up to any point, each message that arrived is closed, with the reader, in a waiter's hand or in the
  channel of a live request, if and only if no step so far stranded a reply.
   */
  lemma RepliesLostIff(states: seq<State>, steps: seq<Step>, i: nat)
    requires IsRun(states, steps) && |states[|steps|].reqs| <= ID_SPACE && i <= |steps|
    ensures NothingStranded(states, steps, i) <==>
            forall m :: 0 <= m < |states[i].arrived| ==>
              states[i].closed[m] == 1 || InReader(states[i], m) || InHand(states[i], m) || InLiveChannel(states[i], m)
  {
    var s := states[i];
    RunKeeps(states, steps, i);
    if NothingStranded(states, steps, i) {
      forall m | 0 <= m < |s.arrived|
          ensures s.closed[m] == 1 || InReader(s, m) || InHand(s, m) || InLiveChannel(s, m) {
        OneHome(s, m);
        if InChannel(s, m) {
          var h :| 0 <= h < |s.reqs| && s.reqs[h].sent == [m] && s.reqs[h].taken == 0;
          RunNotAbandoned(states, steps, i, h);
        }
      }
    } else {
      var k, h :| 0 <= k < i && Strands(states[k], steps[k], h);
      StrandedIsLost(states, steps, k, i, h);
    }
  }

  lemma StrandedIsLost(states: seq<State>, steps: seq<Step>, k: nat, i: nat, h: Handle)
    requires IsRun(states, steps) && |states[|steps|].reqs| <= ID_SPACE && k < i <= |steps|
             && Strands(states[k], steps[k], h)
    ensures exists m ::
              && 0 <= m < |states[i].arrived| && states[i].closed[m] == 0
              && !InReader(states[i], m) && !InHand(states[i], m) && !InLiveChannel(states[i], m)
  {
    RunKeeps(states, steps, k);
    RunKeeps(states, steps, i);
    assert Follows(states[k], steps[k], states[k + 1]);
    if !Abandoned(states[k], h) {
      AbandonedIff(states[k], steps[k], h);
    } else {
      StaysAbandoned(states[k], steps[k], h);
    }
    RunStaysAbandoned(states, steps, k + 1, i, h);
    AbandonedHasNoHome(states[i], h);
  }

  lemma AbandonedHasNoHome(s: State, h: Handle)
    requires Inv(s) && Abandoned(s, h)
    ensures var m := s.reqs[h].sent[0];
            m < |s.arrived| && s.closed[m] == 0 && !InReader(s, m) && !InHand(s, m) && !InLiveChannel(s, m)
  {
    var m := s.reqs[h].sent[0];
    assert ChannelOk(s, h) && s.reqs[h].sent == [m];
    OneHome(s, m);
    assert InChannel(s, m);
    forall g | 0 <= g < |s.reqs| && s.reqs[g].sent == [m] ensures g == h {
      assert s.reqs[g].sent == s.reqs[h].sent;
    }
  }

  const LONE := Request(1, 0, Waiting, false, [], 0)

  lemma LoneWaiter() returns (s: State)
    ensures Reachable(s) && s == State(1, [LONE], map[1 := 0], [], Idle, multiset{})
  {
    InitialReachable();
    s := Take(INITIAL, Allocate(0));
    assert s == State(1, [LONE.(phase := Fresh)], map[], [], Idle, multiset{});
    s := Take(s, Register(0));
    assert s == State(1, [LONE.(phase := Registered)], map[1 := 0], [], Idle, multiset{});
    s := Take(s, Return(0));
  }

  lemma LoneReply() returns (s: State)
    ensures Reachable(s) && s == State(1, [LONE.(done := true)], map[1 := 0], [Some(1)], Routing(0, 0), multiset{})
  {
    s := LoneWaiter();
    s := Take(s, Read(Some(1), 0));
    assert s == State(1, [LONE], map[1 := 0], [Some(1)], Routing(0, 0), multiset{});
    s := Take(s, Expire(0));
  }

  /** Such a leak is reachable: the select in the read loop may pick the send although the context is done. */
  lemma LeakHappens() returns (s: State)
    ensures Reachable(s) && Abandoned(s, 0)
  {
    s := LoneReply();
    s := Take(s, GiveUp(0));
    assert s == State(1, [LONE.(done := true, phase := Left)], map[1 := 0], [Some(1)], Routing(0, 0), multiset{});
    s := Take(s, Deliver);
  }

  // ---------------------------------------------------------------- the id space is the exact bound

  ghost predicate Reachable(s: State) {
    exists states, steps :: IsRun(states, steps) && states[|steps|] == s
  }

  lemma InitialReachable()
    ensures Reachable(INITIAL)
  {
    assert IsRun([INITIAL], []);
  }

  lemma Take(s: State, step: Step) returns (t: State)
    requires Reachable(s) && Enabled(s, step)
    ensures t == Apply(s, step) && Reachable(t)
  {
    var states, steps :| IsRun(states, steps) && states[|steps|] == s;
    t := Apply(s, step);
    assert IsRun(states + [t], steps + [step]);
    assert (states + [t])[|steps + [step]|] == t;
  }

  /** Allocating more requests leaves the earlier ones and the pending map alone. */
  lemma {:induction false} AllocateMany(s: State, n: nat) returns (t: State)
    requires Reachable(s) && IdsOk(s)
    ensures Reachable(t) && IdsOk(t)
    ensures |t.reqs| == |s.reqs| + n && t.reqs[..|s.reqs|] == s.reqs && t.pending == s.pending
    ensures forall h :: |s.reqs| <= h < |t.reqs| ==> t.reqs[h].phase.Fresh?
  {
    if n == 0 {
      t := s;
    } else {
      var u := AllocateMany(s, n - 1);
      AllocateIds(u, 0);
      t := Take(u, Allocate(0));
      assert t.reqs[..|s.reqs|] == u.reqs[..|s.reqs|];
    }
  }

  /** After n requests have been made on a connection, none can be orphaned. */
  ghost predicate SafeFor(n: nat) {
    forall s, h :: Reachable(s) && |s.reqs| == n && 0 <= h < n ==> NotOrphaned(s, h)
  }

  /** One request more than 2^32 reuses a live id, and the first waiter loses its entry. */
  lemma WrapOrphans(n: nat) returns (s: State)
    requires n > ID_SPACE
    ensures Reachable(s) && |s.reqs| == n && !NotOrphaned(s, 0)
  {
    InitialReachable();
    s := Take(INITIAL, Allocate(0));
    s := Take(s, Register(0));
    s := AllocateMany(s, n - 1);
    assert s.reqs[0] == s.reqs[..1][0];
    assert s.reqs[ID_SPACE].id == (ID_SPACE + 1) % ID_SPACE == 1;
    s := Take(s, Register(ID_SPACE));
  }

  /** The 32-bit id space is exactly the number of requests a connection can serve safely. */
  lemma SafeExactlyWithinIdSpace(n: nat)
    ensures SafeFor(n) <==> n <= 0x1_0000_0000
  {
    if n <= ID_SPACE {
      forall s, h | Reachable(s) && |s.reqs| == n && 0 <= h < n ensures NotOrphaned(s, h) {
        var states, steps :| IsRun(states, steps) && states[|steps|] == s;
        NoWaiterOrphaned(states, steps, |steps|);
      }
    } else {
      var s := WrapOrphans(n);
    }
  }

  // ---------------------------------------------------------------- legacy agents

  /**
  Steps of a connection to an agent that sends no ids and answers in order: creation times grow,
  the k-th reply comes after the k-th request was registered, and nothing is cancelled before its answer.
   */
  predicate LegacyStep(s: State, step: Step) {
    match step
    case Allocate(createdAt) => forall h :: 0 <= h < |s.reqs| ==> s.reqs[h].createdAt < createdAt
    case Read(reply, _) => reply.None? && |s.arrived| < |s.reqs| && !s.reqs[|s.arrived|].phase.Fresh?
    case Expire(h) => h < |s.reqs| ==> s.reqs[h].sent != []
    case SendFailed(_) => false
    case CloseAll => false
    case _ => true
  }

  predicate AllLegacy(states: seq<State>, steps: seq<Step>) {
    |states| > |steps| && forall j {:trigger steps[j]} :: 0 <= j < |steps| ==> LegacyStep(states[j], steps[j])
  }

  /** Number of replies that left the read loop. */
  function Routed(s: State): int {
    |s.arrived| - (if s.reader.Routing? then 1 else 0)
  }

  predicate InOrder(s: State) {
    && (forall g, h :: 0 <= g < h < |s.reqs| ==> s.reqs[g].createdAt < s.reqs[h].createdAt)
    && (forall h :: 0 <= h < |s.reqs| ==> s.reqs[h].sent == (if h < Routed(s) then [h] else []))
    && (forall h :: 0 <= h < |s.reqs| && s.reqs[h].done ==> s.reqs[h].sent != [])
    && Routed(s) <= |s.reqs|
    && (s.reader.Routing? ==> s.reader.target == s.reader.message == Routed(s))
  }

  /** A legacy reply is routed to the request with its own number. */
  lemma OldestIsNext(s: State, oldest: Handle)
    requires Inv(s) && |s.reqs| <= ID_SPACE && InOrder(s)
    requires Enabled(s, Read(None, oldest)) && LegacyStep(s, Read(None, oldest))
    ensures s.pending != map[] && oldest == |s.arrived|
  {
    var k := |s.arrived|;
    assert NotOrphaned(s, k) && s.reqs[k].sent == [];
    assert IsPending(s, k);
    assert IsOldest(s, oldest);
    assert IsPending(s, oldest) && ChannelOk(s, oldest);
  }

  /** Steps that route nothing and cancel nothing unanswered keep the order. */
  lemma OrderFrame(s: State, t: State)
    requires InOrder(s) && |s.reqs| == |t.reqs| && s.arrived == t.arrived
    requires s.reader == t.reader || (!s.reader.Routing? && !t.reader.Routing?)
    requires forall h :: 0 <= h < |s.reqs| ==>
               && t.reqs[h].createdAt == s.reqs[h].createdAt
               && t.reqs[h].sent == s.reqs[h].sent
               && (t.reqs[h].done ==> s.reqs[h].done || s.reqs[h].sent != [])
    ensures InOrder(t)
  {
  }

  lemma WatchInOrder(s: State, h: Handle)
    requires Inv(s) && |s.reqs| <= ID_SPACE && InOrder(s) && Enabled(s, Watch(h))
    ensures InOrder(Apply(s, Watch(h)))
  {
    if s.reqs[h].id in s.pending {
      IdsDistinct(s, h, s.pending[s.reqs[h].id]);
    }
    OrderFrame(s, Apply(s, Watch(h)));
  }

  lemma AllocateInOrder(s: State, createdAt: int)
    requires InOrder(s) && LegacyStep(s, Allocate(createdAt))
    ensures InOrder(Apply(s, Allocate(createdAt)))
  {
  }

  lemma ReadInOrder(s: State, reply: Option<nat>, oldest: Handle)
    requires Inv(s) && |s.reqs| <= ID_SPACE && InOrder(s)
    requires Enabled(s, Read(reply, oldest)) && LegacyStep(s, Read(reply, oldest))
    ensures InOrder(Apply(s, Read(reply, oldest)))
  {
    OldestIsNext(s, oldest);
  }

  lemma DeliverInOrder(s: State)
    requires Inv(s) && InOrder(s) && Enabled(s, Deliver)
    ensures InOrder(Apply(s, Deliver))
  {
    var t := Apply(s, Deliver);
    assert t.reqs[s.reader.target].sent == [s.reader.message];
  }

  lemma FinishInOrder(s: State, h: Handle)
    requires Inv(s) && InOrder(s) && Enabled(s, Finish(h))
    ensures InOrder(Apply(s, Finish(h)))
  {
    assert ChannelOk(s, h);
    OrderFrame(s, Apply(s, Finish(h)));
  }

  lemma FrameInOrder(s: State, step: Step)
    requires Inv(s) && InOrder(s) && Enabled(s, step)
    requires step.Register? || step.Return? || step.Expire? || step.Forget? || step.Receive? || step.GiveUp?
    requires LegacyStep(s, step)
    ensures InOrder(Apply(s, step))
  {
    hide InOrder;
    OrderFrame(s, Apply(s, step));
  }

  lemma LegacyStepKeeps(s: State, step: Step)
    requires Inv(s) && |s.reqs| <= ID_SPACE && InOrder(s)
    requires Enabled(s, step) && LegacyStep(s, step)
    ensures InOrder(Apply(s, step))
  {
    match step
    case Allocate(createdAt) => AllocateInOrder(s, createdAt);
    case Read(reply, oldest) => ReadInOrder(s, reply, oldest);
    case Deliver => DeliverInOrder(s);
    case Watch(h) => WatchInOrder(s, h);
    case Finish(h) => FinishInOrder(s, h);
    case Drop => assert false;
    case _ => FrameInOrder(s, step);
  }

  /** In such runs the k-th reply reaches the k-th request, and every reply that was routed reached a request. */
  lemma {:induction false} LegacyRepliesInOrder(states: seq<State>, steps: seq<Step>, i: nat)
    requires IsRun(states, steps) && |states[|steps|].reqs| <= ID_SPACE && i < |states|
    requires AllLegacy(states, steps)
    ensures InOrder(states[i])
  {
    if i > 0 {
      LegacyRepliesInOrder(states, steps, i - 1);
      RunKeeps(states, steps, i - 1);
      RunGrows(states, steps, i - 1);
      assert Follows(states[i - 1], steps[i - 1], states[i]) && LegacyStep(states[i - 1], steps[i - 1]);
      LegacyStepKeeps(states[i - 1], steps[i - 1]);
    }
  }

  // ---------------------------------------------------------------- one request, issued

  /** SendRequest when nothing runs in between. */
  function Issued(s: State, createdAt: int, sendOk: bool): State {
    var h := |s.reqs|;
    var t := Apply(Apply(s, Allocate(createdAt)), Register(h));
    if sendOk then Apply(t, Return(h)) else Apply(t, SendFailed(h))
  }

  /** A sent request waits under an id of its own; a failed one leaves the pending map as it was. */
  lemma IssuedPending(s: State, createdAt: int, sendOk: bool)
    requires Inv(s) && |s.reqs| < ID_SPACE
    ensures Inv(Issued(s, createdAt, sendOk))
    ensures var t, h := Issued(s, createdAt, sendOk), |s.reqs|;
            && |t.reqs| == h + 1 && t.reqs[..h] == s.reqs
            && (sendOk ==> t.pending == s.pending[t.reqs[h].id := h] && t.reqs[h].phase.Waiting? && !t.reqs[h].done)
            && (!sendOk ==> t.pending == s.pending && t.reqs[h].phase.Left? && t.reqs[h].done)
  {
    var h := |s.reqs|;
    var a := Apply(s, Allocate(createdAt));
    assert Inv(Issued(s, createdAt, sendOk)) by {
      StepKeeps(s, Allocate(createdAt));
      var b := Apply(a, Register(h));
      StepKeeps(a, Register(h));
      StepKeeps(b, if sendOk then Return(h) else SendFailed(h));
    }
    assert a.reqs[h].id !in s.pending by {
      AllocateIds(s, createdAt);
      forall i <- s.pending ensures i != a.reqs[h].id {
        assert a.reqs[s.pending[i]].id == i;
        if i == a.reqs[h].id {
          IdsDistinct(a, h, s.pending[i]);
        }
      }
    }
  }

  // ---------------------------------------------------------------- one reply, start to end

  predicate Declined(s: State, preferDone: bool) {
    s.reader.Routing? && s.reader.target < |s.reqs| && s.reqs[s.reader.target].done && preferDone
  }

  /** Between two messages no pending channel has been used. */
  predicate Ready(s: State) {
    PendingOk(s) && s.reader.Idle? && forall i <- s.pending :: s.reqs[s.pending[i]].sent == []
  }

  lemma InvReady(s: State)
    requires Inv(s) && s.reader.Idle?
    ensures Ready(s)
  {
    forall i <- s.pending ensures s.reqs[s.pending[i]].sent == [] {
      assert ChannelOk(s, s.pending[i]);
    }
  }

  predicate CanSettle(t: State) {
    t.reader.Routing? && t.reader.target < |t.reqs| && t.reqs[t.reader.target].sent == []
  }

  function Settled(t: State, preferDone: bool): State
    requires CanSettle(t)
  {
    if Declined(t, preferDone) then Apply(t, Drop) else Apply(Apply(t, Deliver), Forget)
  }

  /** What the blocks of handleResponse do to one reply when nothing runs in between. */
  function Handled(s: State, reply: Option<nat>, oldest: Handle, preferDone: bool): State
    requires Ready(s) && Enabled(s, Read(reply, oldest))
  {
    var t := Apply(s, Read(reply, oldest));
    if t.reader.Idle? then t else Settled(t, preferDone)
  }

  /**
  The reply went to h, its addressee (the oldest pending request, for a legacy reply), which is no longer pending.
   */
  ghost predicate WentTo(s: State, t: State, reply: Option<nat>, h: Handle) {
    && h < |s.reqs| && h in s.pending.Values
    && (if reply.Some? then s.reqs[h].id == reply.value else IsOldest(s, h))
    && t == s.(arrived := s.arrived + [reply], pending := s.pending - {s.reqs[h].id},
               reqs := s.reqs[h := s.reqs[h].(sent := [|s.arrived|])])
  }

  /** The reply was closed because it has no addressee, or only one whose context is done. */
  predicate WasRefused(s: State, t: State, reply: Option<nat>, oldest: Handle) {
    && t == s.(arrived := s.arrived + [reply], closed := s.closed + multiset{|s.arrived|})
    && (reply.Some? && reply.value in s.pending && s.pending[reply.value] < |s.reqs| ==>
        s.reqs[s.pending[reply.value]].done)
    && (reply.None? && s.pending != map[] && oldest < |s.reqs| ==> s.reqs[oldest].done)
  }

  /** A handled reply enters the channel of exactly one pending request, its addressee, or is closed. */
  lemma HandledOnce(s: State, reply: Option<nat>, oldest: Handle, preferDone: bool)
    requires Inv(s) && |s.reqs| <= ID_SPACE && Enabled(s, Read(reply, oldest))
    ensures Ready(s)
    ensures var t := Handled(s, reply, oldest, preferDone);
            Inv(t) && (WasRefused(s, t, reply, oldest) || exists h :: WentTo(s, t, reply, h))
  {
    InvReady(s);
    ReadKeeps(s, reply, oldest);
    var t := Apply(s, Read(reply, oldest));
    if t.reader.Routing? {
      if Declined(t, preferDone) {
        DropKeeps(t);
      } else {
        RoutedToEnd(t);
        HandledWentTo(s, reply, oldest, preferDone);
      }
    }
  }

  lemma HandledWentTo(s: State, reply: Option<nat>, oldest: Handle, preferDone: bool)
    requires Ready(s) && Enabled(s, Read(reply, oldest))
    requires var t := Apply(s, Read(reply, oldest)); t.reader.Routing? && !Declined(t, preferDone)
    ensures WentTo(s, Handled(s, reply, oldest, preferDone), reply, Apply(s, Read(reply, oldest)).reader.target)
  {
    var t := Apply(s, Read(reply, oldest));
    var h := t.reader.target;
    assert h in s.pending.Values;
    assert s.reqs[h].sent + [|s.arrived|] == [|s.arrived|];
    assert Handled(s, reply, oldest, preferDone).reqs == s.reqs[h := s.reqs[h].(sent := [|s.arrived|])];
  }

  lemma RoutedToEnd(s: State)
    requires Inv(s) && |s.reqs| <= ID_SPACE && s.reader.Routing?
    ensures Enabled(s, Deliver)
    ensures Inv(Apply(Apply(s, Deliver), Forget))
  {
    assert ChannelOk(s, s.reader.target);
    DeliverKeeps(s);
    ForgetKeeps(Apply(s, Deliver));
  }

  // ---------------------------------------------------------------- the manager object

  /** RequestManager, with the request objects and the read loop's position it is shared with. */
  class RequestManager {
    var nextId: nat
    var reqs: seq<Request>
    var pending: map<nat, Handle>
    var arrived: seq<Option<nat>>
    var reader: Reader
    var closed: multiset<Message>

    ghost function View(): (s: State)
      reads this
    {
      State(nextId, reqs, pending, arrived, reader, closed)
    }

    constructor ()
      ensures View() == INITIAL && Inv(View())
    {
      nextId, reqs, pending, arrived, reader, closed := 0, [], map[], [], Idle, multiset{};
    }

    method CancelRequest(id: nat)
      requires PendingOk(View())
      modifies this
      ensures View() == Cancel(old(View()), id)
    {
      if id in pending {
        var h := pending[id];
        reqs := reqs[h := reqs[h].(done := true)];
        pending := pending - {id};
      }
    }

    method DeleteRequest(id: nat)
      modifies this
      ensures View() == old(View()).(pending := old(pending) - {id})
    {
      pending := pending - {id};
    }

    /** SendRequest run by one goroutine; `sendOk` is the outcome of writing to the socket. */
    method SendRequest(createdAt: int, sendOk: bool) returns (h: Handle)
      requires PendingOk(View())
      modifies this
      ensures h == |old(reqs)|
      ensures View() == Issued(old(View()), createdAt, sendOk)
    {
      nextId := (nextId + 1) % ID_SPACE;
      h := |reqs|;
      reqs := reqs + [Request(nextId, createdAt, Fresh, false, [], 0)];
      pending := pending[nextId := h];
      reqs := reqs[h := reqs[h].(phase := Registered)];
      if sendOk {
        reqs := reqs[h := reqs[h].(phase := Waiting)];
      } else {
        reqs := reqs[h := reqs[h].(phase := Left)];
        CancelRequest(reqs[h].id);
      }
    }

    /** The scan of routeLegacyResponse, in whatever order the map yields its entries. */
    method FindOldest() returns (oldest: Option<Handle>)
      requires PendingOk(View())
      ensures oldest.None? <==> pending == map[]
      ensures oldest.Some? ==> IsOldest(View(), oldest.value)
    {
      oldest := None;
      var rest := pending.Keys;
      while rest != {}
        invariant rest <= pending.Keys
        invariant oldest.None? <==> rest == pending.Keys
        invariant oldest.Some? ==> oldest.value in pending.Values
        invariant oldest.Some? ==> forall i <- pending.Keys - rest ::
                  reqs[oldest.value].createdAt <= reqs[pending[i]].createdAt
        decreases rest
      {
        var i :| i in rest;
        var h := pending[i];
        if oldest.None? || reqs[h].createdAt < reqs[oldest.value].createdAt {
          oldest := Some(h);
        }
        rest := rest - {i};
      }
    }

    /** The lookup block of handleResponse or routeLegacyResponse. */
    method Route(reply: Option<nat>) returns (ghost oldest: Handle)
      requires PendingOk(View()) && reader.Idle?
      modifies this
      ensures Enabled(old(View()), Read(reply, oldest))
      ensures View() == Apply(old(View()), Read(reply, oldest))
    {
      var m := |arrived|;
      var target: Option<Handle>;
      if reply.None? {
        target := FindOldest();
      } else {
        target := if reply.value in pending then Some(pending[reply.value]) else None;
      }
      oldest := if target.Some? then target.value else 0;
      arrived := arrived + [reply];
      if target.None? {
        closed := closed + multiset{m};
      } else {
        reader := Routing(m, target.value);
      }
    }

    /** The select; `preferDone` decides when both of its arms are ready. */
    method Offer(preferDone: bool)
      requires reader.Routing? && reader.target < |reqs| && reqs[reader.target].sent == []
      modifies this
      ensures View() == if Declined(old(View()), preferDone) then Apply(old(View()), Drop)
              else Apply(old(View()), Deliver)
    {
      var m, h := reader.message, reader.target;
      if reqs[h].done && preferDone {
        closed := closed + multiset{m};
        reader := Idle;
      } else {
        reqs := reqs[h := reqs[h].(sent := reqs[h].sent + [m])];
        reader := Delivered(h);
      }
    }

    /** The select and, after a delivery, the removal of the entry. */
    method Settle(preferDone: bool)
      requires CanSettle(View())
      modifies this
      ensures View() == Settled(old(View()), preferDone)
    {
      Offer(preferDone);
      if reader.Delivered? {
        DeleteRequest(reqs[reader.target].id);
        reader := Idle;
      }
    }

    /** handleResponse for one message, undisturbed by other goroutines. */
    method HandleResponse(reply: Option<nat>, preferDone: bool) returns (ghost oldest: Handle)
      requires Ready(View())
      modifies this
      ensures Enabled(old(View()), Read(reply, oldest))
      ensures View() == Handled(old(View()), reply, oldest, preferDone)
    {
      oldest := Route(reply);
      if reader.Routing? {
        Settle(preferDone);
      }
    }

    /** Close: cancel every pending context, then forget them all. */
    method Close()
      requires PendingOk(View())
      modifies this
      ensures View() == Apply(old(View()), CloseAll)
    {
      reqs := CancelContexts(reqs, pending);
      pending := map[];
    }
  }

  /** The loop of Close: exactly the pending requests have their context cancelled. */
  method CancelContexts(reqs: seq<Request>, pending: map<nat, Handle>) returns (r: seq<Request>)
    requires forall i <- pending :: pending[i] < |reqs|
    ensures |r| == |reqs|
    ensures forall h :: 0 <= h < |r| ==> r[h] == if h in pending.Values then reqs[h].(done := true) else reqs[h]
  {
    r := reqs;
    var rest := pending.Keys;
    ghost var hit: set<Handle> := {};
    while rest != {}
      invariant rest <= pending.Keys && hit <= pending.Values && |r| == |reqs|
      invariant forall i <- pending :: i in rest || pending[i] in hit
      invariant forall h :: 0 <= h < |r| ==> r[h] == if h in hit then reqs[h].(done := true) else reqs[h]
      decreases rest
    {
      var i :| i in rest;
      r := r[pending[i] := r[pending[i]].(done := true)];
      rest, hit := rest - {i}, hit + {pending[i]};
    }
    assert hit == pending.Values;
  }
}
