/**
What becomes of a GPU that is entered again (agent/gpu.go, getJetsonParser): its totals start from zero while the
snapshots of the old totals stay. Unless those hold nothing, some continuation reports what no queue of samples would.
 */
module GpuReentry {
  import opened Arith
  import opened Basics
  import opened Rounding
  import opened Series
  import opened GpuSnapshots

  // ---------------------------------------------------------------- one sample many times

  function Feeding(id: Id, x: Sample, n: nat, key: Key): seq<Op> {
    seq(n, _ => Sample(id, x)) + [Read(key)]
  }

  function Fed(s: State, id: Id, x: Sample, n: nat): State
    decreases n
  {
    if n == 0 then s else Fed(Changed(s, Sample(id, x)), id, x, n - 1)
  }

  function QueuesFed(q: Queues, id: Id, x: Sample, n: nat): Queues
    decreases n
  {
    if n == 0 then q else QueuesFed(QueueChanged(q, Sample(id, x)), id, x, n - 1)
  }

  lemma FeedingRest(id: Id, x: Sample, n: nat, key: Key)
    requires n > 0
    ensures Feeding(id, x, n, key)[0] == Sample(id, x) && Feeding(id, x, n, key)[1..] == Feeding(id, x, n - 1, key)
  {
  }

  lemma {:induction false} FeedingReports(s: State, q: Queues, id: Id, x: Sample, n: nat, key: Key)
    ensures Reports(s, Feeding(id, x, n, key), id) == [Report(Fed(s, id, x, n), key, id)]
    ensures QueueReports(q, Feeding(id, x, n, key), id) == [QueueReport(QueuesFed(q, id, x, n), key, id)]
    ensures Regular(s, q, Feeding(id, x, n, key), id) <==> FewUnread(QueuesFed(q, id, x, n), key, id)
    decreases n
  {
    hide Report, QueueReport, Changed, QueueChanged, AfterRead, AfterQueueRead, FewUnread;
    if n > 0 {
      FeedingRest(id, x, n, key);
      FeedingReports(Changed(s, Sample(id, x)), QueueChanged(q, Sample(id, x)), id, x, n - 1, key);
    } else {
      assert Feeding(id, x, 0, key)[1..] == [];
    }
  }

  /** A sample of usage one, and nothing else. */
  const ONE: Sample := Basic(1.0, 0.0, None, None, None)

  lemma {:induction false} FedGpu(s: State, id: Id, n: nat)
    requires id in s.gpus
    ensures var t := Fed(s, id, ONE, n);
            && id in t.gpus && t.snapshots == s.snapshots
            && t.gpus[id].count == s.gpus[id].count + n
            && t.gpus[id].temp == s.gpus[id].temp && t.gpus[id].memUsed == s.gpus[id].memUsed
    decreases n
  {
    if n > 0 {
      FedGpu(Changed(s, Sample(id, ONE)), id, n - 1);
    }
  }

  function Ones(n: nat): seq<Sample> {
    seq(n, _ => ONE)
  }

  lemma {:induction false} FedQueue(q: Queues, id: Id, n: nat, key: Key)
    requires id in q.sources
    ensures var r := QueuesFed(q, id, ONE, n);
            && id in r.sources && r.sources[id].intel == q.sources[id].intel
            && r.sources[id].all == q.sources[id].all + Ones(n)
            && Unread(r, key, id) == Unread(q, key, id) + Ones(n)
    decreases n
  {
    hide QueueChanged, Unread;
    var op := Sample(id, ONE);
    if n > 0 {
      UnreadNext(q, op, key);
      SourceNext(q, op);
      FedQueue(QueueChanged(q, op), id, n - 1, key);
      assert [ONE] + Ones(n - 1) == Ones(n);
      Assoc(q.sources[id].all, [ONE], Ones(n - 1));
      Assoc(Unread(q, key, id), [ONE], Ones(n - 1));
    }
  }

  lemma SourceNext(q: Queues, op: Op)
    requires op.Sample? && op.id in q.sources
    ensures var r := QueueChanged(q, op);
            op.id in r.sources && r.sources[op.id].intel == q.sources[op.id].intel
            && r.sources[op.id].all == q.sources[op.id].all + [op.x]
  {
  }

  lemma {:induction false} OnesSum(n: nat)
    ensures Sum(Ones(n), Usage) == n as real && !AnyIntel(Ones(n))
  {
    if n > 0 {
      OnesSum(n - 1);
      assert Ones(n)[..n - 1] == Ones(n - 1);
    }
  }

  // ---------------------------------------------------------------- what is reported

  lemma ReportUsage(s: State, key: Key, id: Id)
    requires id in s.gpus
    ensures var r, b := ReadingOf(s, key, id), Body(s, key, id);
            r.usage == b.usage && r.power == b.power && r.powerPkg == b.powerPkg && r.engines == b.engines
  {
    hide Body, Shared;
  }

  lemma QueueReportUsage(q: Queues, key: Key, id: Id)
    requires id in q.sources && Unread(q, key, id) != []
    ensures var r, b := QueueReading(q, key, id), QueueAverage(q.sources[id], Unread(q, key, id));
            r.usage == b.usage && r.power == b.power && r.powerPkg == b.powerPkg && r.engines == b.engines
  {
    hide QueueAverage, Shared, LastTemp, LastUsed, LastTotal, Unread;
  }

  predicate IsEntered(s: State, id: Id, name: string) {
    id in s.gpus && s.gpus[id] == NewGpu(name, false)
  }

  predicate IsEmptied(q: Queues, id: Id, key: Key) {
    id in q.sources && !q.sources[id].intel && q.sources[id].all == [] && Unread(q, key, id) == []
  }

  lemma LooksLikeNone(g: Gpu, last: Snapshot)
    requires g.count == last.count % WRAP
    ensures DeltaCount(g, last) == 0
  {
    UniqueMod(g.count - last.count, -(last.count / WRAP), 0, WRAP);
  }

  /** As many samples as the snapshot counts look like none: nothing is reported where the mean is one. */
  lemma CountMisleads(s: State, q: Queues, id: Id, name: string, key: Key, n: nat)
    requires IsEntered(s, id, name) && IsEmptied(q, id, key)
    requires n == LastSnapshot(s, key, id).count % WRAP && n > 0
    ensures Report(Fed(s, id, ONE, n), key, id) != QueueReport(QueuesFed(q, id, ONE, n), key, id)
    ensures FewUnread(QueuesFed(q, id, ONE, n), key, id)
  {
    hide Unread, QueueAverage, ReadingOf, QueueReading, DeltaCount, Fed, QueuesFed;
    var t, r := Fed(s, id, ONE, n), QueuesFed(q, id, ONE, n);
    FedGpu(s, id, n);
    FedQueue(q, id, n, key);
    assert [] + Ones(n) == Ones(n);
    assert LastSnapshot(t, key, id) == LastSnapshot(s, key, id);
    LooksLikeNone(t.gpus[id], LastSnapshot(s, key, id));
    ReportUsage(t, key, id);
    QueueReportUsage(r, key, id);
    OnesAverage(r.sources[id], n);
  }

  lemma OnesAverage(src: Source, n: nat)
    requires n > 0 && src.all == Ones(n) && !src.intel
    ensures QueueAverage(src, Ones(n)).usage == 1.0
  {
    OnesSum(n);
    assert n as real / n as real == 1.0;
  }

  // ---------------------------------------------------------------- one sample on the edge

  /** The value of least size that rounds to a hundredth, with the sign of d. */
  function Edge(d: real): real {
    if d > 0.0 then 0.005 else -0.005
  }

  lemma EdgeDiffers(d: real)
    requires d != 0.0
    ensures TwoDecimals(Edge(d) - d) != TwoDecimals(Edge(d))
  {
    var y := (Edge(d) - d) * 100.0;
    if d > 0.0 {
      assert y < 0.5;
      assert Round(y) <= 0.0;
    } else {
      assert y > -0.5;
      assert Round(y) >= 0.0;
    }
  }

  ghost function HeldEngine(last: Snapshot): (k: string)
    requires exists k: string :: Get(EnginesOf(last.engines), k) != 0.0
    ensures Get(EnginesOf(last.engines), k) != 0.0
  {
    var k: string :| Get(EnginesOf(last.engines), k) != 0.0;
    k
  }

  /** The sample that shows what the snapshot holds although it counts nothing. */
  ghost function Revealing(last: Snapshot): Sample
    requires !IsZero(last) && last.count % WRAP == 0
  {
    if last.power != 0.0 then Basic(0.0, Edge(last.power), None, None, None)
    else if last.usage != 0.0 then Basic(Edge(last.usage), 0.0, None, None, None)
    else if last.powerPkg != 0.0 then Intel(0.0, Edge(last.powerPkg), map[])
    else
      Intel(0.0, 0.0, map[HeldEngine(last) := Edge(Get(EnginesOf(last.engines), HeldEngine(last)))])
  }

  lemma SingleSum(x: Sample, f: Field)
    ensures Sum([x], f) == Value(x, f) && Mean([x], f) == Value(x, f)
  {
    assert [x][..0] == [];
  }

  lemma SingleEngines(x: Sample)
    ensures AnyIntel([x]) <==> x.Intel?
    ensures EngineNames([x]) == if x.Intel? then x.engineUse.Keys else {}
  {
    assert [x][..0] == [];
  }

  lemma RevealingDiffers(name: string, last: Snapshot, src: Source)
    requires !IsZero(last) && last.count % WRAP == 0
    requires !src.intel && src.all == [Revealing(last)]
    ensures var g := Accumulated(NewGpu(name, false), Revealing(last));
            && DeltaCount(g, last) == 1
            && var a, b := Average(g, last), QueueAverage(src, [Revealing(last)]);
               a.usage != b.usage || a.power != b.power || a.powerPkg != b.powerPkg || a.engines != b.engines
  {
    hide TwoDecimals;
    var x := Revealing(last);
    var g := Accumulated(NewGpu(name, false), x);
    assert DeltaCount(g, last) == 1 by {
      UniqueMod(1 - last.count, -(last.count / WRAP), 1, WRAP);
    }
    SingleSum(x, Power);
    SingleSum(x, Usage);
    SingleSum(x, PowerPkg);
    SingleEngines(x);
    if last.power != 0.0 {
      EdgeDiffers(last.power);
    } else if last.usage != 0.0 {
      EdgeDiffers(last.usage);
    } else if last.powerPkg != 0.0 {
      EdgeDiffers(last.powerPkg);
    } else {
      EngineDiffers(g, last, src, x, HeldEngine(last));
    }
  }

  lemma EngineDiffers(g: Gpu, last: Snapshot, src: Source, x: Sample, k: string)
    requires x.Intel? && src.all == [x] && DeltaCount(g, last) == 1
    requires Get(EnginesOf(last.engines), k) != 0.0 && x.engineUse == map[k := Edge(Get(EnginesOf(last.engines), k))]
    requires g.engines.Some? && k in g.engines.value && g.engines.value[k] == x.engineUse[k]
    ensures Average(g, last).engines != QueueAverage(src, [x]).engines
  {
    hide TwoDecimals;
    SingleSum(x, Engine(k));
    SingleEngines(x);
    EdgeDiffers(Get(EnginesOf(last.engines), k));
    var a, b := Average(g, last).engines.value, QueueAverage(src, [x]).engines.value;
    assert a[k] != b[k];
  }

  lemma SampleMisleads(s: State, q: Queues, id: Id, name: string, key: Key)
    requires IsEntered(s, id, name) && IsEmptied(q, id, key)
    requires !IsZero(LastSnapshot(s, key, id)) && LastSnapshot(s, key, id).count % WRAP == 0
    ensures var x := Revealing(LastSnapshot(s, key, id));
            && Report(Fed(s, id, x, 1), key, id) != QueueReport(QueuesFed(q, id, x, 1), key, id)
            && FewUnread(QueuesFed(q, id, x, 1), key, id)
  {
    hide Average, QueueAverage, ReadingOf, QueueReading, IsZero, Unread, Accumulated, NewGpu, DeltaCount;
    var last := LastSnapshot(s, key, id);
    var x := Revealing(last);
    var t, r := Changed(s, Sample(id, x)), QueueChanged(q, Sample(id, x));
    assert t == Fed(s, id, x, 1) && r == QueuesFed(q, id, x, 1);
    UnreadNext(q, Sample(id, x), key);
    assert [] + [x] == [x];
    SourceNext(q, Sample(id, x));
    assert LastSnapshot(t, key, id) == last;
    RevealingDiffers(name, last, r.sources[id]);
    ReportUsage(t, key, id);
    QueueReportUsage(r, key, id);
  }

  // ---------------------------------------------------------------- exactness

  /** Every continuation reports what the queues would. */
  ghost predicate StaysTrue(s: State, q: Queues, id: Id) {
    forall ops :: Regular(s, q, ops, id) ==> Reports(s, ops, id) == QueueReports(q, ops, id)
  }

  /**
  Exact: after a GPU is entered, every continuation reports what the queues would, if and only if no snapshot of it
  holds anything.
   */
  lemma EnterTrueIff(s: State, q: Queues, id: Id, name: string)
    requires Rel(s, q, id)
    ensures StaysTrue(Next(s, Enter(id, name)), QueueNext(q, Enter(id, name)), id) <==> Harmless(s, id)
  {
    hide Rel, IsZero, Fed, QueuesFed, FewUnread, Report, QueueReport;
    var t, r := Next(s, Enter(id, name)), QueueNext(q, Enter(id, name));
    if Harmless(s, id) {
      EnterRefinesIff(s, q, id, name);
      forall ops | Regular(t, r, ops, id) ensures Reports(t, ops, id) == QueueReports(r, ops, id) {
        RunRefines(t, r, ops, id);
      }
    } else {
      var key :| !IsZero(LastSnapshot(s, key, id));
      var last := LastSnapshot(s, key, id);
      assert LastSnapshot(t, key, id) == last;
      assert IsEntered(t, id, name) && IsEmptied(r, id, key);
      var c := last.count % WRAP;
      var x, n := if c == 0 then Revealing(last) else ONE, if c == 0 then 1 else c;
      if c == 0 {
        SampleMisleads(t, r, id, name, key);
      } else {
        CountMisleads(t, r, id, name, key, n);
      }
      FeedingReports(t, r, id, x, n, key);
      assert Regular(t, r, Feeding(id, x, n, key), id);
    }
  }

  ghost function After(s: State, ops: seq<Op>): State
    decreases |ops|
  {
    if ops == [] then s else After(Next(s, ops[0]), ops[1..])
  }

  ghost function QueuesAfter(q: Queues, ops: seq<Op>): Queues
    decreases |ops|
  {
    if ops == [] then q else QueuesAfter(QueueNext(q, ops[0]), ops[1..])
  }

  lemma {:induction false} RunKeepsRel(s: State, q: Queues, ops: seq<Op>, id: Id)
    requires Rel(s, q, id) && Regular(s, q, ops, id)
    ensures Rel(After(s, ops), QueuesAfter(q, ops), id)
    decreases |ops|
  {
    hide Rel, Next, QueueNext, IsRegular;
    if ops != [] {
      StepRefines(s, q, ops[0], id);
      RunKeepsRel(Next(s, ops[0]), QueueNext(q, ops[0]), ops[1..], id);
    }
  }

  lemma NothingRel(id: Id)
    ensures Rel(EMPTY, NO_QUEUES, id)
  {
  }

  /** So after every regular run an entry opens the way to a wrong report exactly when it is not regular itself. */
  lemma RunEnterTrueIff(ops: seq<Op>, id: Id, name: string)
    requires Regular(EMPTY, NO_QUEUES, ops, id)
    ensures var s, q := After(EMPTY, ops), QueuesAfter(NO_QUEUES, ops);
            && StaysTrue(s, q, id)
            && (StaysTrue(Next(s, Enter(id, name)), QueueNext(q, Enter(id, name)), id) <==> Harmless(s, id))
  {
    hide Next, QueueNext, Harmless;
    var s, q := After(EMPTY, ops), QueuesAfter(NO_QUEUES, ops);
    NothingRel(id);
    RunKeepsRel(EMPTY, NO_QUEUES, ops, id);
    forall more | Regular(s, q, more, id) ensures Reports(s, more, id) == QueueReports(q, more, id) {
      RunRefines(s, q, more, id);
    }
    EnterTrueIff(s, q, id, name);
  }

  lemma SnapshotAfterRead(s: State, key: Key, id: Id)
    requires id in s.gpus
    ensures AfterRead(s, key).gpus == s.gpus && LastSnapshot(AfterRead(s, key), key, id) == SnapshotOf(s.gpus[id])
  {
    hide NewAverages, SnapshotOf;
  }

  lemma AfterFive(s: State, a: Op, b: Op, c: Op, d: Op, e: Op)
    ensures After(s, [a, b, c, d, e]) == Next(Next(Next(Next(Next(s, a), b), c), d), e)
  {
    hide Next;
    var s1, s2, s3 := Next(s, a), Next(Next(s, a), b), Next(Next(Next(s, a), b), c);
    assert [a, b, c, d, e][1..] == [b, c, d, e] && [b, c, d, e][1..] == [c, d, e] && [c, d, e][1..] == [d, e];
    assert [d, e][1..] == [e] && [e][1..] == [];
    assert After(Next(Next(s3, d), e), []) == Next(Next(s3, d), e);
    assert After(Next(s3, d), [e]) == Next(Next(s3, d), e);
    assert After(s3, [d, e]) == After(Next(s3, d), [e]);
    assert After(s2, [c, d, e]) == After(s3, [d, e]);
    assert After(s1, [b, c, d, e]) == After(s2, [c, d, e]);
  }

  /** A GPU entered again after a read: the next sample looks like none at all. */
  lemma EnteredHidesSample(id: Id, name: string, x: Sample, y: Sample, key: Key)
    ensures var ops := [Register(id, name, false), Sample(id, x), Read(key), Enter(id, name), Sample(id, y)];
            var s := After(EMPTY, ops);
            !Renews(s, key, id) && id in s.gpus && s.gpus[id].count == 1
  {
    hide AfterRead;
    var s1 := Next(EMPTY, Register(id, name, false));
    var s2 := Next(s1, Sample(id, x));
    var s3 := Next(s2, Read(key));
    SnapshotAfterRead(s2, key, id);
    var s4 := Next(s3, Enter(id, name));
    var s5 := Next(s4, Sample(id, y));
    assert s5.gpus[id].count == 1 && s5.snapshots == s3.snapshots;
    AfterFive(EMPTY, Register(id, name, false), Sample(id, x), Read(key), Enter(id, name), Sample(id, y));
  }
}
