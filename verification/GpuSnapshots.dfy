/**
GPU collection (agent/gpu.go and the vendors' files beside it): one set of running totals per GPU, and per cache key a
snapshot of the totals at its last read. The reference is one queue of unread samples per cache key and GPU; reads of
the totals are proved to give what emptying the queues gives. Values are reals.
 */
module GpuSnapshots {
  import opened Arith
  import opened Basics
  import opened Rounding
  import opened Series

  type Id = string
  type Key = nat

  const WRAP: nat := 0x1_0000_0000

  /** One parsed line of a vendor tool. A parser may miss any field; a missed usage or power adds nothing. */
  datatype Sample =
    | Basic(usage: real, power: real, temp: Option<real>, memUsed: Option<real>, memTotal: Option<real>)
    | Intel(gpuPower: real, pkgPower: real, engineUse: Series)

  /** system.GPUData as an accumulator. */
  datatype Gpu = Gpu(
    name: string, temp: real, memUsed: real, memTotal: real,
    usage: real, power: real, powerPkg: real, count: nat, engines: Option<Series>)

  datatype Snapshot = Snapshot(count: nat, usage: real, power: real, powerPkg: real, engines: Option<Series>)

  /** system.GPUData as reported: everything but the sample count. */
  datatype Reading = Reading(
    name: string, temp: real, memUsed: real, memTotal: real,
    usage: real, power: real, powerPkg: real, engines: Option<Series>)

  datatype State = State(gpus: map<Id, Gpu>, lastAvg: map<Id, Reading>, snapshots: map<Key, map<Id, Snapshot>>)

  const EMPTY := State(map[], map[], map[])
  const NOTHING := Snapshot(0, 0.0, 0.0, 0.0, None)

  function EnginesOf(e: Option<Series>): Series {
    if e.Some? then e.value else map[]
  }

  // ---------------------------------------------------------------- the running totals

  function Lookup<K, V>(m: map<K, V>, k: K): Option<V> {
    if k in m then Some(m[k]) else None
  }

  function OrElse(x: Option<real>, y: real): real {
    if x.Some? then x.value else y
  }

  /** What the parsers do with a sample of a known GPU. */
  function Accumulated(g: Gpu, x: Sample): Gpu {
    match x
    case Basic(usage, power, temp, memUsed, memTotal) =>
      g.(usage := g.usage + usage, power := g.power + power, count := g.count + 1,
         temp := OrElse(temp, g.temp), memUsed := OrElse(memUsed, g.memUsed), memTotal := OrElse(memTotal, g.memTotal))
    case Intel(power, powerPkg, engines) =>
      g.(power := g.power + power, powerPkg := g.powerPkg + powerPkg, count := g.count + 1,
         engines := Some(Added(EnginesOf(g.engines), engines)))
  }

  function NewGpu(name: string, intel: bool): Gpu {
    Gpu(name, 0.0, 0.0, 0.0, 0.0, 0.0, 0.0, 0, if intel then Some(map[]) else None)
  }

  /**
  What the parsers do with a GPU, and reads. The Jetson parser enters its GPU in the place of one that is there already;
  the others register one they have not seen. nvtop renames a GPU, and NVML suspends one, without a sample.
   */
  datatype Op =
    | Enter(id: Id, name: string)
    | Register(id: Id, name: string, intel: bool)
    | Rename(id: Id, name: string)
    | Suspend(id: Id)
    | Sample(id: Id, x: Sample)
    | Read(key: Key)

  function KnownNext(g: Gpu, op: Op): Gpu {
    match op
    case Rename(_, name) => g.(name := name)
    case Suspend(_) => g.(temp := 0.0, memUsed := 0.0)
    case Sample(_, x) => Accumulated(g, x)
    case _ => g
  }

  /** What becomes of the GPU that an operation is about. */
  function NextGpu(g: Option<Gpu>, op: Op): Option<Gpu>
    requires !op.Read?
  {
    match op
    case Enter(_, name) => Some(NewGpu(name, false))
    case Register(_, name, intel) => if g.Some? then g else Some(NewGpu(name, intel))
    case _ => if g.Some? then Some(KnownNext(g.value, op)) else None
  }

  function Changed(s: State, op: Op): State
    requires !op.Read?
  {
    var g := NextGpu(Lookup(s.gpus, op.id), op);
    if g.Some? then s.(gpus := s.gpus[op.id := g.value]) else s
  }

  function LastSnapshot(s: State, key: Key, id: Id): Snapshot {
    if key in s.snapshots && id in s.snapshots[key] then s.snapshots[key][id] else NOTHING
  }

  /** calculateDeltaCount: a difference of 32-bit counters. */
  function DeltaCount(g: Gpu, last: Snapshot): nat {
    (g.count % WRAP - last.count) % WRAP
  }

  function EngineMeans(g: Gpu, last: Snapshot, n: nat): Series
    requires n > 0
  {
    map k | k in EnginesOf(g.engines) :: (EnginesOf(g.engines)[k] - Get(EnginesOf(last.engines), k)) / n as real
  }

  function Rounded(ms: Series): Series {
    map k | k in ms :: TwoDecimals(ms[k])
  }

  /** calculateGPUAverage when new samples arrived. */
  ghost function Average(g: Gpu, last: Snapshot): Reading
    requires DeltaCount(g, last) > 0
  {
    var n := DeltaCount(g, last);
    var power := TwoDecimals((g.power - last.power) / n as real);
    if g.engines.Some? then
      var means := EngineMeans(g, last, n);
      Reading(g.name, g.temp, g.memUsed, g.memTotal, TwoDecimals(Largest(means, 0.0)), power,
              TwoDecimals((g.powerPkg - last.powerPkg) / n as real), Some(Rounded(means)))
    else
      Reading(g.name, g.temp, g.memUsed, g.memTotal, TwoDecimals((g.usage - last.usage) / n as real), power,
              g.powerPkg, None)
  }

  function Zero(name: string): Reading {
    Reading(name, 0.0, 0.0, 0.0, 0.0, 0.0, 0.0, None)
  }

  /** calculateGPUAverage when none did: zero for a suspended GPU, otherwise the last average any key computed. */
  function Stale(g: Gpu, lastAvg: Option<Reading>): Reading {
    if g.temp == 0.0 && g.memUsed == 0.0 then Zero(g.name)
    else if lastAvg.Some? then lastAvg.value else Zero("")
  }

  function Instant(r: Reading, g: Gpu): Reading {
    r.(temp := TwoDecimals(g.temp), memUsed := TwoDecimals(g.memUsed), memTotal := TwoDecimals(g.memTotal))
  }

  function SnapshotOf(g: Gpu): Snapshot {
    Snapshot(g.count % WRAP, g.usage, g.power, g.powerPkg, g.engines)
  }

  predicate Shared(names: map<Id, string>, id: Id)
    requires id in names
  {
    exists other <- names :: other != id && names[other] == names[id]
  }

  function Named(r: Reading, names: map<Id, string>, id: Id): Reading
    requires id in names
  {
    if Shared(names, id) then r.(name := names[id] + " " + id) else r
  }

  function Names(gpus: map<Id, Gpu>): map<Id, string> {
    map id | id in gpus :: gpus[id].name
  }

  /** What one GPU reads as before the instantaneous values and the name are filled in. */
  ghost function Body(s: State, key: Key, id: Id): Reading
    requires id in s.gpus
  {
    var g, last := s.gpus[id], LastSnapshot(s, key, id);
    if DeltaCount(g, last) == 0 then Stale(g, Lookup(s.lastAvg, id)) else Average(g, last)
  }

  ghost function ReadingOf(s: State, key: Key, id: Id): Reading
    requires id in s.gpus
  {
    Named(Instant(Body(s, key, id), s.gpus[id]), Names(s.gpus), id)
  }

  ghost predicate Renews(s: State, key: Key, id: Id) {
    id in s.gpus && DeltaCount(s.gpus[id], LastSnapshot(s, key, id)) > 0
  }

  ghost function ReadingsOf(s: State, key: Key, ids: set<Id>): map<Id, Reading>
    requires ids <= s.gpus.Keys
  {
    map id | id in ids :: ReadingOf(s, key, id)
  }

  function SnapshotsOf(s: State, ids: set<Id>): map<Id, Snapshot>
    requires ids <= s.gpus.Keys
  {
    map id | id in ids :: SnapshotOf(s.gpus[id])
  }

  /** GetCurrentData: the readings and the state it leaves. */
  ghost function Readings(s: State, key: Key): map<Id, Reading> {
    ReadingsOf(s, key, s.gpus.Keys)
  }

  /** The averages that replace the last known ones, for some of the GPUs. */
  ghost function AveragesOf(s: State, key: Key, ids: set<Id>): map<Id, Reading>
    requires ids <= s.gpus.Keys
  {
    map id | id in ids && Renews(s, key, id) :: Average(s.gpus[id], LastSnapshot(s, key, id))
  }

  ghost function NewAverages(s: State, key: Key): map<Id, Reading> {
    AveragesOf(s, key, s.gpus.Keys)
  }

  ghost function AfterRead(s: State, key: Key): State {
    var before := if key in s.snapshots then s.snapshots[key] else map[];
    s.(lastAvg := s.lastAvg + NewAverages(s, key),
       snapshots := s.snapshots[key := before + SnapshotsOf(s, s.gpus.Keys)])
  }

  // ---------------------------------------------------------------- the reference: queues of unread samples

  /** The samples of a GPU since it was entered, and those of them since it was last suspended. */
  datatype Source = Source(name: string, intel: bool, all: seq<Sample>, awake: seq<Sample>)

  datatype Queues = Queues(sources: map<Id, Source>, lastAvg: map<Id, Reading>, unread: map<Key, map<Id, seq<Sample>>>)

  const NO_QUEUES := Queues(map[], map[], map[])

  datatype Field = Usage | Power | PowerPkg | Engine(name: string)

  function Value(x: Sample, f: Field): real {
    match (x, f)
    case (Basic(usage, _, _, _, _), Usage) => usage
    case (Basic(_, power, _, _, _), Power) => power
    case (Intel(power, _, _), Power) => power
    case (Intel(_, powerPkg, _), PowerPkg) => powerPkg
    case (Intel(_, _, engines), Engine(k)) => Get(engines, k)
    case _ => 0.0
  }

  function Sum(xs: seq<Sample>, f: Field): real {
    if xs == [] then 0.0 else Sum(xs[..|xs| - 1], f) + Value(xs[|xs| - 1], f)
  }

  function Mean(xs: seq<Sample>, f: Field): real
    requires xs != []
  {
    Sum(xs, f) / |xs| as real
  }

  /** The value a field last had: temperature and memory are not averaged. */
  function LastTemp(xs: seq<Sample>): real {
    if xs == [] then 0.0
    else var x := xs[|xs| - 1]; if x.Basic? && x.temp.Some? then x.temp.value else LastTemp(xs[..|xs| - 1])
  }

  function LastUsed(xs: seq<Sample>): real {
    if xs == [] then 0.0
    else var x := xs[|xs| - 1]; if x.Basic? && x.memUsed.Some? then x.memUsed.value else LastUsed(xs[..|xs| - 1])
  }

  function LastTotal(xs: seq<Sample>): real {
    if xs == [] then 0.0
    else var x := xs[|xs| - 1]; if x.Basic? && x.memTotal.Some? then x.memTotal.value else LastTotal(xs[..|xs| - 1])
  }

  /** The engines ever reported. */
  function EngineNames(xs: seq<Sample>): set<string> {
    if xs == [] then {}
    else EngineNames(xs[..|xs| - 1]) + (if xs[|xs| - 1].Intel? then xs[|xs| - 1].engineUse.Keys else {})
  }

  predicate AnyIntel(xs: seq<Sample>) {
    xs != [] && (xs[|xs| - 1].Intel? || AnyIntel(xs[..|xs| - 1]))
  }

  predicate HasEngines(src: Source) {
    src.intel || AnyIntel(src.all)
  }

  function Unread(q: Queues, key: Key, id: Id): seq<Sample>
    requires id in q.sources
  {
    if key in q.unread && id in q.unread[key] then q.unread[key][id] else q.sources[id].all
  }

  ghost function QueueMeans(src: Source, xs: seq<Sample>): Series
    requires xs != []
  {
    map k | k in EngineNames(src.all) :: Mean(xs, Engine(k))
  }

  ghost function QueueAverage(src: Source, xs: seq<Sample>): Reading
    requires xs != []
  {
    var means := QueueMeans(src, xs);
    Reading(src.name, LastTemp(src.awake), LastUsed(src.awake), LastTotal(src.all),
            TwoDecimals(if HasEngines(src) then Largest(means, 0.0) else Mean(xs, Usage)),
            TwoDecimals(Mean(xs, Power)),
            if HasEngines(src) then TwoDecimals(Mean(xs, PowerPkg)) else 0.0,
            if HasEngines(src) then Some(Rounded(means)) else None)
  }

  function SourceNames(sources: map<Id, Source>): map<Id, string> {
    map i | i in sources :: sources[i].name
  }

  ghost function QueueReading(q: Queues, key: Key, id: Id): Reading
    requires id in q.sources
  {
    var src, xs := q.sources[id], Unread(q, key, id);
    var temp, used := LastTemp(src.awake), LastUsed(src.awake);
    var body := if xs != [] then QueueAverage(src, xs)
                else if temp == 0.0 && used == 0.0 then Zero(src.name)
                else if id in q.lastAvg then q.lastAvg[id] else Zero("");
    Named(body.(temp := TwoDecimals(temp), memUsed := TwoDecimals(used), memTotal := TwoDecimals(LastTotal(src.all))),
          SourceNames(q.sources), id)
  }

  ghost function QueueAverages(q: Queues, key: Key): map<Id, Reading> {
    map id | id in q.sources && Unread(q, key, id) != [] :: QueueAverage(q.sources[id], Unread(q, key, id))
  }

  /** Reading empties the key's own queues and no other. */
  ghost function AfterQueueRead(q: Queues, key: Key): Queues {
    q.(lastAvg := q.lastAvg + QueueAverages(q, key),
       unread := q.unread[key := map id | id in q.sources :: []])
  }

  function KnownSource(src: Source, op: Op): Source {
    match op
    case Rename(_, name) => src.(name := name)
    case Suspend(_) => src.(awake := [])
    case Sample(_, x) => src.(all := src.all + [x], awake := src.awake + [x])
    case _ => src
  }

  function NextSource(src: Option<Source>, op: Op): Option<Source>
    requires !op.Read?
  {
    match op
    case Enter(_, name) => Some(Source(name, false, [], []))
    case Register(_, name, intel) => if src.Some? then src else Some(Source(name, intel, [], []))
    case _ => if src.Some? then Some(KnownSource(src.value, op)) else None
  }

  /** A sample goes to every queue of its GPU. */
  function NextQueue(xs: seq<Sample>, op: Op): seq<Sample> {
    if op.Enter? then [] else if op.Sample? then xs + [op.x] else xs
  }

  function NextUnread(unread: map<Id, seq<Sample>>, op: Op): map<Id, seq<Sample>>
    requires !op.Read?
  {
    if op.id in unread then unread[op.id := NextQueue(unread[op.id], op)] else unread
  }

  function QueueChanged(q: Queues, op: Op): Queues
    requires !op.Read?
  {
    var src := NextSource(Lookup(q.sources, op.id), op);
    q.(sources := if src.Some? then q.sources[op.id := src.value] else q.sources,
       unread := map key | key in q.unread :: NextUnread(q.unread[key], op))
  }

  // ---------------------------------------------------------------- refinement

  /** The totals less the snapshot are the totals of the unread samples. */
  ghost predicate Matches(g: Gpu, last: Snapshot, xs: seq<Sample>) {
    && (g.count - last.count - |xs|) % WRAP == 0
    && g.usage - last.usage == Sum(xs, Usage)
    && g.power - last.power == Sum(xs, Power)
    && g.powerPkg - last.powerPkg == Sum(xs, PowerPkg)
    && forall k: string :: Get(EnginesOf(g.engines), k) - Get(EnginesOf(last.engines), k) == Sum(xs, Engine(k))
  }

  predicate Tracks(g: Gpu, src: Source) {
    && g.name == src.name
    && g.temp == LastTemp(src.awake) && g.memUsed == LastUsed(src.awake) && g.memTotal == LastTotal(src.all)
    && (g.engines.Some? <==> HasEngines(src)) && EnginesOf(g.engines).Keys == EngineNames(src.all)
    && (g.engines.None? ==> g.powerPkg == 0.0)
  }

  predicate Snapped(s: State, key: Key, id: Id) {
    key in s.snapshots && id in s.snapshots[key]
  }

  predicate Queued(q: Queues, key: Key, id: Id) {
    key in q.unread && id in q.unread[key]
  }

  /** Totals and queues are in step for a GPU. */
  ghost predicate Rel(s: State, q: Queues, id: Id) {
    && Names(s.gpus) == SourceNames(q.sources) && s.gpus.Keys == q.sources.Keys
    && Lookup(s.lastAvg, id) == Lookup(q.lastAvg, id)
    && (forall key: Key :: Snapped(s, key, id) ==> id in s.gpus)
    && (forall key: Key :: Snapped(s, key, id) <==> Queued(q, key, id))
    && (id in s.gpus ==>
          && Tracks(s.gpus[id], q.sources[id])
          && forall key: Key :: Matches(s.gpus[id], LastSnapshot(s, key, id), Unread(q, key, id)))
  }

  lemma SumAppend(xs: seq<Sample>, x: Sample, f: Field)
    ensures Sum(xs + [x], f) == Sum(xs, f) + Value(x, f)
  {
    assert (xs + [x])[..|xs|] == xs;
  }

  lemma MatchesAppend(g: Gpu, last: Snapshot, xs: seq<Sample>, x: Sample)
    requires Matches(g, last, xs)
    ensures Matches(Accumulated(g, x), last, xs + [x])
  {
    var h := Accumulated(g, x);
    SumAppend(xs, x, Usage);
    SumAppend(xs, x, Power);
    SumAppend(xs, x, PowerPkg);
    forall k: string
      ensures Get(EnginesOf(h.engines), k) - Get(EnginesOf(last.engines), k) == Sum(xs + [x], Engine(k))
    {
      SumAppend(xs, x, Engine(k));
    }
  }

  lemma LastAppend(xs: seq<Sample>, x: Sample)
    ensures LastTemp(xs + [x]) == if x.Basic? then OrElse(x.temp, LastTemp(xs)) else LastTemp(xs)
    ensures LastUsed(xs + [x]) == if x.Basic? then OrElse(x.memUsed, LastUsed(xs)) else LastUsed(xs)
    ensures LastTotal(xs + [x]) == if x.Basic? then OrElse(x.memTotal, LastTotal(xs)) else LastTotal(xs)
    ensures AnyIntel(xs + [x]) <==> x.Intel? || AnyIntel(xs)
    ensures EngineNames(xs + [x]) == EngineNames(xs) + (if x.Intel? then x.engineUse.Keys else {})
  {
    assert (xs + [x])[..|xs|] == xs;
  }

  lemma TracksNext(g: Gpu, src: Source, op: Op)
    requires Tracks(g, src) && !op.Read?
    ensures Tracks(NextGpu(Some(g), op).value, NextSource(Some(src), op).value)
  {
    hide LastTemp, LastUsed, LastTotal, AnyIntel, EngineNames;
    if op.Sample? {
      LastAppend(src.all, op.x);
      LastAppend(src.awake, op.x);
    } else if op.Suspend? || op.Enter? {
      NothingLast();
    }
  }

  lemma NothingLast()
    ensures LastTemp([]) == LastUsed([]) == LastTotal([]) == 0.0 && !AnyIntel([]) && EngineNames([]) == {}
  {
  }

  lemma MatchesNext(g: Gpu, last: Snapshot, xs: seq<Sample>, op: Op)
    requires Matches(g, last, xs) && !op.Read? && !op.Enter?
    ensures Matches(NextGpu(Some(g), op).value, last, NextQueue(xs, op))
  {
    if op.Sample? {
      MatchesAppend(g, last, xs, op.x);
    }
  }

  lemma NewTracks(name: string, intel: bool)
    ensures Tracks(NewGpu(name, intel), Source(name, intel, [], [])) && Matches(NewGpu(name, intel), NOTHING, [])
  {
  }

  /** A snapshot of totals that were still zero. */
  ghost predicate IsZero(last: Snapshot) {
    && last.count % WRAP == 0 && last.usage == 0.0 && last.power == 0.0 && last.powerPkg == 0.0
    && forall k: string :: Get(EnginesOf(last.engines), k) == 0.0
  }

  lemma ZeroMatches(name: string, last: Snapshot)
    ensures Matches(NewGpu(name, false), last, []) <==> IsZero(last)
  {
    assert forall k: string :: Get(EnginesOf(NewGpu(name, false).engines), k) == 0.0;
    assert (0 - last.count) % WRAP == 0 <==> last.count % WRAP == 0 by {
      NegMod(last.count, WRAP);
    }
    if Matches(NewGpu(name, false), last, []) {
      forall k: string ensures Get(EnginesOf(last.engines), k) == 0.0 {
        assert Sum([], Engine(k)) == 0.0;
      }
    }
  }

  /** No key has a snapshot of the GPU with anything in it. */
  ghost predicate Harmless(s: State, id: Id) {
    forall key: Key :: IsZero(LastSnapshot(s, key, id))
  }

  lemma NameNext(g: Option<Gpu>, src: Option<Source>, op: Op)
    requires !op.Read? && (g.Some? <==> src.Some?) && (g.Some? ==> g.value.name == src.value.name)
    ensures var h, r := NextGpu(g, op), NextSource(src, op);
            (h.Some? <==> r.Some?) && (h.Some? ==> h.value.name == r.value.name)
  {
  }

  lemma NameAt(s: State, q: Queues, id: Id)
    requires Names(s.gpus) == SourceNames(q.sources) && id in s.gpus && id in q.sources
    ensures s.gpus[id].name == q.sources[id].name
  {
    assert Names(s.gpus)[id] == s.gpus[id].name && SourceNames(q.sources)[id] == q.sources[id].name;
  }

  lemma NamesUpdate(s: State, q: Queues, id: Id, g: Gpu, src: Source)
    requires Names(s.gpus) == SourceNames(q.sources) && g.name == src.name
    ensures Names(s.gpus[id := g]) == SourceNames(q.sources[id := src])
  {
    assert Names(s.gpus[id := g]) == Names(s.gpus)[id := g.name];
    assert SourceNames(q.sources[id := src]) == SourceNames(q.sources)[id := src.name];
  }

  lemma NamesNext(s: State, q: Queues, op: Op)
    requires Names(s.gpus) == SourceNames(q.sources) && s.gpus.Keys == q.sources.Keys && !op.Read?
    ensures Names(Changed(s, op).gpus) == SourceNames(QueueChanged(q, op).sources)
    ensures Changed(s, op).gpus.Keys == QueueChanged(q, op).sources.Keys
  {
    hide NextGpu, NextSource, Names, SourceNames;
    var g, src := Lookup(s.gpus, op.id), Lookup(q.sources, op.id);
    if op.id in s.gpus {
      NameAt(s, q, op.id);
    }
    NameNext(g, src, op);
    if NextGpu(g, op).Some? {
      NamesUpdate(s, q, op.id, NextGpu(g, op).value, NextSource(src, op).value);
    }
  }

  lemma UnreadNext(q: Queues, op: Op, key: Key)
    requires !op.Read? && op.id in q.sources
    ensures op.id in QueueChanged(q, op).sources
    ensures Unread(QueueChanged(q, op), key, op.id) == NextQueue(Unread(q, key, op.id), op)
  {
  }

  /** What is done to one GPU leaves the others in step. */
  lemma OtherRefines(s: State, q: Queues, op: Op, id: Id)
    requires Rel(s, q, id) && !op.Read? && op.id != id
    ensures Rel(Changed(s, op), QueueChanged(q, op), id)
  {
    hide Matches, Tracks, NextGpu, NextSource, Names, SourceNames;
    NamesNext(s, q, op);
    var t, r := Changed(s, op), QueueChanged(q, op);
    forall key: Key
      ensures Snapped(t, key, id) ==> id in t.gpus
      ensures Snapped(t, key, id) <==> Queued(r, key, id)
      ensures id in s.gpus ==> Matches(t.gpus[id], LastSnapshot(t, key, id), Unread(r, key, id))
    {
      assert Snapped(t, key, id) <==> Snapped(s, key, id);
      assert Queued(r, key, id) <==> Queued(q, key, id);
      if id in s.gpus {
        assert Unread(r, key, id) == Unread(q, key, id);
        assert Matches(s.gpus[id], LastSnapshot(s, key, id), Unread(q, key, id));
      }
    }
  }

  /** So does what is done to a GPU that is known, other than entering it again. */
  lemma KnownRefines(s: State, q: Queues, op: Op)
    requires !op.Read? && !op.Enter? && Rel(s, q, op.id) && op.id in s.gpus
    ensures Rel(Changed(s, op), QueueChanged(q, op), op.id)
  {
    hide Matches, Tracks, NextGpu, NextSource, NextQueue, Names, SourceNames;
    NamesNext(s, q, op);
    var id, t, r := op.id, Changed(s, op), QueueChanged(q, op);
    KnownStays(Some(s.gpus[id]), Some(q.sources[id]), op);
    TracksNext(s.gpus[id], q.sources[id], op);
    forall key: Key
      ensures Snapped(t, key, id) <==> Queued(r, key, id)
      ensures Matches(t.gpus[id], LastSnapshot(t, key, id), Unread(r, key, id))
    {
      assert Snapped(s, key, id) <==> Queued(q, key, id);
      UnreadNext(q, op, key);
      MatchesNext(s.gpus[id], LastSnapshot(s, key, id), Unread(q, key, id), op);
    }
  }

  lemma KnownStays(g: Option<Gpu>, src: Option<Source>, op: Op)
    requires g.Some? && src.Some? && !op.Read?
    ensures NextGpu(g, op).Some? && NextSource(src, op).Some?
  {
  }

  lemma FreshRefines(s: State, q: Queues, op: Op)
    requires !op.Read? && Rel(s, q, op.id) && op.id !in s.gpus
    ensures Rel(Changed(s, op), QueueChanged(q, op), op.id)
  {
    hide Matches, Tracks, NewGpu, Names, SourceNames;
    NamesNext(s, q, op);
    var id, t, r := op.id, Changed(s, op), QueueChanged(q, op);
    NewTracks("", false);
    if op.Enter? || op.Register? {
      NewTracks(op.name, op.Register? && op.intel);
    }
    forall key: Key
      ensures Snapped(t, key, id) <==> Queued(r, key, id)
      ensures LastSnapshot(t, key, id) == NOTHING && (id in r.sources ==> Unread(r, key, id) == [])
    {
      assert !Snapped(s, key, id) && !Queued(q, key, id);
    }
  }

  /** Exact: entering a GPU anew keeps it in step if and only if no snapshot of it holds anything. */
  lemma EnterRefinesIff(s: State, q: Queues, id: Id, name: string)
    requires Rel(s, q, id)
    ensures Rel(Changed(s, Enter(id, name)), QueueChanged(q, Enter(id, name)), id) <==> Harmless(s, id)
  {
    hide Matches, Tracks, NewGpu, IsZero, Names, SourceNames;
    var op := Enter(id, name);
    NamesNext(s, q, op);
    NewTracks(name, false);
    var t, r := Changed(s, op), QueueChanged(q, op);
    forall key: Key
      ensures Snapped(t, key, id) <==> Queued(r, key, id)
      ensures Matches(t.gpus[id], LastSnapshot(t, key, id), Unread(r, key, id)) <==> IsZero(LastSnapshot(s, key, id))
    {
      assert Snapped(s, key, id) <==> Queued(q, key, id);
      assert Unread(r, key, id) == [];
      ZeroMatches(name, LastSnapshot(s, key, id));
    }
  }

  /** The 32-bit difference counts the unread samples exactly when there are fewer than 2^32 of them. */
  lemma DivisorExactIff(g: Gpu, last: Snapshot, xs: seq<Sample>)
    requires Matches(g, last, xs)
    ensures DeltaCount(g, last) == |xs| % WRAP
    ensures DeltaCount(g, last) == |xs| <==> |xs| < 0x1_0000_0000
  {
    var d := g.count - last.count;
    assert (g.count % WRAP - last.count) % WRAP == d % WRAP by {
      assert g.count == g.count / WRAP * WRAP + g.count % WRAP;
      ModShift(g.count % WRAP - last.count, g.count / WRAP, WRAP);
    }
    var m := (d - |xs|) / WRAP;
    assert d == |xs| + m * WRAP;
    ModShift(|xs|, m, WRAP);
  }

  lemma AverageRefines(g: Gpu, last: Snapshot, src: Source, xs: seq<Sample>)
    requires Tracks(g, src) && Matches(g, last, xs) && 0 < |xs| < WRAP
    ensures DeltaCount(g, last) == |xs| && Average(g, last) == QueueAverage(src, xs)
  {
    DivisorExactIff(g, last, xs);
    var means := EngineMeans(g, last, |xs|);
    assert means == QueueMeans(src, xs) by {
      forall k <- means ensures means[k] == Mean(xs, Engine(k)) {
        assert Get(EnginesOf(g.engines), k) - Get(EnginesOf(last.engines), k) == Sum(xs, Engine(k));
      }
    }
  }

  ghost predicate FewUnread(q: Queues, key: Key, id: Id) {
    id in q.sources ==> |Unread(q, key, id)| < 0x1_0000_0000
  }

  /** New averages are made when the queue is not empty, and are the queue's. */
  lemma AverageOrStale(s: State, q: Queues, key: Key, id: Id)
    requires Rel(s, q, id) && FewUnread(q, key, id) && id in s.gpus
    ensures Renews(s, key, id) <==> Unread(q, key, id) != []
    ensures Renews(s, key, id) ==>
              Average(s.gpus[id], LastSnapshot(s, key, id)) == QueueAverage(q.sources[id], Unread(q, key, id))
  {
    hide Average, QueueAverage, DeltaCount, Tracks;
    var g, last, xs := s.gpus[id], LastSnapshot(s, key, id), Unread(q, key, id);
    assert Matches(g, last, xs);
    DivisorExactIff(g, last, xs);
    if xs != [] {
      AverageRefines(g, last, q.sources[id], xs);
    }
  }

  /** What a read reports of a GPU. */
  ghost function Report(s: State, key: Key, id: Id): Option<Reading> {
    if id in s.gpus then Some(ReadingOf(s, key, id)) else None
  }

  ghost function QueueReport(q: Queues, key: Key, id: Id): Option<Reading> {
    if id in q.sources then Some(QueueReading(q, key, id)) else None
  }

  lemma ReadingRefines(s: State, q: Queues, key: Key, id: Id)
    requires Rel(s, q, id) && FewUnread(q, key, id)
    ensures Report(s, key, id) == QueueReport(q, key, id)
  {
    hide Average, QueueAverage, Matches, LastTemp, LastUsed, LastTotal, FewUnread, Shared;
    if id in s.gpus {
      AverageOrStale(s, q, key, id);
    }
  }

  lemma AveragesRefine(s: State, q: Queues, key: Key, id: Id)
    requires Rel(s, q, id) && FewUnread(q, key, id)
    ensures Lookup(AfterRead(s, key).lastAvg, id) == Lookup(AfterQueueRead(q, key).lastAvg, id)
  {
    hide Average, QueueAverage, Matches, Tracks, FewUnread, Renews, Unread;
    if id in s.gpus {
      AverageOrStale(s, q, key, id);
    }
  }

  lemma SnapshotMatches(g: Gpu)
    ensures Matches(g, SnapshotOf(g), [])
  {
  }

  lemma AfterReadMatches(s: State, q: Queues, key: Key, k: Key, id: Id)
    requires id in s.gpus && s.gpus.Keys == q.sources.Keys
    requires Matches(s.gpus[id], LastSnapshot(s, k, id), Unread(q, k, id))
    ensures Matches(s.gpus[id], LastSnapshot(AfterRead(s, key), k, id), Unread(AfterQueueRead(q, key), k, id))
  {
    hide Average, QueueAverage, Renews, Matches, SnapshotOf;
    if k == key {
      SnapshotMatches(s.gpus[id]);
      assert LastSnapshot(AfterRead(s, key), k, id) == SnapshotOf(s.gpus[id]);
    } else {
      assert LastSnapshot(AfterRead(s, key), k, id) == LastSnapshot(s, k, id);
      assert Unread(AfterQueueRead(q, key), k, id) == Unread(q, k, id);
    }
  }

  lemma SnappedAfterRead(s: State, q: Queues, key: Key, k: Key, id: Id)
    requires s.gpus.Keys == q.sources.Keys
    requires (Snapped(s, k, id) ==> id in s.gpus) && (Snapped(s, k, id) <==> Queued(q, k, id))
    ensures Snapped(AfterRead(s, key), k, id) ==> id in s.gpus
    ensures Snapped(AfterRead(s, key), k, id) <==> Queued(AfterQueueRead(q, key), k, id)
  {
    hide NewAverages, QueueAverages;
  }

  /** GetCurrentData gives what emptying the key's queue gives, and keeps the two in step. */
  lemma ReadRefines(s: State, q: Queues, key: Key, id: Id)
    requires Rel(s, q, id) && FewUnread(q, key, id)
    ensures Report(s, key, id) == QueueReport(q, key, id)
    ensures Rel(AfterRead(s, key), AfterQueueRead(q, key), id)
  {
    hide ReadingOf, QueueReading, Tracks, Matches, FewUnread, Unread, LastSnapshot, Snapped, Queued, NewAverages,
      QueueAverages, SnapshotsOf;
    ReadingRefines(s, q, key, id);
    AveragesRefine(s, q, key, id);
    var t, r := AfterRead(s, key), AfterQueueRead(q, key);
    forall k: Key
      ensures Snapped(t, k, id) ==> id in t.gpus
      ensures Snapped(t, k, id) <==> Queued(r, k, id)
      ensures id in t.gpus ==> Matches(t.gpus[id], LastSnapshot(t, k, id), Unread(r, k, id))
    {
      SnappedAfterRead(s, q, key, k, id);
      if id in s.gpus {
        AfterReadMatches(s, q, key, k, id);
      }
    }
  }

  // ---------------------------------------------------------------- runs

  ghost function Next(s: State, op: Op): State {
    if op.Read? then AfterRead(s, op.key) else Changed(s, op)
  }

  ghost function QueueNext(q: Queues, op: Op): Queues {
    if op.Read? then AfterQueueRead(q, op.key) else QueueChanged(q, op)
  }

  /** Everything a run reports of a GPU, in order. */
  ghost function Reports(s: State, ops: seq<Op>, id: Id): seq<Option<Reading>>
    decreases |ops|
  {
    if ops == [] then []
    else (if ops[0].Read? then [Report(s, ops[0].key, id)] else []) + Reports(Next(s, ops[0]), ops[1..], id)
  }

  ghost function QueueReports(q: Queues, ops: seq<Op>, id: Id): seq<Option<Reading>>
    decreases |ops|
  {
    if ops == [] then []
    else
      (if ops[0].Read? then [QueueReport(q, ops[0].key, id)] else []) + QueueReports(QueueNext(q, ops[0]), ops[1..], id)
  }

  /**
  The operation does not find 2^32 samples of the GPU waiting, and does not enter it when a snapshot of it holds
  anything.
   */
  ghost predicate IsRegular(s: State, q: Queues, op: Op, id: Id) {
    match op
    case Enter(i, _) => i == id ==> Harmless(s, id)
    case Read(key) => FewUnread(q, key, id)
    case _ => true
  }

  ghost predicate Regular(s: State, q: Queues, ops: seq<Op>, id: Id)
    decreases |ops|
  {
    ops == [] || (IsRegular(s, q, ops[0], id) && Regular(Next(s, ops[0]), QueueNext(q, ops[0]), ops[1..], id))
  }

  lemma StepRefines(s: State, q: Queues, op: Op, id: Id)
    requires Rel(s, q, id) && IsRegular(s, q, op, id)
    ensures Rel(Next(s, op), QueueNext(q, op), id)
    ensures op.Read? ==> Report(s, op.key, id) == QueueReport(q, op.key, id)
  {
    hide Rel, Changed, QueueChanged, AfterRead, AfterQueueRead, Harmless, FewUnread;
    if op.Read? {
      ReadRefines(s, q, op.key, id);
    } else if op.id != id {
      OtherRefines(s, q, op, id);
    } else if op.Enter? {
      EnterRefinesIff(s, q, id, op.name);
    } else if id in s.gpus {
      KnownRefines(s, q, op);
    } else {
      FreshRefines(s, q, op);
    }
  }

  lemma {:induction false} RunRefines(s: State, q: Queues, ops: seq<Op>, id: Id)
    requires Rel(s, q, id) && Regular(s, q, ops, id)
    ensures Reports(s, ops, id) == QueueReports(q, ops, id)
    decreases |ops|
  {
    hide Rel, Next, QueueNext, Report, QueueReport, IsRegular;
    if ops != [] {
      StepRefines(s, q, ops[0], id);
      RunRefines(Next(s, ops[0]), QueueNext(q, ops[0]), ops[1..], id);
    }
  }

  /**
  Whatever the interleaving of samples and reads with any keys, totals and snapshots report what separate queues would.
   */
  lemma SnapshotsAreQueues(ops: seq<Op>, id: Id)
    requires Regular(EMPTY, NO_QUEUES, ops, id)
    ensures Reports(EMPTY, ops, id) == QueueReports(NO_QUEUES, ops, id)
  {
    RunRefines(EMPTY, NO_QUEUES, ops, id);
  }

  // ---------------------------------------------------------------- every key sees every sample once

  ghost function Taken(q: Queues, ops: seq<Op>, key: Key, id: Id): seq<Sample>
    decreases |ops|
  {
    if ops == [] then []
    else (if ops[0] == Read(key) && id in q.sources then Unread(q, key, id) else [])
         + Taken(QueueNext(q, ops[0]), ops[1..], key, id)
  }

  ghost function Final(q: Queues, ops: seq<Op>): Queues
    decreases |ops|
  {
    if ops == [] then q else Final(QueueNext(q, ops[0]), ops[1..])
  }

  function Sent(ops: seq<Op>, id: Id): seq<Sample> {
    if ops == [] then [] else (if ops[0].Sample? && ops[0].id == id then [ops[0].x] else []) + Sent(ops[1..], id)
  }

  /** The batches a key has averaged, followed by what it has not read yet, are all the samples in order, none twice. */
  lemma {:induction false} EachSampleOnce(q: Queues, ops: seq<Op>, key: Key, id: Id)
    requires id in q.sources && forall i :: 0 <= i < |ops| ==> !(ops[i].Enter? && ops[i].id == id)
    ensures id in Final(q, ops).sources
    ensures Taken(q, ops, key, id) + Unread(Final(q, ops), key, id) == Unread(q, key, id) + Sent(ops, id)
    decreases |ops|
  {
    hide QueueNext, Unread;
    if ops != [] {
      var r := QueueNext(q, ops[0]);
      OneOp(q, ops[0], key, id);
      EachSampleOnce(r, ops[1..], key, id);
      var taken := if ops[0] == Read(key) then Unread(q, key, id) else [];
      var sent := if ops[0].Sample? && ops[0].id == id then [ops[0].x] else [];
      calc {
        Taken(q, ops, key, id) + Unread(Final(q, ops), key, id);
        taken + (Taken(r, ops[1..], key, id) + Unread(Final(r, ops[1..]), key, id));
        taken + (Unread(r, key, id) + Sent(ops[1..], id));
        (taken + Unread(r, key, id)) + Sent(ops[1..], id);
        (Unread(q, key, id) + sent) + Sent(ops[1..], id);
        Unread(q, key, id) + Sent(ops, id);
      }
    }
  }

  lemma OneOp(q: Queues, op: Op, key: Key, id: Id)
    requires id in q.sources && !(op.Enter? && op.id == id)
    ensures id in QueueNext(q, op).sources
    ensures (if op == Read(key) then Unread(q, key, id) else []) + Unread(QueueNext(q, op), key, id)
         == Unread(q, key, id) + (if op.Sample? && op.id == id then [op.x] else [])
  {
  }
}
