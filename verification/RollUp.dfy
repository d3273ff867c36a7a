/**
Tiered roll-up (CreateLongerRecords in internal/records/records.go) and retention
(deleteOldSystemStats in internal/records/records_deletion.go) of the statistics tables.

Both tables are one sequence of rows in insertion order; times are milliseconds. The averaging of
payloads is a parameter, so every result holds for system_stats and container_stats alike.
 */
module RollUp {
  import opened Arith
  import opened Basics

  datatype Kind = M1 | M10 | M20 | M120 | M480

  datatype Collection = SystemStats | ContainerStats

  datatype Row<P> = Row(collection: Collection, system: string, kind: Kind, created: int, stats: P)

  datatype Tier = Tier(shorter: Kind, longer: Kind, minutes: nat, minShorter: nat)

  const TIERS: seq<Tier> := [Tier(M1, M10, 10, 9), Tier(M10, M20, 20, 2), Tier(M20, M120, 120, 6),
                             Tier(M120, M480, 480, 4)]

  const COLLECTIONS: seq<Collection> := [SystemStats, ContainerStats]

  /** One body of the innermost loop, with the clock readings it uses. */
  datatype Job = Job(system: string, tier: Tier, collection: Collection, longerNow: int, shorterNow: int, savedAt: int)

  type Averager<!P> = (Collection, seq<P>) -> P

  // ---------------------------------------------------------------- one job

  function LongerAfter(j: Job): int {
    j.longerNow - j.tier.minutes * MINUTE + MINUTE
  }

  function ShorterAfter(j: Job): int {
    j.shorterNow - j.tier.minutes * MINUTE
  }

  predicate IsLonger<P>(r: Row<P>, j: Job) {
    r.collection == j.collection && r.system == j.system && r.kind == j.tier.longer && r.created > LongerAfter(j)
  }

  predicate IsShorter<P>(r: Row<P>, j: Job) {
    r.collection == j.collection && r.system == j.system && r.kind == j.tier.shorter && r.created > ShorterAfter(j)
  }

  /** A recent longer row exists; "10m" rows are created on every run. */
  predicate Skips<P(==)>(rows: seq<Row<P>>, j: Job) {
    !j.tier.longer.M10? && exists r <- rows :: IsLonger(r, j)
  }

  /** The payloads a job averages, in table order. */
  function Sources<P>(rows: seq<Row<P>>, j: Job): seq<P> {
    if rows == [] then [] else
      var last := rows[|rows| - 1];
      Sources(rows[..|rows| - 1], j) + if IsShorter(last, j) then [last.stats] else []
  }

  predicate Creates<P(==)>(rows: seq<Row<P>>, j: Job) {
    !Skips(rows, j) && |Sources(rows, j)| >= j.tier.minShorter
  }

  /** The rows a job inserts: none or one. */
  function Created<P(==)>(rows: seq<Row<P>>, j: Job, avg: Averager<P>): seq<Row<P>> {
    if Creates(rows, j) then [Row(j.collection, j.system, j.tier.longer, j.savedAt,
                                  avg(j.collection, Sources(rows, j)))] else []
  }

  /** The rows a list of jobs inserts, each job seeing those of the jobs before it. */
  function AllCreated<P(==)>(rows: seq<Row<P>>, jobs: seq<Job>, avg: Averager<P>): seq<Row<P>> {
    if jobs == [] then [] else
      var before := AllCreated(rows, jobs[..|jobs| - 1], avg);
      before + Created(rows + before, jobs[|jobs| - 1], avg)
  }

  // ---------------------------------------------------------------- retention

  function Retention(k: Kind): int {
    match k
    case M1 => 60 * MINUTE
    case M10 => 720 * MINUTE
    case M20 => 1440 * MINUTE
    case M120 => 10_080 * MINUTE
    case M480 => 43_200 * MINUTE
  }

  predicate Kept<P>(r: Row<P>, now: int) {
    r.created >= now - Retention(r.kind)
  }

  function Pruned<P>(rows: seq<Row<P>>, now: int): seq<Row<P>> {
    if rows == [] then [] else
      var last := rows[|rows| - 1];
      Pruned(rows[..|rows| - 1], now) + if Kept(last, now) then [last] else []
  }

  lemma {:induction false} PrunedHas<P>(rows: seq<Row<P>>, now: int, r: Row<P>)
    ensures r in Pruned(rows, now) <==> r in rows && Kept(r, now)
  {
    if rows != [] {
      var init, last := rows[..|rows| - 1], rows[|rows| - 1];
      PrunedHas(init, now, r);
      assert rows == init + [last];
    }
  }

  lemma {:induction false} PrunedConcat<P>(a: seq<Row<P>>, b: seq<Row<P>>, now: int)
    ensures Pruned(a + b, now) == Pruned(a, now) + Pruned(b, now)
  {
    if b == [] {
      assert a + b == a;
    } else {
      var init, last := b[..|b| - 1], b[|b| - 1];
      assert (a + b)[..|a + b| - 1] == a + init;
      PrunedConcat(a, init, now);
    }
  }

  // ---------------------------------------------------------------- pruning commutes with roll-up

  /** The jobs of a run that starts no earlier than `now`. */
  predicate NotBefore(j: Job, now: int) {
    j.tier in TIERS && now <= j.longerNow && now <= j.shorterNow && now <= j.savedAt
  }

  /** Every row a job looks at is younger than its retention. */
  lemma WindowKept<P>(r: Row<P>, j: Job, now: int)
    requires NotBefore(j, now) && (IsLonger(r, j) || IsShorter(r, j))
    ensures Kept(r, now)
  {
    assert j.tier == TIERS[0] || j.tier == TIERS[1] || j.tier == TIERS[2] || j.tier == TIERS[3];
  }

  lemma {:induction false} PrunedSources<P>(rows: seq<Row<P>>, j: Job, now: int)
    requires NotBefore(j, now)
    ensures Sources(Pruned(rows, now), j) == Sources(rows, j)
  {
    if rows != [] {
      var init, last := rows[..|rows| - 1], rows[|rows| - 1];
      PrunedSources(init, j, now);
      if IsShorter(last, j) {
        WindowKept(last, j, now);
      }
      assert Sources(init, j) + [] == Sources(init, j);
      var p := Pruned(init, now);
      assert p + [] == p && (p + [last])[..|p|] == p;
    }
  }

  lemma PrunedSkips<P>(rows: seq<Row<P>>, j: Job, now: int)
    requires NotBefore(j, now)
    ensures Skips(Pruned(rows, now), j) <==> Skips(rows, j)
  {
    forall r | IsLonger(r, j) ensures r in Pruned(rows, now) <==> r in rows {
      PrunedHas(rows, now, r);
      WindowKept(r, j, now);
    }
  }

  /** What a job does depends only on the rows that pruning keeps. */
  lemma JobIgnoresExpired<P>(rows: seq<Row<P>>, j: Job, now: int, avg: Averager<P>)
    requires NotBefore(j, now)
    ensures Created(Pruned(rows, now), j, avg) == Created(rows, j, avg)
  {
    PrunedSources(rows, j, now);
    PrunedSkips(rows, j, now);
  }

  /**
  Pruning commutes with roll-up: deleting expired rows changes neither which longer rows a run creates nor what
  they contain, in all tiers, each job seeing the rows created earlier in the same run.
   */
  lemma {:induction false} PruningCommutes<P>(rows: seq<Row<P>>, jobs: seq<Job>, now: int, avg: Averager<P>)
    requires forall j <- jobs :: NotBefore(j, now)
    ensures AllCreated(Pruned(rows, now), jobs, avg) == AllCreated(rows, jobs, avg)
  {
    if jobs != [] {
      var init, j := jobs[..|jobs| - 1], jobs[|jobs| - 1];
      PruningCommutes(rows, init, now, avg);
      var before := AllCreated(rows, init, avg);
      SamePruned(rows, before, now);
      JobIgnoresExpired(rows + before, j, now, avg);
      JobIgnoresExpired(Pruned(rows, now) + before, j, now, avg);
    }
  }

  lemma PruningKeepsSources<P>(rows: seq<Row<P>>, jobs: seq<Job>, i: nat, now: int, avg: Averager<P>)
    requires i < |jobs| && forall j <- jobs :: NotBefore(j, now)
    ensures Sources(Pruned(rows, now) + AllCreated(Pruned(rows, now), jobs[..i], avg), jobs[i])
         == Sources(rows + AllCreated(rows, jobs[..i], avg), jobs[i])
  {
    PruningCommutes(rows, jobs[..i], now, avg);
    var before := AllCreated(rows, jobs[..i], avg);
    SamePruned(rows, before, now);
    PrunedSources(rows + before, jobs[i], now);
    PrunedSources(Pruned(rows, now) + before, jobs[i], now);
  }

  lemma SamePruned<P>(rows: seq<Row<P>>, more: seq<Row<P>>, now: int)
    ensures Pruned(Pruned(rows, now) + more, now) == Pruned(rows + more, now)
  {
    PrunedTwice(rows, now);
    PrunedConcat(rows, more, now);
    PrunedConcat(Pruned(rows, now), more, now);
  }

  /** Pruning before a run or after it leaves the same table. */
  lemma PruneThenRoll<P>(rows: seq<Row<P>>, jobs: seq<Job>, now: int, avg: Averager<P>)
    requires forall j <- jobs :: NotBefore(j, now)
    ensures Pruned(rows, now) + AllCreated(Pruned(rows, now), jobs, avg)
            == Pruned(rows + AllCreated(rows, jobs, avg), now)
  {
    PruningCommutes(rows, jobs, now, avg);
    CreatedKept(rows, jobs, now, avg);
    PrunedConcat(rows, AllCreated(rows, jobs, avg), now);
  }

  lemma {:induction false} CreatedKept<P>(rows: seq<Row<P>>, jobs: seq<Job>, now: int, avg: Averager<P>)
    requires forall j <- jobs :: NotBefore(j, now)
    ensures Pruned(AllCreated(rows, jobs, avg), now) == AllCreated(rows, jobs, avg)
  {
    if jobs != [] {
      var init, j := jobs[..|jobs| - 1], jobs[|jobs| - 1];
      assert j in jobs;
      CreatedKept(rows, init, now, avg);
      var before := AllCreated(rows, init, avg);
      PrunedConcat(before, Created(rows + before, j, avg), now);
      OneKept(Created(rows + before, j, avg), now);
    }
  }

  lemma OneKept<P>(rows: seq<Row<P>>, now: int)
    requires |rows| <= 1 && forall r <- rows :: r.created >= now
    ensures Pruned(rows, now) == rows
  {
    if rows != [] {
      assert rows == [rows[0]] && Kept(rows[0], now);
      assert Pruned(rows[..0], now) == [];
    }
  }

  lemma {:induction false} PrunedTwice<P>(rows: seq<Row<P>>, now: int)
    ensures Pruned(Pruned(rows, now), now) == Pruned(rows, now)
  {
    if rows != [] {
      var init, last := rows[..|rows| - 1], rows[|rows| - 1];
      PrunedTwice(init, now);
      var p := Pruned(init, now);
      assert p + [] == p && (p + [last])[..|p|] == p;
    }
  }

  // ---------------------------------------------------------------- spacing and bounded storage

  /** Kinds whose creation is skipped while a recent row exists. */
  predicate Guarded(k: Kind) {
    k.M20? || k.M120? || k.M480?
  }

  function Period(k: Kind): int {
    match k
    case M1 => 1
    case M10 => 10
    case M20 => 20
    case M120 => 120
    case M480 => 480
  }

  function Gap(k: Kind): int {
    (Period(k) - 1) * MINUTE
  }

  predicate SameGroup<P>(r: Row<P>, q: Row<P>) {
    r.collection == q.collection && r.system == q.system && r.kind == q.kind
  }

  /** Guarded rows of one system and collection are at least their period, less one minute, apart. */
  predicate Spaced<P(==)>(rows: seq<Row<P>>) {
    rows == [] ||
    (Spaced(rows[..|rows| - 1]) &&
     var last := rows[|rows| - 1];
     Guarded(last.kind) ==> forall r <- rows[..|rows| - 1] :: SameGroup(r, last) ==>
         last.created - r.created >= Gap(last.kind))
  }

  /** A step of the hub that changes the tables. */
  datatype Step<P> =
    | Insert(row: Row<P>)      // a fresh "1m" row from an agent
    | Roll(job: Job)           // one job of a roll-up run
    | Prune(now: int)

  predicate StepOk<P>(step: Step<P>) {
    match step
    case Insert(row) => row.kind.M1?
    case Roll(job) => job.tier in TIERS && job.longerNow <= job.savedAt
    case Prune(_) => true
  }

  function TimeOf<P>(step: Step<P>): int {
    match step
    case Insert(row) => row.created
    case Roll(job) => job.savedAt
    case Prune(now) => now
  }

  function Apply<P(==)>(rows: seq<Row<P>>, step: Step<P>, avg: Averager<P>): seq<Row<P>> {
    match step
    case Insert(row) => rows + [row]
    case Roll(job) => rows + Created(rows, job, avg)
    case Prune(now) => Pruned(rows, now)
  }

  /** The table after a run of steps from an empty database. */
  function Table<P(==)>(steps: seq<Step<P>>, avg: Averager<P>): seq<Row<P>> {
    if steps == [] then [] else Apply(Table(steps[..|steps| - 1], avg), steps[|steps| - 1], avg)
  }

  /** Every step is well formed and no step happens before an earlier one. */
  predicate Monotone<P>(steps: seq<Step<P>>) {
    && (forall i :: 0 <= i < |steps| ==> StepOk(steps[i]))
    && (forall i, k :: 0 <= i <= k < |steps| ==> TimeOf(steps[i]) <= TimeOf(steps[k]))
  }

  lemma SpacedAppend<P>(rows: seq<Row<P>>, r: Row<P>)
    requires Spaced(rows)
    requires Guarded(r.kind) ==> forall q <- rows :: SameGroup(q, r) ==> r.created - q.created >= Gap(r.kind)
    ensures Spaced(rows + [r])
  {
    assert (rows + [r])[..|rows|] == rows;
  }

  lemma {:induction false} SpacedPruned<P>(rows: seq<Row<P>>, now: int)
    requires Spaced(rows)
    ensures Spaced(Pruned(rows, now))
  {
    if rows != [] {
      var init, last := rows[..|rows| - 1], rows[|rows| - 1];
      SpacedPruned(init, now);
      if Kept(last, now) {
        forall q <- Pruned(init, now) ensures q in init {
          PrunedHas(init, now, q);
        }
        SpacedAppend(Pruned(init, now), last);
      } else {
        assert Pruned(rows, now) == Pruned(init, now);
      }
    }
  }

  lemma RollKeepsSpacing<P>(rows: seq<Row<P>>, job: Job, avg: Averager<P>)
    requires Spaced(rows) && job.tier in TIERS && job.longerNow <= job.savedAt
    ensures Spaced(rows + Created(rows, job, avg))
  {
    assert job.tier == TIERS[0] || job.tier == TIERS[1] || job.tier == TIERS[2] || job.tier == TIERS[3];
    if Creates(rows, job) {
      var r := Created(rows, job, avg)[0];
      if Guarded(r.kind) {
        forall q <- rows | SameGroup(q, r) ensures r.created - q.created >= Gap(r.kind) {
          assert !IsLonger(q, job);
        }
      }
      SpacedAppend(rows, r);
    } else {
      assert rows + [] == rows;
    }
  }

  /** In every run, rows of one system, collection and guarded kind keep their distance, and none is from the future. */
  lemma {:induction false} RunKeepsSpacing<P>(steps: seq<Step<P>>, avg: Averager<P>)
    requires Monotone(steps)
    ensures Spaced(Table(steps, avg))
    ensures forall r <- Table(steps, avg) :: steps != [] && r.created <= TimeOf(steps[|steps| - 1])
  {
    if steps != [] {
      var init, step := steps[..|steps| - 1], steps[|steps| - 1];
      RunKeepsSpacing(init, avg);
      var rows := Table(init, avg);
      if init != [] {
        assert TimeOf(init[|init| - 1]) <= TimeOf(step);
      }
      match step
      case Insert(row) => SpacedAppend(rows, row);
      case Roll(job) => RollKeepsSpacing(rows, job, avg);
      case Prune(now) =>
        SpacedPruned(rows, now);
        forall r <- Pruned(rows, now) ensures r in rows {
          PrunedHas(rows, now, r);
        }
    }
  }

  /** The number of rows of one system, collection and kind. */
  function Count<P>(rows: seq<Row<P>>, c: Collection, system: string, k: Kind): nat {
    if rows == [] then 0 else
      var last := rows[|rows| - 1];
      Count(rows[..|rows| - 1], c, system, k) + if last.collection == c && last.system == system && last.kind == k
          then 1 else 0
  }

  lemma {:induction false} SpacedCount<P>(rows: seq<Row<P>>, c: Collection, system: string, k: Kind, lo: int, hi: int)
    requires Spaced(rows) && Guarded(k)
    requires forall r <- rows :: r.collection == c && r.system == system && r.kind == k ==> lo <= r.created <= hi
    ensures var n := Count(rows, c, system, k); n == 0 || n * Gap(k) <= hi - lo + Gap(k)
  {
    if rows != [] {
      var init, last := rows[..|rows| - 1], rows[|rows| - 1];
      assert last in rows;
      if last.collection == c && last.system == system && last.kind == k {
        SpacedCount(init, c, system, k, lo, last.created - Gap(k));
        var n := Count(init, c, system, k);
        assert (n + 1) * Gap(k) == n * Gap(k) + Gap(k);
      } else {
        SpacedCount(init, c, system, k, lo, hi);
      }
    }
  }

  lemma AtMost(n: nat, k: Kind)
    requires Guarded(k) && (n == 0 || n * Gap(k) <= Retention(k) + Gap(k))
    ensures n <= Retention(k) / Gap(k) + 1
    ensures Retention(k) / Gap(k) + 1 == match k case M20 => 76 case M120 => 85 case _ => 91
  {
    assert (n - 1) * Gap(k) == n * Gap(k) - Gap(k);
    if n > 0 {
      DivAtLeast(Retention(k), Gap(k), n - 1);
    }
  }

  lemma KeptBound<P>(rows: seq<Row<P>>, c: Collection, system: string, k: Kind, now: int)
    requires Spaced(rows) && Guarded(k) && forall r <- rows :: Kept(r, now) && r.created <= now
    ensures Count(rows, c, system, k) <= Retention(k) / Gap(k) + 1
  {
    SpacedCount(rows, c, system, k, now - Retention(k), now);
    AtMost(Count(rows, c, system, k), k);
  }

  /**
  Bounded storage: right after any pruning pass of any run, the rows of one system, collection and guarded kind
  number at most retention / (period - 1 minute) + 1: 76 "20m", 85 "120m" and 91 "480m" rows.
   */
  lemma BoundedStorage<P>(steps: seq<Step<P>>, avg: Averager<P>, c: Collection, system: string, k: Kind)
    requires Monotone(steps) && steps != [] && steps[|steps| - 1].Prune? && Guarded(k)
    ensures Count(Table(steps, avg), c, system, k) <= match k case M20 => 76 case M120 => 85 case _ => 91
  {
    var now := steps[|steps| - 1].now;
    RunKeepsSpacing(steps, avg);
    forall r <- Table(steps, avg) ensures Kept(r, now) {
      PrunedHas(Table(steps[..|steps| - 1], avg), now, r);
    }
    KeptBound(Table(steps, avg), c, system, k, now);
    AtMost(0, k);
  }

  // ---------------------------------------------------------------- the jobs as they run

  /** The table after a list of jobs. */
  function Rolled<P(==)>(rows: seq<Row<P>>, jobs: seq<Job>, avg: Averager<P>): seq<Row<P>> {
    if jobs == [] then rows else
      var before := Rolled(rows, jobs[..|jobs| - 1], avg);
      before + Created(before, jobs[|jobs| - 1], avg)
  }

  /** The jobs of one system and tier: both collections share the first two readings of the clock. */
  function TierJobs(system: string, tier: Tier, clock: nat -> int, k: nat): seq<Job> {
    [Job(system, tier, SystemStats, clock(k), clock(k + 1), clock(k + 2)),
     Job(system, tier, ContainerStats, clock(k), clock(k + 1), clock(k + 3))]
  }

  /** The jobs of the first t tiers of one system. */
  function SystemJobs(system: string, t: nat, clock: nat -> int, k: nat): seq<Job>
    requires t <= |TIERS|
  {
    if t == 0 then [] else SystemJobs(system, t - 1, clock, k) + TierJobs(system, TIERS[t - 1], clock, k + 4 * (t - 1))
  }

  /** The jobs of the first n systems. */
  function RunJobs(systems: seq<string>, n: nat, clock: nat -> int): seq<Job>
    requires n <= |systems|
  {
    if n == 0 then [] else RunJobs(systems, n - 1, clock) + SystemJobs(systems[n - 1], |TIERS|, clock, 16 * (n - 1))
  }

  class RecordManager<P(==)> {
    var rows: seq<Row<P>>

    constructor ()
      ensures rows == []
    {
      rows := [];
    }

    /** The body of the innermost loop. */
    method RunJob(job: Job, avg: Averager<P>)
      modifies this
      ensures rows == old(rows) + Created(old(rows), job, avg)
    {
      assert rows + [] == rows;
      if !job.tier.longer.M10? && Skips(rows, job) {
        return;
      }
      var sources := Sources(rows, job);
      if |sources| < job.tier.minShorter {
        return;
      }
      rows := rows + [Row(job.collection, job.system, job.tier.longer, job.savedAt, avg(job.collection, sources))];
    }

    method RunTier(system: string, tier: Tier, clock: nat -> int, k: nat, avg: Averager<P>)
      modifies this
      ensures rows == Rolled(old(rows), TierJobs(system, tier, clock, k), avg)
    {
      ghost var jobs := TierJobs(system, tier, clock, k);
      var longerNow, shorterNow := clock(k), clock(k + 1);
      for c := 0 to |COLLECTIONS|
        invariant rows == Rolled(old(rows), jobs[..c], avg)
      {
        RunJob(Job(system, tier, COLLECTIONS[c], longerNow, shorterNow, clock(k + 2 + c)), avg);
        RolledNext(old(rows), jobs, c, avg);
      }
      assert jobs[..2] == jobs;
    }

    method RunSystem(system: string, clock: nat -> int, k: nat, avg: Averager<P>)
      modifies this
      ensures rows == Rolled(old(rows), SystemJobs(system, |TIERS|, clock, k), avg)
    {
      hide TierJobs, Created;
      for t := 0 to |TIERS|
        invariant rows == Rolled(old(rows), SystemJobs(system, t, clock, k), avg)
      {
        RunTier(system, TIERS[t], clock, k + 4 * t, avg);
        RolledConcat(old(rows), SystemJobs(system, t, clock, k), TierJobs(system, TIERS[t], clock, k + 4 * t), avg);
      }
    }

    /** CreateLongerRecords over the systems that are up; `clock(n)` is the n-th reading of the time. */
    method CreateLongerRecords(systems: seq<string>, clock: nat -> int, avg: Averager<P>)
      modifies this
      ensures rows == Rolled(old(rows), RunJobs(systems, |systems|, clock), avg)
    {
      for i := 0 to |systems|
        invariant rows == Rolled(old(rows), RunJobs(systems, i, clock), avg)
      {
        RunSystem(systems[i], clock, 16 * i, avg);
        RolledConcat(old(rows), RunJobs(systems, i, clock), SystemJobs(systems[i], |TIERS|, clock, 16 * i), avg);
      }
    }

    /** deleteOldSystemStats: one DELETE per collection. */
    method DeleteOldSystemStats(now: int)
      modifies this
      ensures rows == Pruned(old(rows), now)
    {
      rows := DropExpired(rows, SystemStats, now);
      rows := DropExpired(rows, ContainerStats, now);
      BothDropped(old(rows), now);
    }
  }

  /** DELETE FROM one collection WHERE a row is older than its kind's retention. */
  function DropExpired<P>(rows: seq<Row<P>>, c: Collection, now: int): seq<Row<P>> {
    if rows == [] then [] else
      var last := rows[|rows| - 1];
      DropExpired(rows[..|rows| - 1], c, now) + if last.collection == c && last.created < now - Retention(last.kind)
          then [] else [last]
  }

  lemma {:induction false} BothDropped<P>(rows: seq<Row<P>>, now: int)
    ensures DropExpired(DropExpired(rows, SystemStats, now), ContainerStats, now) == Pruned(rows, now)
  {
    if rows != [] {
      var init, last := rows[..|rows| - 1], rows[|rows| - 1];
      BothDropped(init, now);
      var d := DropExpired(init, SystemStats, now);
      assert d + [] == d && (d + [last])[..|d|] == d;
    }
  }

  lemma RolledNext<P>(rows: seq<Row<P>>, jobs: seq<Job>, n: nat, avg: Averager<P>)
    requires n < |jobs|
    ensures var before := Rolled(rows, jobs[..n], avg);
            Rolled(rows, jobs[..n + 1], avg) == before + Created(before, jobs[n], avg)
  {
    assert jobs[..n + 1][..n] == jobs[..n];
  }

  lemma {:induction false} RolledConcat<P>(rows: seq<Row<P>>, a: seq<Job>, b: seq<Job>, avg: Averager<P>)
    ensures Rolled(rows, a + b, avg) == Rolled(Rolled(rows, a, avg), b, avg)
  {
    if b == [] {
      assert a + b == a;
    } else {
      assert (a + b)[..|a + b| - 1] == a + b[..|b| - 1];
      RolledConcat(rows, a, b[..|b| - 1], avg);
    }
  }

  /** A run only inserts: the table afterwards is the old one with the created rows at its end. */
  lemma {:induction false} RunOnlyInserts<P>(rows: seq<Row<P>>, jobs: seq<Job>, avg: Averager<P>)
    ensures Rolled(rows, jobs, avg) == rows + AllCreated(rows, jobs, avg)
  {
    if jobs == [] {
    } else {
      var init, j := jobs[..|jobs| - 1], jobs[|jobs| - 1];
      RunOnlyInserts(rows, init, avg);
      var before := AllCreated(rows, init, avg);
      Assoc(rows, before, Created(rows + before, j, avg));
    }
  }

  ghost predicate ClockMonotone(clock: nat -> int) {
    forall m: nat, n: nat :: m <= n ==> clock(m) <= clock(n)
  }

  /** Every job of a run that starts at or after a pruning pass meets the conditions of the theorems above. */
  lemma {:induction false} RunJobsNotBefore(systems: seq<string>, n: nat, clock: nat -> int, now: int)
    requires n <= |systems| && ClockMonotone(clock) && now <= clock(0)
    ensures forall j <- RunJobs(systems, n, clock) :: NotBefore(j, now) && j.longerNow <= j.savedAt
  {
    if n > 0 {
      RunJobsNotBefore(systems, n - 1, clock, now);
      SystemJobsNotBefore(systems[n - 1], |TIERS|, clock, 16 * (n - 1), now);
    }
  }

  lemma {:induction false} SystemJobsNotBefore(system: string, t: nat, clock: nat -> int, k: nat, now: int)
    requires t <= |TIERS| && ClockMonotone(clock) && now <= clock(0)
    ensures forall j <- SystemJobs(system, t, clock, k) :: NotBefore(j, now) && j.longerNow <= j.savedAt
  {
    if t > 0 {
      SystemJobsNotBefore(system, t - 1, clock, k, now);
      assert TIERS[t - 1] in TIERS;
    }
  }

  /** Pruning and roll-up commute on the tables as the two jobs leave them. */
  lemma PruneCommutesWithRun<P>(rows: seq<Row<P>>, systems: seq<string>, clock: nat -> int, now: int, avg: Averager<P>)
    requires ClockMonotone(clock) && now <= clock(0)
    ensures var jobs := RunJobs(systems, |systems|, clock);
            Rolled(Pruned(rows, now), jobs, avg) == Pruned(Rolled(rows, jobs, avg), now)
  {
    var jobs := RunJobs(systems, |systems|, clock);
    RunJobsNotBefore(systems, |systems|, clock, now);
    RunOnlyInserts(rows, jobs, avg);
    RunOnlyInserts(Pruned(rows, now), jobs, avg);
    PruneThenRoll(rows, jobs, now, avg);
  }
}
