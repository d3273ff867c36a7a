/**
What a run of CreateLongerRecords and of the deletion leaves in the tables (internal/records/records.go,
internal/records/records_deletion.go), stated on counts, minutes and times, group by group. A group is the rows of one
collection, system and kind.
 */
module RollUpLaws {
  import opened Basics
  import opened RollUp

  function ShorterOf(k: Kind): Kind {
    match k
    case M1 => M1
    case M10 => M1
    case M20 => M10
    case M120 => M20
    case M480 => M120
  }

  function MinutesOf(k: Kind): int {
    match k
    case M1 => 1
    case M10 => 10
    case M20 => 20
    case M120 => 120
    case M480 => 480
  }

  /** How many shorter rows a longer one takes. */
  function NeededOf(k: Kind): nat {
    match k
    case M1 => 0
    case M10 => 9
    case M20 => 2
    case M120 => 6
    case M480 => 4
  }

  function Group<P>(rows: seq<Row<P>>, c: Collection, system: string, k: Kind): seq<Row<P>> {
    if rows == [] then []
    else
      var last := rows[|rows| - 1];
      Group(rows[..|rows| - 1], c, system, k)
      + if last.collection == c && last.system == system && last.kind == k then [last] else []
  }

  /** The payloads of the rows newer than a time, in order. */
  function NewerThan<P>(rows: seq<Row<P>>, time: int): seq<P> {
    if rows == [] then []
    else
      var last := rows[|rows| - 1];
      NewerThan(rows[..|rows| - 1], time) + if last.created > time then [last.stats] else []
  }

  predicate AnyNewer<P(==)>(rows: seq<Row<P>>, time: int) {
    exists r <- rows :: r.created > time
  }

  // ---------------------------------------------------------------- one job

  lemma {:induction false} GroupHas<P>(rows: seq<Row<P>>, c: Collection, system: string, k: Kind, r: Row<P>)
    ensures r in Group(rows, c, system, k) <==> r in rows && r.collection == c && r.system == system && r.kind == k
  {
    if rows != [] {
      var init, last := rows[..|rows| - 1], rows[|rows| - 1];
      GroupHas(init, c, system, k, r);
      assert rows == init + [last];
    }
  }

  lemma {:induction false} GroupConcat<P>(a: seq<Row<P>>, b: seq<Row<P>>, c: Collection, system: string, k: Kind)
    ensures Group(a + b, c, system, k) == Group(a, c, system, k) + Group(b, c, system, k)
  {
    if b == [] {
      assert a + b == a;
    } else {
      assert (a + b)[..|a + b| - 1] == a + b[..|b| - 1];
      GroupConcat(a, b[..|b| - 1], c, system, k);
    }
  }

  lemma {:induction false} SourcesAre<P>(rows: seq<Row<P>>, j: Job)
    ensures Sources(rows, j) == NewerThan(Group(rows, j.collection, j.system, j.tier.shorter), ShorterAfter(j))
  {
    if rows != [] {
      var init, last := rows[..|rows| - 1], rows[|rows| - 1];
      SourcesAre(init, j);
      var g := Group(init, j.collection, j.system, j.tier.shorter);
      assert (g + [last])[..|g|] == g && g + [] == g;
      assert Sources(init, j) + [] == Sources(init, j);
    }
  }

  /**
  A row of kind k is due: enough rows of the shorter kind are newer than the kind's minutes, and, above "10m", no row of
  the kind itself is newer than its minutes less one.
   */
  predicate IsDue<P(==)>(longer: seq<Row<P>>, shorter: seq<Row<P>>, k: Kind, longerNow: int, shorterNow: int) {
    && |NewerThan(shorter, shorterNow - MinutesOf(k) * 60_000)| >= NeededOf(k)
    && (k == M10 || !AnyNewer(longer, longerNow - (MinutesOf(k) - 1) * 60_000))
  }

  /** The kinds in the order of their tiers. */
  const KINDS := [M10, M20, M120, M480]

  lemma TierIs(t: nat)
    requires t < |TIERS|
    ensures t < |KINDS| && TIERS[t].longer == KINDS[t] && TIERS[t].shorter == ShorterOf(KINDS[t])
    ensures TIERS[t].minutes == MinutesOf(KINDS[t]) && TIERS[t].minShorter == NeededOf(KINDS[t])
  {
  }

  lemma AnyLonger<P>(rows: seq<Row<P>>, j: Job, k: Kind)
    requires j.tier.longer == k
    ensures (exists r <- rows :: IsLonger(r, j)) <==> AnyNewer(Group(rows, j.collection, j.system, k), LongerAfter(j))
  {
    var g := Group(rows, j.collection, j.system, k);
    if r :| r in rows && IsLonger(r, j) {
      GroupHas(rows, j.collection, j.system, k, r);
      assert r in g;
    }
    if r :| r in g && r.created > LongerAfter(j) {
      GroupHas(rows, j.collection, j.system, k, r);
      assert IsLonger(r, j);
    }
  }

  /** The row of kind k that a job inserts: one if it is due, none otherwise. */
  function DueRow<P(==)>(longer: seq<Row<P>>, shorter: seq<Row<P>>, c: Collection, system: string, k: Kind,
                         longerNow: int, shorterNow: int, savedAt: int, avg: Averager<P>): seq<Row<P>>
  {
    if IsDue(longer, shorter, k, longerNow, shorterNow)
    then [Row(c, system, k, savedAt, avg(c, NewerThan(shorter, shorterNow - MinutesOf(k) * 60_000)))] else []
  }

  /** Exact: a job inserts one row of its longer kind if it is due, and nothing otherwise. */
  lemma JobInserts<P>(rows: seq<Row<P>>, j: Job, t: nat, avg: Averager<P>)
    requires t < |TIERS| && j.tier == TIERS[t]
    ensures var k := KINDS[t];
            Created(rows, j, avg) == DueRow(Group(rows, j.collection, j.system, k),
                                            Group(rows, j.collection, j.system, ShorterOf(k)),
                                            j.collection, j.system, k, j.longerNow, j.shorterNow, j.savedAt, avg)
  {
    hide Sources, Group, NewerThan, AnyNewer;
    TierIs(t);
    SourcesAre(rows, j);
    AnyLonger(rows, j, KINDS[t]);
  }

  // ---------------------------------------------------------------- the jobs of a run

  predicate Makes(j: Job, c: Collection, system: string, k: Kind) {
    j.collection == c && j.system == system && j.tier.longer == k
  }

  predicate NoneMakes(jobs: seq<Job>, c: Collection, system: string, k: Kind) {
    forall i :: 0 <= i < |jobs| ==> !Makes(jobs[i], c, system, k)
  }

  lemma OneOtherJob<P>(rows: seq<Row<P>>, j: Job, avg: Averager<P>, c: Collection, system: string, k: Kind)
    requires !Makes(j, c, system, k)
    ensures Group(rows + Created(rows, j, avg), c, system, k) == Group(rows, c, system, k)
  {
    hide Creates, Sources;
    var created := Created(rows, j, avg);
    GroupConcat(rows, created, c, system, k);
    assert created == [] || created[..0] == [];
    assert Group(created, c, system, k) == [];
  }

  /** Jobs of other groups leave a group alone. */
  lemma {:induction false} OtherJobs<P>(rows: seq<Row<P>>, jobs: seq<Job>, avg: Averager<P>, c: Collection,
                                        system: string, k: Kind)
    requires NoneMakes(jobs, c, system, k)
    ensures Group(Rolled(rows, jobs, avg), c, system, k) == Group(rows, c, system, k)
  {
    hide Created, Group, Makes;
    if jobs != [] {
      var n := |jobs| - 1;
      OtherJobs(rows, jobs[..n], avg, c, system, k);
      OneOtherJob(Rolled(rows, jobs[..n], avg), jobs[n], avg, c, system, k);
    }
  }

  function CollectionAt(x: nat): Collection {
    if x == 0 then SystemStats else ContainerStats
  }

  /** The job of tier t and collection x for the system whose readings of the clock begin at k. */
  function JobOf(system: string, clock: nat -> int, k: nat, t: nat, x: nat): Job
    requires t < 4
  {
    Job(system, TIERS[t], CollectionAt(x), clock(k + 4 * t), clock(k + 4 * t + 1), clock(k + 4 * t + 2 + x))
  }

  /** No job before it makes the kind of its tier or a longer one, and none after it that or a shorter one. */
  predicate Splits(a: seq<Job>, b: seq<Job>, c: Collection, system: string, t: nat) {
    && (forall u :: t <= u < 4 ==> NoneMakes(a, c, system, KINDS[u]))
    && (forall u :: 0 <= u <= t && u < 4 ==> NoneMakes(b, c, system, KINDS[u]))
  }

  lemma ConcatMakes(a: seq<Job>, b: seq<Job>, c: Collection, system: string, k: Kind)
    requires NoneMakes(a, c, system, k) && NoneMakes(b, c, system, k)
    ensures NoneMakes(a + b, c, system, k)
  {
  }

  lemma KindsDiffer(t: nat, u: nat)
    requires t < 4 && u < 4 && t != u
    ensures KINDS[t] != KINDS[u] && TIERS[t].longer == KINDS[t]
  {
    TierIs(t);
  }

  lemma {:induction false} SystemJobsMake(system: string, n: nat, clock: nat -> int, k: nat, c: Collection,
                                          other: string, u: nat)
    requires n <= |TIERS| && u < 4 && (other != system || n <= u)
    ensures NoneMakes(SystemJobs(system, n, clock, k), c, other, KINDS[u])
  {
    if n > 0 {
      SystemJobsMake(system, n - 1, clock, k, c, other, u);
      if other == system {
        KindsDiffer(n - 1, u);
      }
      ConcatMakes(SystemJobs(system, n - 1, clock, k), TierJobs(system, TIERS[n - 1], clock, k + 4 * (n - 1)), c, other,
                  KINDS[u]);
    }
  }

  lemma {:induction false} SplitSystem(system: string, n: nat, clock: nat -> int, k: nat, t: nat, x: nat)
    returns (a: seq<Job>, b: seq<Job>)
    requires t < n <= |TIERS| && x < 2
    ensures SystemJobs(system, n, clock, k) == a + [JobOf(system, clock, k, t, x)] + b
    ensures Splits(a, b, CollectionAt(x), system, t)
  {
    var before, last := SystemJobs(system, n - 1, clock, k), TierJobs(system, TIERS[n - 1], clock, k + 4 * (n - 1));
    if t < n - 1 {
      var rest;
      a, rest := SplitSystem(system, n - 1, clock, k, t, x);
      b := rest + last;
      forall u | 0 <= u <= t ensures NoneMakes(b, CollectionAt(x), system, KINDS[u]) {
        KindsDiffer(n - 1, u);
        ConcatMakes(rest, last, CollectionAt(x), system, KINDS[u]);
      }
      assert a + [JobOf(system, clock, k, t, x)] + rest + last == a + [JobOf(system, clock, k, t, x)] + b;
    } else {
      a, b := before + last[..x], last[x + 1..];
      assert last[x] == JobOf(system, clock, k, t, x);
      assert last == last[..x] + [last[x]] + last[x + 1..];
      forall u | t <= u < 4 ensures NoneMakes(a, CollectionAt(x), system, KINDS[u]) {
        SystemJobsMake(system, n - 1, clock, k, CollectionAt(x), system, u);
        ConcatMakes(before, last[..x], CollectionAt(x), system, KINDS[u]);
      }
    }
  }

  predicate Distinct(systems: seq<string>) {
    forall i, j :: 0 <= i < j < |systems| ==> systems[i] != systems[j]
  }

  lemma {:induction false} RunJobsMake(systems: seq<string>, n: nat, clock: nat -> int, c: Collection, system: string,
                                       u: nat)
    requires n <= |systems| && u < 4 && forall i :: 0 <= i < n ==> systems[i] != system
    ensures NoneMakes(RunJobs(systems, n, clock), c, system, KINDS[u])
  {
    if n > 0 {
      RunJobsMake(systems, n - 1, clock, c, system, u);
      SystemJobsMake(systems[n - 1], 4, clock, 16 * (n - 1), c, system, u);
      ConcatMakes(RunJobs(systems, n - 1, clock), SystemJobs(systems[n - 1], 4, clock, 16 * (n - 1)), c, system,
                  KINDS[u]);
    }
  }

  /** A run over distinct systems has one job for each given system, tier and collection. */
  lemma {:induction false} SplitRun(systems: seq<string>, n: nat, clock: nat -> int, i: nat, t: nat, x: nat)
    returns (a: seq<Job>, b: seq<Job>)
    requires Distinct(systems) && i < n <= |systems| && t < 4 && x < 2
    ensures RunJobs(systems, n, clock) == a + [JobOf(systems[i], clock, 16 * i, t, x)] + b
    ensures Splits(a, b, CollectionAt(x), systems[i], t)
  {
    hide SystemJobs, NoneMakes;
    var j, c := JobOf(systems[i], clock, 16 * i, t, x), CollectionAt(x);
    var before, last := RunJobs(systems, n - 1, clock), SystemJobs(systems[n - 1], 4, clock, 16 * (n - 1));
    if i < n - 1 {
      var rest;
      a, rest := SplitRun(systems, n - 1, clock, i, t, x);
      b := rest + last;
      forall u | 0 <= u <= t ensures NoneMakes(b, c, systems[i], KINDS[u]) {
        SystemJobsMake(systems[n - 1], 4, clock, 16 * (n - 1), c, systems[i], u);
        ConcatMakes(rest, last, c, systems[i], KINDS[u]);
      }
      assert a + [j] + rest + last == a + [j] + b;
    } else {
      var first;
      first, b := SplitSystem(systems[i], 4, clock, 16 * i, t, x);
      a := before + first;
      forall u | t <= u < 4 ensures NoneMakes(a, c, systems[i], KINDS[u]) {
        RunJobsMake(systems, n - 1, clock, c, systems[i], u);
        ConcatMakes(before, first, c, systems[i], KINDS[u]);
      }
      assert before + (first + [j] + b) == a + [j] + b;
    }
  }

  lemma RolledThree<P>(rows: seq<Row<P>>, a: seq<Job>, j: Job, b: seq<Job>, avg: Averager<P>)
    ensures var before := Rolled(rows, a, avg);
            Rolled(rows, a + [j] + b, avg) == Rolled(before + Created(before, j, avg), b, avg)
  {
    RolledConcat(rows, a + [j], b, avg);
    assert (a + [j])[..|a|] == a;
  }

  lemma {:induction false} NoMinuteRows(systems: seq<string>, n: nat, clock: nat -> int, c: Collection, system: string)
    requires n <= |systems|
    ensures NoneMakes(RunJobs(systems, n, clock), c, system, M1)
  {
    if n > 0 {
      NoMinuteRows(systems, n - 1, clock, c, system);
      NoSystemMinuteRows(systems[n - 1], 4, clock, 16 * (n - 1), c, system);
    }
  }

  lemma {:induction false} NoSystemMinuteRows(system: string, n: nat, clock: nat -> int, k: nat, c: Collection,
                                              other: string)
    requires n <= |TIERS|
    ensures NoneMakes(SystemJobs(system, n, clock, k), c, other, M1)
  {
    if n > 0 {
      NoSystemMinuteRows(system, n - 1, clock, k, c, other);
      TierIs(n - 1);
    }
  }

  lemma PartsMake(a: seq<Job>, j: Job, b: seq<Job>, c: Collection, system: string, k: Kind)
    requires NoneMakes(a + [j] + b, c, system, k)
    ensures !Makes(j, c, system, k) && NoneMakes(b, c, system, k)
  {
    assert (a + [j] + b)[|a|] == j;
    forall i | 0 <= i < |b| ensures !Makes(b[i], c, system, k) {
      assert (a + [j] + b)[|a| + 1 + i] == b[i];
    }
  }

  /** What comes after the job leaves the shorter rows alone. */
  lemma ShorterUnmade(systems: seq<string>, clock: nat -> int, i: nat, t: nat, x: nat, a: seq<Job>, b: seq<Job>)
    requires i < |systems| && t < 4 && x < 2 && Splits(a, b, CollectionAt(x), systems[i], t)
    requires RunJobs(systems, |systems|, clock) == a + [JobOf(systems[i], clock, 16 * i, t, x)] + b
    ensures var c, k := CollectionAt(x), ShorterOf(KINDS[t]);
            NoneMakes(b, c, systems[i], k) && !Makes(JobOf(systems[i], clock, 16 * i, t, x), c, systems[i], k)
  {
    if t == 0 {
      NoMinuteRows(systems, |systems|, clock, CollectionAt(x), systems[i]);
      PartsMake(a, JobOf(systems[i], clock, 16 * i, t, x), b, CollectionAt(x), systems[i], M1);
    } else {
      KindsDiffer(t, t - 1);
      assert ShorterOf(KINDS[t]) == KINDS[t - 1];
    }
  }

  /**
  Exact: after a run over distinct systems, the rows of every given system, collection and kind above "1m" are those
  from before and, if a row is due, one more. It is due by the rows of the kind from before the run and the shorter rows
  the run leaves, and averages those of them that are newer than the kind's minutes.
   */
  lemma RunCreates<P>(rows: seq<Row<P>>, systems: seq<string>, clock: nat -> int, avg: Averager<P>,
                      i: nat, t: nat, x: nat)
    requires Distinct(systems) && i < |systems| && t < 4 && x < 2
    ensures var c, k, at := CollectionAt(x), KINDS[t], 16 * i + 4 * t;
            var after := Rolled(rows, RunJobs(systems, |systems|, clock), avg);
            var longer, shorter := Group(rows, c, systems[i], k), Group(after, c, systems[i], ShorterOf(k));
            Group(after, c, systems[i], k)
            == longer + DueRow(longer, shorter, c, systems[i], k, clock(at), clock(at + 1), clock(at + 2 + x), avg)
  {
    hide Rolled, Group, IsDue, RunJobs, Created, NoneMakes;
    var c, k, j := CollectionAt(x), KINDS[t], JobOf(systems[i], clock, 16 * i, t, x);
    var a, b := SplitRun(systems, |systems|, clock, i, t, x);
    ShorterUnmade(systems, clock, i, t, x, a, b);
    RolledThree(rows, a, j, b, avg);
    var before := Rolled(rows, a, avg);
    var next := before + Created(before, j, avg);
    JobInserts(before, j, t, avg);
    OtherJobs(rows, a, avg, c, systems[i], k);
    OtherJobs(next, b, avg, c, systems[i], k);
    OtherJobs(next, b, avg, c, systems[i], ShorterOf(k));
    OneOtherJob(before, j, avg, c, systems[i], ShorterOf(k));
    GroupConcat(before, Created(before, j, avg), c, systems[i], k);
    SingleGroup(Created(before, j, avg), c, systems[i], k);
  }

  lemma SingleGroup<P>(rows: seq<Row<P>>, c: Collection, system: string, k: Kind)
    requires |rows| <= 1 && forall r <- rows :: r.collection == c && r.system == system && r.kind == k
    ensures Group(rows, c, system, k) == rows
  {
    if rows != [] {
      assert rows == [rows[0]] && rows[..0] == [];
    }
  }

  /** And all other groups are as before. */
  lemma RunLeavesOthers<P>(rows: seq<Row<P>>, systems: seq<string>, clock: nat -> int, avg: Averager<P>, c: Collection,
                           system: string, k: Kind)
    requires k == M1 || system !in systems
    ensures Group(Rolled(rows, RunJobs(systems, |systems|, clock), avg), c, system, k) == Group(rows, c, system, k)
  {
    hide Rolled, Group, RunJobs, NoneMakes;
    if k == M1 {
      NoMinuteRows(systems, |systems|, clock, c, system);
    } else {
      var u := if k == M10 then 0 else if k == M20 then 1 else if k == M120 then 2 else 3;
      RunJobsMake(systems, |systems|, clock, c, system, u);
    }
    OtherJobs(rows, RunJobs(systems, |systems|, clock), avg, c, system, k);
  }

  // ---------------------------------------------------------------- deletion

  /** How long rows of a kind are kept: an hour, twelve hours, a day, a week and thirty days. */
  function HoursOf(k: Kind): int {
    match k
    case M1 => 1
    case M10 => 12
    case M20 => 24
    case M120 => 7 * 24
    case M480 => 30 * 24
  }

  /** Exact: the deletion removes every copy of a row that is older than its kind's hours, and no other row. */
  lemma {:induction false} DeletesExpired<P>(rows: seq<Row<P>>, now: int, r: Row<P>)
    ensures multiset(Pruned(rows, now))[r]
         == if r.created < now - HoursOf(r.kind) * 3_600_000 then 0 else multiset(rows)[r]
  {
    if rows != [] {
      var init, last := rows[..|rows| - 1], rows[|rows| - 1];
      DeletesExpired(init, now, r);
      assert rows == init + [last];
      assert multiset(rows)[r] == multiset(init)[r] + if r == last then 1 else 0;
      assert Kept(last, now) <==> last.created >= now - HoursOf(last.kind) * 3_600_000;
    }
  }
}
