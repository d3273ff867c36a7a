/**
Averaging and roll-up together: every row of the system_stats table is the average of a tree of averages, one level per
tier, whose leaves are "1m" rows that agents sent within the tiers' windows before the row. So the peaks of the stored
rows are peaks of what was sent in their own time.
 */
module StoredPeaks {
  import opened Basics
  import A = Averages
  import M = AverageLaws
  import L = RollUpLaws
  import R = RollUp

  type Row = R.Row<A.Stats>
  type Steps = seq<R.Step<A.Stats>>

  /** system_stats rows are averaged as records.go does; container_stats rows in any way. */
  function Averager(containers: seq<A.Stats> -> A.Stats): R.Averager<A.Stats> {
    (c: R.Collection, ps: seq<A.Stats>) => if c.SystemStats? then A.Average(ps) else containers(ps)
  }

  predicate Sends(step: R.Step<A.Stats>, system: string, from: int, to: int) {
    && step.Insert? && step.row.collection.SystemStats? && step.row.system == system
    && from <= step.row.created <= to
  }

  /** The payloads of the rows agents sent for a system in a span of time. */
  function Sent(steps: Steps, system: string, from: int, to: int): set<A.Stats> {
    set i | 0 <= i < |steps| && Sends(steps[i], system, from, to) :: steps[i].row.stats
  }

  /** The tiers below a kind. */
  function Depth(k: R.Kind): nat {
    match k
    case M1 => 0
    case M10 => 1
    case M20 => 2
    case M120 => 3
    case M480 => 4
  }

  /** The sum of their windows, in minutes. */
  function Reach(k: R.Kind): nat {
    match k
    case M1 => 0
    case M10 => 10
    case M20 => 30
    case M120 => 150
    case M480 => 630
  }

  /** Where the leaves of a row begin, when no job takes longer than `lag` from reading its rows to saving its own. */
  function From(r: Row, lag: nat): int {
    r.created - Reach(r.kind) * MINUTE - Depth(r.kind) * lag
  }

  predicate Prompt(steps: Steps, lag: nat) {
    forall i :: 0 <= i < |steps| && steps[i].Roll? ==> steps[i].job.savedAt - steps[i].job.shorterNow <= lag
  }

  /**
  A tree for a row of kind k: a leaf for "1m", otherwise a node over trees of the kind below, all leaves among `sent`.
   */
  predicate TreeOf(t: A.Tree, k: R.Kind, sent: set<A.Stats>)
    decreases t
  {
    match t
    case Leaf(stats) => k.M1? && stats in sent
    case Node(children) => !k.M1? && forall c <- children :: TreeOf(c, L.ShorterOf(k), sent)
  }

  /** The tree is that of the row, with leaves sent for its system in its own time. */
  predicate Explains(t: A.Tree, r: Row, steps: Steps, lag: nat) {
    TreeOf(t, r.kind, Sent(steps, r.system, From(r, lag), r.created)) && A.Rolled(t) == r.stats
  }

  ghost predicate Explained(r: Row, steps: Steps, lag: nat) {
    r.collection.SystemStats? ==> exists t :: Explains(t, r, steps, lag)
  }

  lemma {:induction false} MoreSent(t: A.Tree, k: R.Kind, sent: set<A.Stats>, more: set<A.Stats>)
    requires TreeOf(t, k, sent) && sent <= more
    ensures TreeOf(t, k, more)
    decreases t
  {
    if t.Node? {
      forall c <- t.children ensures TreeOf(c, L.ShorterOf(k), more) {
        MoreSent(c, L.ShorterOf(k), sent, more);
      }
    }
  }

  lemma SentGrows(steps: Steps, n: nat, system: string, from: int, to: int, before: int, after: int)
    requires n <= |steps| && before <= from && to <= after
    ensures Sent(steps[..n], system, from, to) <= Sent(steps, system, before, after)
  {
    forall p <- Sent(steps[..n], system, from, to) ensures p in Sent(steps, system, before, after) {
      var i :| 0 <= i < n && Sends(steps[..n][i], system, from, to) && steps[..n][i].row.stats == p;
      assert Sends(steps[i], system, before, after);
    }
  }

  lemma StaysExplained(r: Row, steps: Steps, n: nat, lag: nat)
    requires n <= |steps| && Explained(r, steps[..n], lag)
    ensures Explained(r, steps, lag)
  {
    if r.collection.SystemStats? {
      var t :| Explains(t, r, steps[..n], lag);
      var from := From(r, lag);
      SentGrows(steps, n, r.system, from, r.created, from, r.created);
      MoreSent(t, r.kind, Sent(steps[..n], r.system, from, r.created), Sent(steps, r.system, from, r.created));
      assert Explains(t, r, steps, lag);
    }
  }

  /** The trees of the rows a job averages, with leaves in the job's own time. */
  lemma {:induction false} SourceTrees(rows: seq<Row>, job: R.Job, steps: Steps, lag: nat, r: Row)
    returns (ts: seq<A.Tree>)
    requires job.collection.SystemStats? && job.tier in R.TIERS && job.savedAt - job.shorterNow <= lag
    requires forall q <- rows :: Explained(q, steps, lag) && q.created <= job.savedAt
    requires r.system == job.system && r.created == job.savedAt && r.kind == job.tier.longer
    ensures A.RolledAll(ts) == R.Sources(rows, job)
    ensures forall t <- ts :: TreeOf(t, job.tier.shorter, Sent(steps, r.system, From(r, lag), r.created))
  {
    if rows == [] {
      ts := [];
    } else {
      var init, last := rows[..|rows| - 1], rows[|rows| - 1];
      ts := SourceTrees(init, job, steps, lag, r);
      if R.IsShorter(last, job) {
        assert Explained(last, steps, lag);
        var t :| Explains(t, last, steps, lag);
        SourceTree(t, last, job, steps, lag, r);
        assert (ts + [t])[..|ts|] == ts;
        ts := ts + [t];
      } else {
        assert R.Sources(init, job) + [] == R.Sources(init, job);
      }
    }
  }

  lemma SourceTree(t: A.Tree, q: Row, job: R.Job, steps: Steps, lag: nat, r: Row)
    requires Explains(t, q, steps, lag) && R.IsShorter(q, job) && q.created <= job.savedAt
    requires job.tier in R.TIERS && job.savedAt - job.shorterNow <= lag
    requires r.system == job.system && r.created == job.savedAt && r.kind == job.tier.longer
    ensures TreeOf(t, job.tier.shorter, Sent(steps, r.system, From(r, lag), r.created))
  {
    assert job.tier == R.TIERS[0] || job.tier == R.TIERS[1] || job.tier == R.TIERS[2] || job.tier == R.TIERS[3];
    assert From(r, lag) <= From(q, lag);
    assert steps[..|steps|] == steps;
    SentGrows(steps, |steps|, r.system, From(q, lag), q.created, From(r, lag), r.created);
    MoreSent(t, q.kind, Sent(steps, r.system, From(q, lag), q.created), Sent(steps, r.system, From(r, lag), r.created));
  }

  lemma CreatedExplained(rows: seq<Row>, job: R.Job, steps: Steps, lag: nat, containers: seq<A.Stats> -> A.Stats,
                         r: Row)
    requires job.tier in R.TIERS && job.savedAt - job.shorterNow <= lag
             && r in R.Created(rows, job, Averager(containers))
    requires forall q <- rows :: Explained(q, steps, lag) && q.created <= job.savedAt
    ensures Explained(r, steps, lag)
  {
    assert job.tier == R.TIERS[0] || job.tier == R.TIERS[1] || job.tier == R.TIERS[2] || job.tier == R.TIERS[3];
    if job.collection.SystemStats? {
      var ts := SourceTrees(rows, job, steps, lag, r);
      assert Explains(A.Node(ts), r, steps, lag);
    }
  }

  lemma LeafExplained(steps: Steps, n: nat, lag: nat)
    requires n < |steps| && steps[n].Insert? && steps[n].row.kind.M1?
    ensures Explained(steps[n].row, steps, lag)
  {
    var r := steps[n].row;
    if r.collection.SystemStats? {
      assert Sends(steps[n], r.system, From(r, lag), r.created);
      assert Explains(A.Leaf(r.stats), r, steps, lag);
    }
  }

  /** In every run, every stored row is such an average. */
  lemma {:induction false} RowsExplained(steps: Steps, containers: seq<A.Stats> -> A.Stats, lag: nat, r: Row)
    requires R.Monotone(steps) && Prompt(steps, lag) && r in R.Table(steps, Averager(containers))
    ensures Explained(r, steps, lag)
    decreases |steps|
  {
    hide Explained;
    var n := |steps| - 1;
    var init, step, avg := steps[..n], steps[n], Averager(containers);
    var rows := R.Table(init, avg);
    assert R.Monotone(init) && R.StepOk(step);
    forall q <- rows ensures Explained(q, steps, lag) && q.created <= R.TimeOf(step) {
      RowsExplained(init, containers, lag, q);
      StaysExplained(q, steps, n, lag);
      R.RunKeepsSpacing(init, avg);
      assert R.TimeOf(steps[n - 1]) <= R.TimeOf(step);
    }
    match step
    case Insert(row) => LeafExplained(steps, n, lag);
    case Roll(job) =>
      if r !in rows {
        CreatedExplained(rows, job, steps, lag, containers, r);
      }
    case Prune(now) => R.PrunedHas(rows, now, r);
  }

  lemma {:induction false} TreeNonNegative(t: A.Tree, k: R.Kind, sent: set<A.Stats>, s: A.Series)
    requires TreeOf(t, k, sent) && forall p <- sent :: A.Get(p, s) >= 0 && A.Get(p, A.Peak(s)) >= 0
    ensures A.NonNegative(t, s)
    decreases t
  {
    if t.Node? {
      forall c <- t.children ensures A.NonNegative(c, s) {
        TreeNonNegative(c, L.ShorterOf(k), sent, s);
      }
    }
  }

  /**
  In every run of inserts, roll-ups and pruning, the peak a stored longer row carries is the largest value among the
  leaves of a tree of "1m" rows sent for its system in its own time: from the windows of its tiers, plus what the jobs
  took, before the row, to the row.
   */
  lemma StoredPeak(steps: Steps, containers: seq<A.Stats> -> A.Stats, lag: nat, r: Row, s: A.Series)
    requires R.Monotone(steps) && Prompt(steps, lag) && r in R.Table(steps, Averager(containers))
    requires r.collection.SystemStats? && !r.kind.M1? && M.HasMaxField(s)
    requires forall p <- Sent(steps, r.system, From(r, lag), r.created) :: A.Get(p, s) >= 0 && A.Get(p, A.Peak(s)) >= 0
    ensures exists t ::
              && Explains(t, r, steps, lag) && A.Get(r.stats, A.Peak(s)) == A.LargestLeaf(t, s)
              && M.IsTop(A.Get(r.stats, A.Peak(s)), M.Leaves(t), s)
  {
    RowsExplained(steps, containers, lag, r);
    var t :| Explains(t, r, steps, lag);
    TreeNonNegative(t, r.kind, Sent(steps, r.system, From(r, lag), r.created), s);
    M.TrackedIs(s);
    A.PeakSurvives(t, s);
    M.MaxFieldSurvives(t, s);
  }

  // ---------------------------------------------------------------- nothing is missed by the first tier

  /** A row an agent sent stays in the table for an hour. */
  lemma {:induction false} InsertedStays(steps: Steps, i: nat, avg: R.Averager<A.Stats>)
    requires R.Monotone(steps) && i < |steps| && steps[i].Insert?
    requires R.TimeOf(steps[|steps| - 1]) - 60 * MINUTE <= steps[i].row.created
    ensures steps[i].row in R.Table(steps, avg)
    decreases |steps|
  {
    var n := |steps| - 1;
    assert R.StepOk(steps[i]);
    if i < n {
      assert R.TimeOf(steps[n - 1]) <= R.TimeOf(steps[n]);
      InsertedStays(steps[..n], i, avg);
      if steps[n].Prune? {
        R.PrunedHas(R.Table(steps[..n], avg), steps[n].now, steps[i].row);
      }
    }
  }

  lemma {:induction false} SourceIn(rows: seq<Row>, job: R.Job, q: Row)
    requires q in rows && R.IsShorter(q, job)
    ensures q.stats in R.Sources(rows, job)
  {
    var init, last := rows[..|rows| - 1], rows[|rows| - 1];
    assert rows == init + [last];
    if q in init {
      SourceIn(init, job, q);
    }
  }

  /**
  A "10m" row misses nothing: its peak is at least every value sent for its system in the ten minutes before the job
  read its rows, as long as it took less than fifty minutes to save its own.
   */
  lemma NoPeakMissed(steps: Steps, containers: seq<A.Stats> -> A.Stats, job: R.Job, i: nat, r: Row, s: A.Series)
    requires R.Monotone(steps) && steps != [] && R.TimeOf(steps[|steps| - 1]) <= job.savedAt
    requires job.tier == R.TIERS[0] && job.collection.SystemStats? && job.savedAt - job.shorterNow <= 50 * MINUTE
    requires r in R.Created(R.Table(steps, Averager(containers)), job, Averager(containers))
    requires i < |steps| && Sends(steps[i], job.system, R.ShorterAfter(job) + 1, job.savedAt)
    requires M.HasMaxField(s) && forall p <- R.Sources(R.Table(steps, Averager(containers)), job) :: A.Get(p, s) >= 0
    ensures A.Top(steps[i].row.stats, s) <= A.Get(r.stats, A.Peak(s))
  {
    var avg := Averager(containers);
    var rows := R.Table(steps, avg);
    assert R.StepOk(steps[i]);
    InsertedStays(steps, i, avg);
    SourceIn(rows, job, steps[i].row);
    var rs := R.Sources(rows, job);
    M.TrackedIs(s);
    A.AveragePeak(rs, s);
    A.LargestHolds(rs, s, steps[i].row.stats);
    A.LargestHolds(rs, A.Peak(s), steps[i].row.stats);
  }
}
