/**
What AverageSystemStatsSlice (internal/records/records.go) computes, series by series, on the values of the records:
which are rounded means, which are truncated, which are largest values, and which fields have a Max field beside them.
 */
module AverageLaws {
  import opened Arith
  import opened Averages

  // ---------------------------------------------------------------- rounding

  function Abs(x: int): int {
    if x < 0 then -x else x
  }

  /** x is an integer nearest to a / n, and of two the one further from zero. */
  predicate IsNearest(x: int, a: int, n: nat) {
    2 * Abs(n * x - a) <= n && (2 * Abs(n * x - a) == n ==> Abs(n * x) > Abs(a))
  }

  lemma RoundsHalfUp(a: nat, n: nat)
    requires n > 0
    ensures var x := (2 * a + n) / (2 * n); 0 - n < 2 * (a - n * x) < n || 2 * (n * x - a) == n
  {
    var x := (2 * a + n) / (2 * n);
    DivMod(2 * a + n, 2 * n);
    assert x * (2 * n) == 2 * (n * x);
  }

  lemma RoundsToNearest(a: int, n: nat)
    requires n > 0
    ensures IsNearest(RoundDiv(a, n), a, n)
  {
    var x := RoundDiv(a, n);
    if a >= 0 {
      RoundsHalfUp(a, n);
    } else {
      RoundsHalfUp(-a, n);
      assert n * x == -(n * -x);
    }
  }

  // ---------------------------------------------------------------- means

  function Values(rs: seq<Stats>, s: Series): seq<int> {
    seq(|rs|, i requires 0 <= i < |rs| => if s in rs[i] then rs[i][s] else 0)
  }

  function Plus(xs: seq<int>): int {
    if xs == [] then 0 else Plus(xs[..|xs| - 1]) + xs[|xs| - 1]
  }

  lemma {:induction false} SumIsPlus(rs: seq<Stats>, s: Series)
    ensures Sum(rs, s) == Plus(Values(rs, s))
  {
    if rs != [] {
      SumIsPlus(rs[..|rs| - 1], s);
      assert Values(rs, s)[..|rs| - 1] == Values(rs[..|rs| - 1], s);
    }
  }

  /** The float64 fields: of the host, of filesystems and GPUs, and the CPU breakdown. */
  predicate IsFloat(s: Series) {
    s.Host? || s.Fs? || s.Gpu? || s.Breakdown?
  }

  /** The uint64 fields that are rates. */
  predicate IsUint64(s: Series) {
    s.Bandwidth? || s.DiskIO? || s.FsBytes? || s.Nic?
  }

  predicate IsFloor(x: int, a: int, n: nat) {
    n * x <= a < n * x + n
  }

  lemma FloorDiv(a: int, n: nat)
    requires n > 0
    ensures IsFloor(a / n, a, n)
  {
    DivMod(a, n);
  }

  /** The average holds exactly the series of the records, and a Max field for each of them that has one. */
  lemma {:induction false} AveragedSeries(rs: seq<Stats>, s: Series)
    ensures s in Average(rs)
            <==> exists r <- rs :: s in r || (s.Peak? && HasMaxField(s.of) && s.of in r)
  {
    SeriesOfRecords(rs, s);
  }

  lemma {:induction false} SeriesOfRecords(rs: seq<Stats>, s: Series)
    ensures s in SeriesOf(rs) <==> exists r <- rs :: s in r || (s.Peak? && HasMaxField(s.of) && s.of in r)
  {
    if rs != [] {
      var init, last := rs[..|rs| - 1], rs[|rs| - 1];
      SeriesOfRecords(init, s);
      assert rs == init + [last];
      if s.Peak? {
        TrackedIs(s.of);
      }
    }
  }

  /** Floats are rounded to the nearest hundredth of their mean over all records. */
  lemma FloatMean(rs: seq<Stats>, s: Series)
    requires rs != [] && IsFloat(s) && s in Average(rs)
    ensures IsNearest(Average(rs)[s], Plus(Values(rs, s)), |rs|)
  {
    SumIsPlus(rs, s);
    RoundsToNearest(Sum(rs, s), |rs|);
  }

  /** Temperatures too, over the records that have any. */
  lemma TemperatureMean(rs: seq<Stats>, s: Series)
    requires s.Temperature? && s in Average(rs)
    ensures TempCount(rs) > 0 && IsNearest(Average(rs)[s], Plus(Values(rs, s)), TempCount(rs))
  {
    AveragedSeries(rs, s);
    var r :| r in rs && s in r;
    TemperatureCounts(rs, r);
    SumIsPlus(rs, s);
    RoundsToNearest(Sum(rs, s), TempCount(rs));
  }

  lemma {:induction false} TemperatureCounts(rs: seq<Stats>, r: Stats)
    requires r in rs && HasSensor(r)
    ensures TempCount(rs) > 0
  {
    var init, last := rs[..|rs| - 1], rs[|rs| - 1];
    assert rs == init + [last];
    if r in init {
      TemperatureCounts(init, r);
    }
  }

  predicate HasSensor(r: Stats) {
    exists s <- r :: s.Temperature?
  }

  function WithSensors(rs: seq<Stats>): set<nat> {
    set i: nat | i < |rs| && HasSensor(rs[i])
  }

  /** The records that have temperatures are counted, each once. */
  lemma {:induction false} TempCountIs(rs: seq<Stats>)
    ensures TempCount(rs) == |WithSensors(rs)|
  {
    if rs == [] {
      assert WithSensors(rs) == {};
    } else {
      var n := |rs| - 1;
      var init := WithSensors(rs[..n]);
      TempCountIs(rs[..n]);
      assert forall i :: 0 <= i < n ==> rs[..n][i] == rs[i];
      assert WithSensors(rs) == if HasSensor(rs[n]) then init + {n} else init;
    }
  }

  /** Byte rates are truncated, as long as their sum fits 64 bits. */
  lemma CounterMean(rs: seq<Stats>, s: Series)
    requires rs != [] && IsUint64(s) && s in Average(rs) && 0 <= Plus(Values(rs, s)) < 0x1_0000_0000_0000_0000
    ensures IsFloor(Average(rs)[s], Plus(Values(rs, s)), |rs|)
  {
    SumIsPlus(rs, s);
    FloorDiv(Sum(rs, s), |rs|);
  }

  /** So is the battery's level; core usage is rounded. Both are bytes. */
  lemma ByteMean(rs: seq<Stats>, s: Series)
    requires rs != [] && (s.BatteryLevel? || s.Core?) && s in Average(rs)
    requires forall r <- rs :: s in r ==> 0 <= r[s] <= 255
    ensures if s.Core? then IsNearest(Average(rs)[s], Plus(Values(rs, s)), |rs|)
            else IsFloor(Average(rs)[s], Plus(Values(rs, s)), |rs|)
  {
    SumIsPlus(rs, s);
    MeanWithin(rs, s, 0, 255);
    RoundsToNearest(Sum(rs, s), |rs|);
    FloorDiv(Sum(rs, s), |rs|);
  }

  /** x is the largest of the values, or zero. */
  predicate IsMost(x: int, xs: seq<int>) {
    0 <= x && (forall i :: 0 <= i < |xs| ==> xs[i] <= x) && (x == 0 || exists i :: 0 <= i < |xs| && xs[i] == x)
  }

  lemma {:induction false} LargestIs(rs: seq<Stats>, s: Series)
    ensures IsMost(Largest(rs, s), Values(rs, s))
  {
    if rs != [] {
      var n := |rs| - 1;
      LargestIs(rs[..n], s);
      var before, xs := Values(rs[..n], s), Values(rs, s);
      assert forall i :: 0 <= i < n ==> before[i] == xs[i];
      assert xs[n] == Get(rs[n], s);
    }
  }

  /** The running totals of interfaces keep their largest value, and the charging state is that of the last record. */
  lemma KeptValues(rs: seq<Stats>, s: Series)
    requires rs != [] && s in Average(rs)
    ensures s.NicTotal? ==> IsMost(Average(rs)[s], Values(rs, s))
    ensures s.BatteryState? ==> Average(rs)[s] == Values(rs, s)[|rs| - 1]
  {
    LargestIs(rs, s);
  }

  // ---------------------------------------------------------------- the Max fields

  /** The fields of system.Stats and system.FsStats that have a Max field. MaxMem is that of the memory used. */
  predicate HasMaxField(s: Series) {
    || s == Host(Cpu) || s == Host(MemUsed)
    || s == Host(NetworkSent) || s == Host(NetworkRecv)
    || s == Host(DiskReadPs) || s == Host(DiskWritePs)
    || (s.Host? && s.gauge.DiskIoStat?)
    || s.Bandwidth? || s.DiskIO?
    || (s.Fs? && (s.gauge == DiskReadPs || s.gauge == DiskWritePs || s.gauge.DiskIoStat?))
    || s.FsBytes?
  }

  lemma TrackedIs(s: Series)
    ensures Tracked(s) <==> HasMaxField(s)
  {
  }

  /** One averaging: a Max field is the largest of the values and the Max fields averaged. */
  lemma MaxFieldIs(rs: seq<Stats>, s: Series)
    requires HasMaxField(s) && Peak(s) in Average(rs)
    ensures IsMost(Average(rs)[Peak(s)], Values(rs, s) + Values(rs, Peak(s)))
  {
    TrackedIs(s);
    LargestIs(rs, s);
    LargestIs(rs, Peak(s));
    var a, b := Values(rs, s), Values(rs, Peak(s));
    forall i | 0 <= i < |a| ensures (a + b)[i] == a[i] && (a + b)[|a| + i] == b[i] {
    }
    var x := Average(rs)[Peak(s)];
    if x != 0 {
      if i :| 0 <= i < |a| && a[i] == x {
        assert (a + b)[i] == x;
      } else {
        var j :| 0 <= j < |b| && b[j] == x;
        assert (a + b)[|a| + j] == x;
      }
    }
  }

  /** The records at the bottom of a history of averaging. */
  function Leaves(t: Tree): seq<Stats>
    decreases t, 1
  {
    match t
    case Leaf(stats) => [stats]
    case Node(children) => AllLeaves(children)
  }

  function AllLeaves(ts: seq<Tree>): seq<Stats>
    decreases ts, 0
  {
    if ts == [] then [] else AllLeaves(ts[..|ts| - 1]) + Leaves(ts[|ts| - 1])
  }

  predicate IsTop(x: int, rs: seq<Stats>, s: Series) {
    && (forall r <- rs :: Get(r, s) <= x && Get(r, Peak(s)) <= x)
    && ((rs == [] && x == 0) || exists r <- rs :: Get(r, s) == x || Get(r, Peak(s)) == x)
  }

  lemma {:induction false} LargestLeafIs(t: Tree, s: Series)
    requires NonNegative(t, s)
    ensures IsTop(LargestLeaf(t, s), Leaves(t), s) && LargestLeaf(t, s) >= 0
    decreases t, 1
  {
    match t
    case Leaf(stats) => assert stats in Leaves(t);
    case Node(children) => LargestLeavesAre(children, s);
  }

  lemma {:induction false} LargestLeavesAre(ts: seq<Tree>, s: Series)
    requires forall c <- ts :: NonNegative(c, s)
    ensures IsTop(LargestLeaves(ts, s), AllLeaves(ts), s) && LargestLeaves(ts, s) >= 0
    decreases ts, 0
  {
    if ts != [] {
      var init, last := ts[..|ts| - 1], ts[|ts| - 1];
      assert last in ts;
      LargestLeavesAre(init, s);
      LargestLeafIs(last, s);
      TopConcat(LargestLeaves(init, s), AllLeaves(init), LargestLeaf(last, s), Leaves(last), s);
    }
  }

  lemma TopConcat(x: nat, a: seq<Stats>, y: nat, b: seq<Stats>, s: Series)
    requires IsTop(x, a, s) && IsTop(y, b, s)
    ensures IsTop(Max(x, y), a + b, s)
  {
    if r :| r in (if y > x || a == [] then b else a) && (Get(r, s) == Max(x, y) || Get(r, Peak(s)) == Max(x, y)) {
      assert r in a + b;
    }
  }

  /** Any number of averagings: a Max field is the largest value or Max field of the records at the bottom. */
  lemma MaxFieldSurvives(t: Tree, s: Series)
    requires t.Node? && HasMaxField(s) && NonNegative(t, s)
    ensures IsTop(Get(Rolled(t), Peak(s)), Leaves(t), s)
  {
    hide Rolled, LargestLeaf, Leaves;
    TrackedIs(s);
    PeakSurvives(t, s);
    LargestLeafIs(t, s);
  }
}
