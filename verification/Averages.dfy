/**
Averaging of statistics records (AverageSystemStatsSlice in internal/records/records.go).

A record is a finite map from series to value; an absent series has Go's zero value. Floating-point
fields hold two decimals and are modelled as integers in hundredths, so rounding is exact and explicit.
 */
module Averages {
  import opened Arith

  const U64: nat := 0x1_0000_0000_0000_0000

  /** The float64 fields of system.Stats. */
  datatype Gauge =
    | Cpu | Mem | MemUsed | MemPct | MemBuffCache | MemZfsArc | Swap | SwapUsed
    | DiskTotal | DiskUsed | DiskPct | DiskReadPs | DiskWritePs | NetworkSent | NetworkRecv
    | LoadAvg(i: nat) | DiskIoStat(i: nat)
    | GpuTemperature | GpuMemoryUsed | GpuMemoryTotal | GpuUsage | GpuPower | GpuCount | GpuEngine(name: string)

  datatype Series =
    | Host(gauge: Gauge)                   // twoDecimals(sum / count)
    | Fs(name: string, gauge: Gauge)       // extra filesystems, over all records
    | Gpu(id: string, gauge: Gauge)
    | Breakdown(i: nat)
    | Temperature(sensor: string)          // over the records that have temperatures
    | Core(i: nat)                         // uint8, rounded
    | BatteryLevel                         // uint8, truncated
    | BatteryState                         // taken from the last record
    | Bandwidth(dir: nat) | DiskIO(dir: nat) | FsBytes(name: string, dir: nat)
        | Nic(name: string, dir: nat)  // uint64, truncated
    | NicTotal(name: string, dir: nat)     // cumulative, the largest is kept
    | Peak(of: Series)                     // the Max fields

  type Stats = map<Series, int>

  function Get(r: Stats, s: Series): int {
    if s in r then r[s] else 0
  }

  function Max(a: int, b: int): int {
    if a < b then b else a
  }

  /** The gauges that have a Max field. MaxMem follows MemUsed. */
  predicate PeakGauge(g: Gauge) {
    g.Cpu? || g.MemUsed? || g.NetworkSent? || g.NetworkRecv? || g.DiskReadPs? || g.DiskWritePs? || g.DiskIoStat?
  }

  predicate Tracked(s: Series) {
    match s
    case Host(g) => PeakGauge(g)
    case Fs(_, g) => g.DiskReadPs? || g.DiskWritePs? || g.DiskIoStat?
    case Bandwidth(_) => true
    case DiskIO(_) => true
    case FsBytes(_, _) => true
    case _ => false
  }

  predicate IsCounter(s: Series) {
    s.Bandwidth? || s.DiskIO? || s.FsBytes? || s.Nic?
  }

  // ---------------------------------------------------------------- what an average is

  function Sum(rs: seq<Stats>, s: Series): int {
    if rs == [] then 0 else Sum(rs[..|rs| - 1], s) + Get(rs[|rs| - 1], s)
  }

  /** Largest value of s, or 0. */
  function Largest(rs: seq<Stats>, s: Series): int {
    if rs == [] then 0 else Max(Largest(rs[..|rs| - 1], s), Get(rs[|rs| - 1], s))
  }

  predicate HasTemperatures(r: Stats) {
    exists s <- r :: s.Temperature?
  }

  function TempCount(rs: seq<Stats>): (n: nat)
    ensures n <= |rs|
  {
    if rs == [] then 0 else TempCount(rs[..|rs| - 1]) + if HasTemperatures(rs[|rs| - 1]) then 1 else 0
  }

  /** math.Round(a / b): to the nearest integer, halves away from zero. */
  function RoundDiv(a: int, b: nat): int
    requires b > 0
  {
    if a >= 0 then (2 * a + b) / (2 * b) else -((2 * -a + b) / (2 * b))
  }

  function ToByte(x: int): int {
    x % 0x100
  }

  /** The accumulated value of a series. */
  function Total(rs: seq<Stats>, s: Series): int {
    match s
    case Peak(t) => if Tracked(t) then Max(Largest(rs, s), Largest(rs, t)) else Largest(rs, s)
    case NicTotal(_, _) => Largest(rs, s)
    case BatteryState => if rs == [] then 0 else Get(rs[|rs| - 1], s)
    case _ => if IsCounter(s) then Sum(rs, s) % U64 else Sum(rs, s)
  }

  function Divided(s: Series, total: int, count: nat, tempCount: nat): int
    requires count > 0
  {
    match s
    case Peak(_) => total
    case NicTotal(_, _) => total
    case BatteryState => total
    case BatteryLevel => ToByte(total / count)
    case Core(_) => ToByte(RoundDiv(total, count))
    case Temperature(_) => if tempCount > 0 then RoundDiv(total, tempCount) else total
    case _ => if IsCounter(s) then total / count else RoundDiv(total, count)
  }

  function Mean(rs: seq<Stats>, s: Series): int {
    if rs == [] then 0 else Divided(s, Total(rs, s), |rs|, TempCount(rs))
  }

  /** The series a record contributes to: its own, and the peaks of those that have one. */
  function Contributes(r: Stats): set<Series> {
    r.Keys + set s | s in r.Keys && Tracked(s) :: Peak(s)
  }

  function SeriesOf(rs: seq<Stats>): set<Series> {
    if rs == [] then {} else SeriesOf(rs[..|rs| - 1]) + Contributes(rs[|rs| - 1])
  }

  function Average(rs: seq<Stats>): Stats {
    map s | s in SeriesOf(rs) :: Mean(rs, s)
  }

  /** One record's contribution to the running sum. */
  function Added(s: Series, acc: int, r: Stats): int {
    match s
    case Peak(t) => if Tracked(t) then Max(Max(acc, Get(r, s)), Get(r, t)) else Max(acc, Get(r, s))
    case NicTotal(_, _) => Max(acc, Get(r, s))
    case BatteryState => Get(r, s)
    case _ => if IsCounter(s) then (acc + Get(r, s)) % U64 else acc + Get(r, s)
  }

  lemma AddedIsTotal(rs: seq<Stats>, r: Stats, s: Series)
    ensures Total(rs + [r], s) == Added(s, Total(rs, s), r)
  {
    assert (rs + [r])[..|rs|] == rs;
    assert (rs + [r])[|rs|] == r;
    if IsCounter(s) {
      ModAdd(Sum(rs, s), Get(r, s));
    }
  }

  lemma ModAdd(a: int, b: int)
    ensures (a % U64 + b) % U64 == (a + b) % U64
  {
    var q := a / U64;
    assert a == q * U64 + a % U64;
    assert (a + b) == q * U64 + (a % U64 + b);
  }

  /** A series no record contributes to accumulates nothing. */
  lemma {:induction false} AbsentIsZero(rs: seq<Stats>, s: Series)
    requires s !in SeriesOf(rs)
    ensures Sum(rs, s) == 0 && Largest(rs, s) == 0 && Total(rs, s) == 0
    ensures s.Peak? && Tracked(s.of) ==> Largest(rs, s.of) == 0
  {
    if rs != [] {
      AbsentIsZero(rs[..|rs| - 1], s);
      var r := rs[|rs| - 1];
      assert s.Peak? && Tracked(s.of) ==> s.of !in r.Keys;
    }
  }

  predicate Accumulates(sum: Stats, rs: seq<Stats>) {
    sum.Keys == SeriesOf(rs) && forall s <- sum :: sum[s] == Total(rs, s)
  }

  function Accumulated(sum: Stats, r: Stats): Stats {
    map s | s in sum.Keys + Contributes(r) :: Added(s, Get(sum, s), r)
  }

  lemma AccumulateStep(sum: Stats, rs: seq<Stats>, r: Stats)
    requires Accumulates(sum, rs)
    ensures Accumulates(Accumulated(sum, r), rs + [r])
  {
    assert (rs + [r])[..|rs|] == rs;
    forall s <- Accumulated(sum, r) ensures Accumulated(sum, r)[s] == Total(rs + [r], s) {
      AddedIsTotal(rs, r, s);
      if s !in sum {
        AbsentIsZero(rs, s);
      }
    }
  }

  /** AverageSystemStatsSlice: one pass to accumulate, one to divide. */
  method AverageSystemStats(records: seq<Stats>) returns (sum: Stats)
    ensures sum == Average(records)
  {
    sum := map[];
    if |records| == 0 {
      return;
    }
    var tempCount := 0;
    for i := 0 to |records|
      invariant Accumulates(sum, records[..i])
      invariant tempCount == TempCount(records[..i])
    {
      var r := records[i];
      AccumulateStep(sum, records[..i], r);
      assert records[..i + 1] == records[..i] + [r];
      assert records[..i + 1][..i] == records[..i];
      sum := Accumulated(sum, r);
      if HasTemperatures(r) {
        tempCount := tempCount + 1;
      }
    }
    assert records[..|records|] == records;
    sum := map s | s in sum :: Divided(s, sum[s], |records|, tempCount);
  }

  // ---------------------------------------------------------------- bounds

  /** Rounding to the nearest integer does not leave an interval with integer ends. */
  lemma RoundDivBounds(a: int, b: nat, lo: int, hi: int)
    requires b > 0 && lo * b <= a <= hi * b
    ensures lo <= RoundDiv(a, b) <= hi
  {
    if a >= 0 {
      HalfUpBounds(a, b, lo, hi);
    } else {
      assert -hi * b == -(hi * b) && -lo * b == -(lo * b);
      HalfUpBounds(-a, b, -hi, -lo);
    }
  }

  lemma HalfUpBounds(a: nat, b: nat, lo: int, hi: int)
    requires b > 0 && lo * b <= a <= hi * b
    ensures lo <= (2 * a + b) / (2 * b) <= hi
  {
    assert lo * (2 * b) == 2 * (lo * b) && (hi + 1) * (2 * b) == 2 * (hi * b) + 2 * b;
    DivAtLeast(2 * a + b, 2 * b, lo);
    DivAtMost(2 * a + b, 2 * b, hi);
  }

  lemma DivBounds(a: int, b: nat, lo: int, hi: int)
    requires b > 0 && lo * b <= a <= hi * b
    ensures lo <= a / b <= hi
  {
    assert (hi + 1) * b == hi * b + b;
    DivAtLeast(a, b, lo);
    DivAtMost(a, b, hi);
  }

  predicate Between(rs: seq<Stats>, s: Series, lo: int, hi: int) {
    forall r <- rs :: lo <= Get(r, s) <= hi
  }

  lemma {:induction false} SumBounds(rs: seq<Stats>, s: Series, lo: int, hi: int)
    requires Between(rs, s, lo, hi)
    ensures lo * |rs| <= Sum(rs, s) <= hi * |rs|
  {
    if rs != [] {
      var init := rs[..|rs| - 1];
      SumBounds(init, s, lo, hi);
      assert rs[|rs| - 1] in rs;
      MulSucc(lo, |init|);
      MulSucc(hi, |init|);
    }
  }

  /** Series divided by the number of records. */
  predicate Averaged(s: Series) {
    !s.Peak? && !s.NicTotal? && !s.BatteryState? && !s.Temperature?
  }

  predicate IsByte(s: Series) {
    s.Core? || s.BatteryLevel?
  }

  /**
  Every rounded or truncated average lies between the smallest and the largest value averaged. A uint64 sum
  that wraps still stays below the largest; only the lower bound then fails. The conversions to uint8 lose nothing.
   */
  lemma MeanWithin(rs: seq<Stats>, s: Series, lo: nat, hi: nat)
    requires rs != [] && Averaged(s) && Between(rs, s, lo, hi)
    requires IsByte(s) ==> hi < 0x100
    ensures 0 <= Mean(rs, s) <= hi
    ensures (IsCounter(s) ==> Sum(rs, s) < U64) ==> lo <= Mean(rs, s)
    ensures IsByte(s) ==> Mean(rs, s) == if s.Core? then RoundDiv(Sum(rs, s), |rs|) else Sum(rs, s) / |rs|
  {
    SumBounds(rs, s, lo, hi);
    DividedWithin(s, Sum(rs, s), |rs|, TempCount(rs), lo, hi);
  }

  lemma DividedWithin(s: Series, sum: int, n: nat, tempCount: nat, lo: nat, hi: nat)
    requires Averaged(s) && n > 0 && lo * n <= sum <= hi * n && (IsByte(s) ==> hi < 0x100)
    ensures var mean := Divided(s, if IsCounter(s) then sum % U64 else sum, n, tempCount);
            && 0 <= mean <= hi
            && ((IsCounter(s) ==> sum < U64) ==> lo <= mean)
            && (s.Core? ==> mean == RoundDiv(sum, n))
            && (s.BatteryLevel? ==> mean == sum / n)
  {
    MulLe(0, lo, n);
    if IsCounter(s) {
      WrappedWithin(sum, n, lo, hi);
    } else if s.BatteryLevel? {
      DivBounds(sum, n, lo, hi);
    } else {
      RoundDivBounds(sum, n, lo, hi);
    }
  }

  lemma WrappedWithin(sum: nat, n: nat, lo: nat, hi: nat)
    requires n > 0 && lo * n <= sum <= hi * n
    ensures 0 <= (sum % U64) / n <= hi
    ensures sum < U64 ==> lo <= (sum % U64) / n
  {
    assert (hi + 1) * n == hi * n + n;
    DivAtMost(sum % U64, n, hi);
    DivAtLeast(sum % U64, n, 0);
    if sum < U64 {
      DivAtLeast(sum, n, lo);
    }
  }

  /** The temperature average lies within the readings of the records that have temperatures at all. */
  lemma TemperatureWithin(rs: seq<Stats>, s: Series, lo: int, hi: int)
    requires s.Temperature? && TempCount(rs) > 0
    requires forall r <- rs :: HasTemperatures(r) ==> lo <= Get(r, s) <= hi
    ensures lo <= Mean(rs, s) <= hi
  {
    TempSumBounds(rs, s, lo, hi);
    RoundDivBounds(Sum(rs, s), TempCount(rs), lo, hi);
  }

  lemma {:induction false} TempSumBounds(rs: seq<Stats>, s: Series, lo: int, hi: int)
    requires s.Temperature?
    requires forall r <- rs :: HasTemperatures(r) ==> lo <= Get(r, s) <= hi
    ensures lo * TempCount(rs) <= Sum(rs, s) <= hi * TempCount(rs)
  {
    if rs != [] {
      var init, r := rs[..|rs| - 1], rs[|rs| - 1];
      TempSumBounds(init, s, lo, hi);
      assert r in rs;
      if HasTemperatures(r) {
        MulSucc(lo, TempCount(init));
        MulSucc(hi, TempCount(init));
      } else {
        assert s !in r;
      }
    }
  }

  /** The uint64 averages are exact precisely when the sum fits in 64 bits. */
  lemma CounterExactIff(rs: seq<Stats>, s: Series)
    requires IsCounter(s) && 0 < |rs| <= U64 && forall r <- rs :: 0 <= Get(r, s)
    ensures Mean(rs, s) == Sum(rs, s) / |rs| <==> Sum(rs, s) < U64
  {
    SumNonNegative(rs, s);
    var sum, n := Sum(rs, s), |rs|;
    if sum >= U64 {
      assert sum % U64 <= sum - U64 <= sum - n;
      DivMod(sum, n);
      assert (sum / n - 1 + 1) * n == (sum / n) * n;
      DivAtMost(sum % U64, n, sum / n - 1);
    }
  }

  lemma {:induction false} SumNonNegative(rs: seq<Stats>, s: Series)
    requires forall r <- rs :: 0 <= Get(r, s)
    ensures 0 <= Sum(rs, s)
  {
    if rs != [] {
      SumNonNegative(rs[..|rs| - 1], s);
      assert rs[|rs| - 1] in rs;
    }
  }

  // ---------------------------------------------------------------- peaks

  /** A history of averaging: each tier averages records of the tier below. */
  datatype Tree = Leaf(stats: Stats) | Node(children: seq<Tree>)

  function Rolled(t: Tree): Stats
    decreases t, 1
  {
    match t
    case Leaf(stats) => stats
    case Node(children) => Average(RolledAll(children))
  }

  function RolledAll(ts: seq<Tree>): (rs: seq<Stats>)
    decreases ts, 0
    ensures |rs| == |ts|
  {
    if ts == [] then [] else RolledAll(ts[..|ts| - 1]) + [Rolled(ts[|ts| - 1])]
  }

  /** The largest value a record knows of, as a reading or as a peak. */
  function Top(r: Stats, s: Series): int {
    Max(Get(r, Peak(s)), Get(r, s))
  }

  /** The largest value in any leaf, or 0 if there is none. */
  function LargestLeaf(t: Tree, s: Series): int
    decreases t, 1
  {
    match t
    case Leaf(stats) => Top(stats, s)
    case Node(children) => LargestLeaves(children, s)
  }

  function LargestLeaves(ts: seq<Tree>, s: Series): int
    decreases ts, 0
  {
    if ts == [] then 0 else Max(LargestLeaves(ts[..|ts| - 1], s), LargestLeaf(ts[|ts| - 1], s))
  }

  predicate NonNegative(t: Tree, s: Series)
    decreases t
  {
    match t
    case Leaf(stats) => Get(stats, s) >= 0 && Get(stats, Peak(s)) >= 0
    case Node(children) => forall c <- children :: NonNegative(c, s)
  }

  lemma GetAverage(rs: seq<Stats>, s: Series)
    ensures Get(Average(rs), s) == Mean(rs, s)
  {
    if s !in SeriesOf(rs) {
      AbsentIsZero(rs, s);
    }
  }

  lemma {:induction false} LargestBounds(rs: seq<Stats>, s: Series)
    requires forall r <- rs :: 0 <= Get(r, s)
    ensures 0 <= Largest(rs, s) && Between(rs, s, 0, Largest(rs, s))
  {
    if rs != [] {
      var init, last := rs[..|rs| - 1], rs[|rs| - 1];
      assert last in rs;
      LargestBounds(init, s);
      assert rs == init + [last];
    }
  }

  lemma {:induction false} LargestHolds(rs: seq<Stats>, s: Series, r: Stats)
    requires r in rs
    ensures Get(r, s) <= Largest(rs, s)
  {
    var init, last := rs[..|rs| - 1], rs[|rs| - 1];
    assert rs == init + [last];
    if r in init {
      LargestHolds(init, s, r);
    }
  }

  /** One averaging: the peak field becomes the largest of all peaks and values, and no average exceeds it. */
  lemma AveragePeak(rs: seq<Stats>, s: Series)
    requires Tracked(s) && forall r <- rs :: 0 <= Get(r, s)
    ensures 0 <= Get(Average(rs), s)
    ensures var largest := Max(Largest(rs, Peak(s)), Largest(rs, s));
            Top(Average(rs), s) == largest && Get(Average(rs), Peak(s)) == largest
  {
    hide Average;
    GetAverage(rs, s);
    GetAverage(rs, Peak(s));
    LargestBounds(rs, s);
    if rs != [] {
      MeanWithin(rs, s, 0, Largest(rs, s));
    }
  }

  /**
  Peaks survive any depth of roll-up: the Max field at the root of any averaging tree is the largest value in any
  leaf beneath it, because no average on the way exceeds the largest value it averages.
   */
  lemma {:induction false} PeakSurvives(t: Tree, s: Series)
    requires Tracked(s) && NonNegative(t, s)
    ensures 0 <= Get(Rolled(t), s)
    ensures Top(Rolled(t), s) == LargestLeaf(t, s)
    ensures t.Node? ==> Get(Rolled(t), Peak(s)) == LargestLeaf(t, s)
    decreases t, 1
  {
    hide Average, Largest, Tracked;
    if t.Node? {
      PeaksSurvive(t.children, s);
      AveragePeak(RolledAll(t.children), s);
    }
  }

  lemma {:induction false} PeaksSurvive(ts: seq<Tree>, s: Series)
    requires Tracked(s) && forall c <- ts :: NonNegative(c, s)
    ensures forall r <- RolledAll(ts) :: 0 <= Get(r, s)
    ensures Max(Largest(RolledAll(ts), Peak(s)), Largest(RolledAll(ts), s)) == LargestLeaves(ts, s)
    decreases ts, 0
  {
    if ts != [] {
      var init, last := ts[..|ts| - 1], ts[|ts| - 1];
      assert last in ts;
      PeaksSurvive(init, s);
      PeakSurvives(last, s);
      var rs := RolledAll(ts);
      assert rs[..|rs| - 1] == RolledAll(init) && rs[|rs| - 1] == Rolled(last);
    }
  }
}
