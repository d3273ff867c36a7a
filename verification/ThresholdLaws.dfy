/**
What HandleSystemAlerts (internal/alerts/alerts_system.go) decides, stated on the stored fields, the current values and
the times themselves: which field decides which kind of alert, and for rows that are level, exactly what is sent.
 */
module ThresholdLaws {
  import opened Basics
  import opened Counters
  import opened Series
  import opened AlertReadings
  import opened ThresholdAlerts

  // ---------------------------------------------------------------- exactly what is sent

  lemma {:induction false} ImmediateIff(alerts: seq<Alert>, current: Current, s: Sent)
    ensures s in Immediate(alerts, current)
            <==> exists a <- alerts :: s == Sent(a.id, !a.triggered) && CurrentProposes(a, current) && Minutes(a) == 1
  {
    hide CurrentProposes;
    if alerts != [] {
      var init, last := alerts[..|alerts| - 1], alerts[|alerts| - 1];
      ImmediateIff(init, current, s);
      assert alerts == init + [last];
    }
  }

  lemma {:induction false} ConfirmedIff(alerts: seq<Alert>, now: int, rows: seq<Row>, s: Sent)
    ensures s in Confirmed(alerts, now, rows)
            <==> exists a <- alerts :: s == Sent(a.id, !a.triggered) && Flips(a, Window(rows, a.field, Since(a, now)))
  {
    hide Flips, Window;
    if alerts != [] {
      var init, last := alerts[..|alerts| - 1], alerts[|alerts| - 1];
      ConfirmedIff(init, now, rows, s);
      assert alerts == init + [last];
    }
  }

  /** The alert flips at once, or the rows fetched begin before its window and flip it. */
  ghost predicate IsSent(a: Alert, alerts: seq<Alert>, current: Current, now: int, table: seq<Row>) {
    var rows := RowsFor(alerts, current, now, table);
    && CurrentProposes(a, current)
    && (|| Minutes(a) == 1
        || (rows != [] && rows[0].created < Since(a, now) && Flips(a, Window(rows, a.field, Since(a, now)))))
  }

  /** Exact: a message is sent if and only if it is that of such an alert. */
  lemma SentIff(alerts: seq<Alert>, current: Current, now: int, table: seq<Row>, s: Sent)
    ensures s in Handled(alerts, current, now, table)
            <==> exists a <- alerts :: s == Sent(a.id, !a.triggered) && IsSent(a, alerts, current, now, table)
  {
    hide Immediate, Confirmed, Covered, Waiting, Flips, Window, CurrentProposes, Fetched;
    var rows := RowsFor(alerts, current, now, table);
    ImmediateIff(alerts, current, s);
    if rows != [] {
      var waiting := Waiting(alerts, current);
      var covered := Covered(waiting, now, rows[0].created);
      ConfirmedIff(covered, now, rows, s);
      forall a ensures a in covered <==> a in alerts && CurrentProposes(a, current) && Minutes(a) > 1
                                         && Since(a, now) > rows[0].created {
        CoveredAlert(waiting, now, rows[0].created, a);
        WaitingAlert(alerts, current, a);
      }
    }
  }

  // ---------------------------------------------------------------- each kind of alert reads its own field

  /** Two rows say the same as far as a kind of alert is concerned. */
  predicate SameField(x: Stored, y: Stored, f: Field) {
    match f
    case Cpu => x.cpu == y.cpu
    case Memory => x.mem == y.mem
    case Bandwidth => x.bandwidth == y.bandwidth
    case Disk => x.disk == y.disk && x.extraFs == y.extraFs
    case Temperature => x.temps == y.temps
    case Load1 => x.load1 == y.load1
    case Load5 => x.load5 == y.load5
    case Load15 => x.load15 == y.load15
    case Gpu => x.gpus == y.gpus
    case Battery => x.battery == y.battery
  }

  predicate SameDecoded(x: Decoded, y: Decoded, f: Field) {
    match f
    case Cpu => x.cpu == y.cpu
    case Memory => x.mem == y.mem
    case Bandwidth => x.bandwidth == y.bandwidth
    case Disk => x.disk == y.disk && x.extraFs == y.extraFs
    case Temperature => x.temps == y.temps
    case Load1 => x.load1 == y.load1
    case Load5 => x.load5 == y.load5
    case Load15 => x.load15 == y.load15
    case Gpu => x.gpus == y.gpus
    case Battery => x.battery == y.battery
  }

  predicate SameCurrent(x: Current, y: Current, f: Field) {
    match f
    case Cpu => x.cpu == y.cpu
    case Memory => x.mem == y.mem
    case Bandwidth => x.bandwidth == y.bandwidth
    case Disk => x.disk == y.disk && x.extraFs == y.extraFs
    case Temperature => x.temp == y.temp
    case Load1 => x.load1 == y.load1
    case Load5 => x.load5 == y.load5
    case Load15 => x.load15 == y.load15
    case Gpu => x.gpu == y.gpu
    case Battery => x.battery == y.battery
  }

  predicate SameRows(x: seq<Row>, y: seq<Row>, f: Field) {
    |x| == |y| && forall i :: 0 <= i < |x| ==> x[i].created == y[i].created && SameField(x[i].stats, y[i].stats, f)
  }

  lemma {:induction false} SameDecoding(x: seq<Row>, y: seq<Row>, f: Field)
    requires SameRows(x, y, f)
    ensures SameDecoded(Decoding(x), Decoding(y), f)
  {
    if x != [] {
      SameDecoding(x[..|x| - 1], y[..|y| - 1], f);
    }
  }

  lemma SameReading(x: Decoded, y: Decoded, f: Field)
    requires SameDecoded(x, y, f)
    ensures Readings(x, f) == Readings(y, f)
  {
  }

  lemma {:induction false} SameWindow(x: seq<Row>, y: seq<Row>, f: Field, start: int)
    requires SameRows(x, y, f)
    ensures Window(x, f, start) == Window(y, f, start)
  {
    hide Decoding, Readings, SameDecoded, SameField;
    if x != [] {
      SameWindow(x[..|x| - 1], y[..|y| - 1], f, start);
      SameDecoding(x, y, f);
      SameReading(Decoding(x), Decoding(y), f);
    }
  }

  lemma {:induction false} SameFetched(x: seq<Row>, y: seq<Row>, f: Field, after: int)
    requires SameRows(x, y, f)
    ensures SameRows(Fetched(x, after), Fetched(y, after), f)
  {
    if x != [] {
      SameFetched(x[..|x| - 1], y[..|y| - 1], f, after);
    }
  }

  lemma SameCurrentProposes(a: Alert, c: Current, d: Current)
    requires SameCurrent(c, d, a.field)
    ensures CurrentProposes(a, c) <==> CurrentProposes(a, d)
  {
  }

  lemma {:induction false} SameWaiting(alerts: seq<Alert>, c: Current, d: Current)
    requires forall a <- alerts :: SameCurrent(c, d, a.field)
    ensures Waiting(alerts, c) == Waiting(alerts, d) && Immediate(alerts, c) == Immediate(alerts, d)
  {
    hide CurrentProposes;
    if alerts != [] {
      SameWaiting(alerts[..|alerts| - 1], c, d);
      SameCurrentProposes(alerts[|alerts| - 1], c, d);
    }
  }

  lemma {:induction false} SameConfirmed(alerts: seq<Alert>, now: int, x: seq<Row>, y: seq<Row>)
    requires forall a <- alerts :: SameRows(x, y, a.field)
    ensures Confirmed(alerts, now, x) == Confirmed(alerts, now, y)
  {
    hide Flips, Window, SameRows;
    if alerts != [] {
      var a := alerts[|alerts| - 1];
      SameConfirmed(alerts[..|alerts| - 1], now, x, y);
      SameWindow(x, y, a.field, Since(a, now));
    }
  }

  /**
  What is sent depends only on the fields of the alerts' kinds: tables and current values that agree in them, and in the
  times of the rows, give the same messages whatever else they hold.
   */
  lemma OwnFieldsDecide(alerts: seq<Alert>, c: Current, d: Current, now: int, x: seq<Row>, y: seq<Row>)
    requires forall a <- alerts :: SameCurrent(c, d, a.field) && SameRows(x, y, a.field)
    ensures Handled(alerts, c, now, x) == Handled(alerts, d, now, y)
  {
    hide Confirmed, Covered, Waiting, Immediate, Fetched, SameRows, SameCurrent;
    SameWaiting(alerts, c, d);
    var waiting := Waiting(alerts, c);
    var after := Oldest(waiting, now) - 90_000;
    var p, q := Fetched(x, after), Fetched(y, after);
    forall a <- alerts ensures SameRows(p, q, a.field) {
      SameFetched(x, y, a.field, after);
    }
    if alerts == [] {
      NothingHandled(c, now, x);
      NothingHandled(d, now, y);
    } else {
      FirstRows(p, q, alerts[0].field);
      if p != [] {
        var covered := Covered(waiting, now, p[0].created);
        forall a <- covered ensures SameRows(p, q, a.field) {
          CoveredAlert(waiting, now, p[0].created, a);
          WaitingAlert(alerts, c, a);
        }
        SameConfirmed(covered, now, p, q);
      }
    }
  }

  lemma NothingHandled(c: Current, now: int, table: seq<Row>)
    ensures Handled([], c, now, table) == []
  {
  }

  lemma FirstRows(p: seq<Row>, q: seq<Row>, f: Field)
    requires SameRows(p, q, f)
    ensures |p| == |q| && (p != [] ==> p[0].created == q[0].created)
  {
  }

  // ---------------------------------------------------------------- the current value

  predicate AtMostPercent(fs: Fs, v: real) {
    fs.total > 0.0 ==> fs.used * 100.0 <= v * fs.total
  }

  predicate IsPercent(fs: Fs, v: real) {
    fs.total > 0.0 && fs.used * 100.0 == v * fs.total
  }

  /** v is what the agent's latest data says of a kind: of disks the fullest, of sensors one above zero degrees. */
  predicate CurrentAt(c: Current, f: Field, v: real) {
    match f
    case Cpu => v == c.cpu
    case Memory => v == c.mem
    case Bandwidth => v * 1048576.0 == c.bandwidth as real
    case Disk =>
      && c.disk <= v && (forall k <- c.extraFs :: AtMostPercent(c.extraFs[k], v))
      && (v == c.disk || exists k <- c.extraFs :: IsPercent(c.extraFs[k], v))
    case Temperature => v == c.temp && v >= 1.0
    case Load1 => v == c.load1
    case Load5 => v == c.load5
    case Load15 => v == c.load15
    case Gpu => v == c.gpu
    case Battery => c.battery > 0 && v == c.battery as real
  }

  lemma Percent(fs: Fs, v: real)
    requires fs.total > 0.0
    ensures fs.used / fs.total * 100.0 <= v <==> AtMostPercent(fs, v)
    ensures fs.used / fs.total * 100.0 == v <==> IsPercent(fs, v)
  {
    var q := fs.used / fs.total;
    assert q * fs.total == fs.used;
    assert fs.used * 100.0 == q * 100.0 * fs.total;
    TimesPositive(q * 100.0, v, fs.total);
  }

  lemma TimesPositive(x: real, y: real, n: real)
    requires n > 0.0
    ensures x <= y <==> x * n <= y * n
    ensures x == y <==> x * n == y * n
  {
    if x < y {
      assert (y - x) * n > 0.0;
    } else if x > y {
      assert (x - y) * n > 0.0;
    }
  }

  lemma FullestDisk(c: Current, v: real)
    ensures IsLargest(Percents(c.extraFs), c.disk, v) <==> CurrentAt(c, Disk, v)
  {
    var ps := Percents(c.extraFs);
    forall k <- c.extraFs | c.extraFs[k].total > 0.0
      ensures k in ps
      ensures (ps[k] <= v <==> AtMostPercent(c.extraFs[k], v)) && (ps[k] == v <==> IsPercent(c.extraFs[k], v))
    {
      Percent(c.extraFs[k], v);
    }
    if k :| k in c.extraFs && IsPercent(c.extraFs[k], v) {
      assert ps[k] == v;
    }
    if k :| k in ps && ps[k] == v {
      assert IsPercent(c.extraFs[k], v);
    }
  }

  lemma CurrentIff(c: Current, f: Field, v: real)
    ensures CurrentValue(c, f) == Some(v) <==> CurrentAt(c, f, v)
  {
    if f.Disk? {
      FullestDisk(c, v);
      if CurrentAt(c, f, v) {
        LargestUnique(Percents(c.extraFs), c.disk, v, Largest(Percents(c.extraFs), c.disk));
      }
    }
  }

  // ---------------------------------------------------------------- level rows

  /**
  A row says v of a kind. Disks and sensors, and GPUs in a row, are many: k is at v and none is above it. A filesystem
  named "root" would be added to the root disk.
   */
  predicate LevelAt(s: Stored, f: Field, k: string, v: real) {
    match f
    case Cpu => s.cpu == v
    case Memory => s.mem == v
    case Bandwidth =>
      && s.bandwidth.Some? && s.bandwidth.value.0 + s.bandwidth.value.1 < 0x1_0000_0000_0000_0000
      && (s.bandwidth.value.0 + s.bandwidth.value.1) as real == v * 1048576.0
    case Disk =>
      && v >= 0.0 && s.disk <= v && "root" !in s.extraFs && (forall j <- s.extraFs :: AtMostPercent(s.extraFs[j], v))
      && (if k == "root" then s.disk == v else k in s.extraFs && IsPercent(s.extraFs[k], v))
    case Temperature => v >= 0.0 && k in s.temps && s.temps[k] == v && forall j <- s.temps :: s.temps[j] <= v
    case Load1 => s.load1 == v
    case Load5 => s.load5 == v
    case Load15 => s.load15 == v
    case Gpu => v >= 0.0 && k in s.gpus && s.gpus[k] == v && forall j <- s.gpus :: s.gpus[j] <= v
    case Battery => s.battery.Some? && s.battery.value as real == v
  }

  predicate Bounded(d: Decoded, f: Field, v: real) {
    match f
    case Disk => "root" !in d.extraFs && forall j <- d.extraFs :: AtMostPercent(d.extraFs[j], v)
    case Temperature => forall j <- d.temps :: d.temps[j] <= v
    case Gpu => forall j <- d.gpus :: d.gpus[j] <= v
    case _ => true
  }

  function NameFor(f: Field, k: string): string {
    if Keyed(f) then k else ""
  }

  predicate IsAt(x: Series, k: string, v: real) {
    Get(x, k) == v && forall j <- x :: x[j] <= v
  }

  lemma BoundedNext(d: Decoded, s: Stored, f: Field, k: string, v: real)
    requires Bounded(d, f, v) && LevelAt(s, f, k, v)
    ensures Bounded(Decode(d, s), f, v)
  {
  }

  lemma DisksLevel(d: Decoded, s: Stored, k: string, v: real)
    requires Bounded(d, Disk, v) && LevelAt(s, Disk, k, v)
    ensures IsAt(Disks(Decode(d, s)), k, v)
  {
    var e := Decode(d, s);
    var ps := Percents(e.extraFs);
    forall j <- Disks(e) ensures Disks(e)[j] <= v {
      if j in ps {
        Percent(e.extraFs[j], v);
      }
    }
    if k != "root" {
      assert e.extraFs[k] == s.extraFs[k];
      Percent(e.extraFs[k], v);
    }
  }

  lemma GpusLevel(d: Decoded, s: Stored, k: string, v: real)
    requires Bounded(d, Gpu, v) && LevelAt(s, Gpu, k, v)
    ensures Decode(d, s).gpus != map[] && Largest(Decode(d, s).gpus, 0.0) == v
  {
    var gs := Decode(d, s).gpus;
    assert k in gs && gs[k] == v;
    LargestUnique(gs, 0.0, v, Largest(gs, 0.0));
  }

  /** A level row reads as v, whatever level rows came before it. */
  lemma LevelReads(d: Decoded, s: Stored, f: Field, k: string, v: real)
    requires Bounded(d, f, v) && LevelAt(s, f, k, v)
    ensures Readings(Decode(d, s), f).Some? && IsAt(Readings(Decode(d, s), f).value, NameFor(f, k), v)
  {
    hide Disks;
    match f
    case Disk => DisksLevel(d, s, k, v);
    case Gpu => GpusLevel(d, s, k, v);
    case Temperature => assert Decode(d, s).temps[k] == v;
    case _ =>
  }

  predicate AllLevel(rows: seq<Row>, f: Field, k: string, v: real) {
    forall i :: 0 <= i < |rows| ==> LevelAt(rows[i].stats, f, k, v)
  }

  lemma {:induction false} LevelBounded(rows: seq<Row>, f: Field, k: string, v: real)
    requires AllLevel(rows, f, k, v)
    ensures Bounded(Decoding(rows), f, v)
  {
    hide Decode;
    if rows != [] {
      LevelBounded(rows[..|rows| - 1], f, k, v);
      BoundedNext(Decoding(rows[..|rows| - 1]), rows[|rows| - 1].stats, f, k, v);
    }
  }

  /** The number of rows at least ten seconds into the window. */
  function CountFrom(rows: seq<Row>, start: int): nat {
    if rows == [] then 0
    else CountFrom(rows[..|rows| - 1], start) + if rows[|rows| - 1].created >= start + 10_000 then 1 else 0
  }

  lemma {:induction false} LevelWindow(rows: seq<Row>, f: Field, k: string, v: real, start: int)
    requires AllLevel(rows, f, k, v)
    ensures |Window(rows, f, start)| == CountFrom(rows, start)
    ensures forall i :: 0 <= i < CountFrom(rows, start) ==> IsAt(Window(rows, f, start)[i], NameFor(f, k), v)
  {
    hide Readings, Decode, IsAt, LevelAt;
    if rows != [] {
      var init, last := rows[..|rows| - 1], rows[|rows| - 1];
      LevelWindow(init, f, k, v, start);
      LevelBounded(init, f, k, v);
      LevelReads(Decoding(init), last.stats, f, k, v);
    }
  }

  lemma {:induction false} SumsAtMost(vs: seq<Series>, j: string, v: real)
    requires forall i :: 0 <= i < |vs| ==> Get(vs[i], j) <= v
    ensures Get(Sums(vs), j) <= Repeated(|vs|, v)
  {
    hide Added;
    if vs != [] {
      SumsAtMost(vs[..|vs| - 1], j, v);
      AddedAt(Sums(vs[..|vs| - 1]), vs[|vs| - 1], j);
    }
  }

  lemma {:induction false} SumsLevel(vs: seq<Series>, k: string, v: real)
    requires forall i :: 0 <= i < |vs| ==> Get(vs[i], k) == v
    ensures Get(Sums(vs), k) == Repeated(|vs|, v)
  {
    hide Added;
    if vs != [] {
      SumsLevel(vs[..|vs| - 1], k, v);
      AddedAt(Sums(vs[..|vs| - 1]), vs[|vs| - 1], k);
    }
  }

  lemma {:induction false} RepeatedNonNegative(n: nat, v: real)
    requires v >= 0.0
    ensures Repeated(n, v) >= 0.0
  {
    if n > 0 {
      RepeatedNonNegative(n - 1, v);
    }
  }

  /** The largest of sums over level readings is the one that is level. */
  lemma LargestLevel(vs: seq<Series>, k: string, v: real)
    requires v >= 0.0 && forall i :: 0 <= i < |vs| ==> IsAt(vs[i], k, v)
    ensures Largest(Sums(vs), 0.0) == Repeated(|vs|, v)
  {
    hide Sums, Repeated;
    var sums, m := Sums(vs), Repeated(|vs|, v);
    SumsLevel(vs, k, v);
    RepeatedNonNegative(|vs|, v);
    forall j <- sums ensures sums[j] <= m {
      forall i | 0 <= i < |vs| ensures Get(vs[i], j) <= v {
        assert IsAt(vs[i], k, v);
      }
      SumsAtMost(vs, j, v);
    }
    if m != 0.0 {
      assert k in sums && sums[k] == m;
    }
    LargestUnique(sums, 0.0, m, Largest(sums, 0.0));
  }

  /** The mean of level readings is their level. */
  lemma LevelMean(vs: seq<Series>, f: Field, k: string, v: real)
    requires vs != [] && (Keyed(f) ==> v >= 0.0)
    requires forall i :: 0 <= i < |vs| ==> IsAt(vs[i], NameFor(f, k), v)
    ensures Level(Sums(vs), f) / |vs| as real == v
  {
    hide Sums, Repeated, Largest, IsAt;
    assert Level(Sums(vs), f) == Repeated(|vs|, v) by {
      if Keyed(f) {
        LargestLevel(vs, k, v);
      } else {
        forall i | 0 <= i < |vs| ensures Get(vs[i], "") == v {
          AtLevel(vs[i], "", v);
        }
        SumsLevel(vs, "", v);
      }
    }
    RepeatedIs(|vs|, v);
    Cancelled(|vs| as real, v);
  }

  lemma AtLevel(x: Series, k: string, v: real)
    requires IsAt(x, k, v)
    ensures Get(x, k) == v
  {
  }

  // ---------------------------------------------------------------- the law

  /** The side a triggered or untriggered alert has to be moved to: low for batteries to trigger, high for the rest. */
  predicate NewSide(a: Alert, v: real) {
    match (a.field.Battery?, a.triggered)
    case (false, false) => v > a.threshold
    case (false, true) => v <= a.threshold
    case (true, false) => v < a.threshold
    case (true, true) => v >= a.threshold
  }

  ghost predicate IsAsked(a: Alert, current: Current) {
    exists v :: CurrentAt(current, a.field, v) && NewSide(a, v)
  }

  function StartOf(a: Alert, now: int): int {
    now - 60_000 * (if a.min == 0 then 1 else a.min)
  }

  /** Some row is older than the alert's window, and less than a minute and a half older than some waiting alert's. */
  ghost predicate IsCovered(a: Alert, alerts: seq<Alert>, current: Current, now: int, table: seq<Row>) {
    exists r <- table, b <- alerts ::
      && b.min > 1 && IsAsked(b, current)
      && StartOf(b, now) - 90_000 < r.created < StartOf(a, now)
  }

  predicate InOrder(table: seq<Row>) {
    forall i, j :: 0 <= i <= j < |table| ==> table[i].created <= table[j].created
  }

  lemma AskedIff(a: Alert, current: Current)
    ensures CurrentProposes(a, current) <==> IsAsked(a, current)
  {
    var v := CurrentValue(current, a.field);
    if v.Some? {
      CurrentIff(current, a.field, v.value);
      assert Proposes(a, v.value) <==> NewSide(a, v.value);
    }
    forall u | CurrentAt(current, a.field, u) ensures v == Some(u) {
      CurrentIff(current, a.field, u);
    }
  }

  lemma {:induction false} OldestIs(waiting: seq<Alert>, now: int)
    ensures waiting == [] ==> Oldest(waiting, now) == now
    ensures waiting != [] ==> exists b <- waiting :: Oldest(waiting, now) == StartOf(b, now)
  {
    if waiting != [] {
      var init, last := waiting[..|waiting| - 1], waiting[|waiting| - 1];
      OldestIs(init, now);
      assert waiting == init + [last];
      if Oldest(waiting, now) == Since(last, now) {
        assert last in waiting;
      } else {
        assert init != [];
        var b :| b in init && Oldest(init, now) == StartOf(b, now);
        assert b in waiting;
      }
    }
  }

  lemma {:induction false} FetchedInOrder(table: seq<Row>, after: int)
    requires InOrder(table)
    ensures InOrder(Fetched(table, after))
  {
    if table != [] {
      var init, last := table[..|table| - 1], table[|table| - 1];
      FetchedInOrder(init, after);
      forall r <- Fetched(init, after) ensures r.created <= last.created {
        FetchedRow(init, after, r);
        var i :| 0 <= i < |init| && init[i] == r;
        assert table[i] == r;
      }
    }
  }

  lemma {:induction false} FetchedCount(table: seq<Row>, after: int, start: int)
    requires after < start + 10_000
    ensures CountFrom(Fetched(table, after), start) == CountFrom(table, start)
  {
    if table != [] {
      var init, last := table[..|table| - 1], table[|table| - 1];
      FetchedCount(init, after, start);
      var rows := Fetched(init, after);
      assert (rows + [last])[..|rows|] == rows && rows + [] == rows;
    }
  }

  lemma {:induction false} FetchedLevel(table: seq<Row>, after: int, f: Field, k: string, v: real)
    requires AllLevel(table, f, k, v)
    ensures AllLevel(Fetched(table, after), f, k, v)
  {
    hide LevelAt;
    if table != [] {
      FetchedLevel(table[..|table| - 1], after, f, k, v);
    }
  }

  /** A waiting alert is covered exactly when the first row fetched is older than its window. */
  lemma CoveredIff(a: Alert, alerts: seq<Alert>, current: Current, now: int, table: seq<Row>)
    requires InOrder(table) && a in alerts && CurrentProposes(a, current) && Minutes(a) > 1
    ensures var rows := RowsFor(alerts, current, now, table);
            rows != [] && rows[0].created < Since(a, now) <==> IsCovered(a, alerts, current, now, table)
  {
    hide CurrentProposes, IsAsked, Waiting, Fetched, Oldest;
    var waiting := Waiting(alerts, current);
    var after := Oldest(waiting, now) - 90_000;
    var rows := Fetched(table, after);
    WaitingAlert(alerts, current, a);
    OldestIs(waiting, now);
    FetchedInOrder(table, after);
    if rows != [] && rows[0].created < Since(a, now) {
      var b :| b in waiting && Oldest(waiting, now) == StartOf(b, now);
      WaitingAlert(alerts, current, b);
      AskedIff(b, current);
      FetchedRow(table, after, rows[0]);
      assert rows[0] in table && b in alerts;
    }
    if IsCovered(a, alerts, current, now, table) {
      var r, b :| r in table && b in alerts && b.min > 1 && IsAsked(b, current)
                  && StartOf(b, now) - 90_000 < r.created < StartOf(a, now);
      AskedIff(b, current);
      WaitingAlert(alerts, current, b);
      OldestBefore(waiting, now, b);
      FetchedRow(table, after, r);
      var i :| 0 <= i < |rows| && rows[i] == r;
    }
  }

  lemma LevelFlips(a: Alert, vs: seq<Series>, k: string, v: real)
    requires |vs| <= 255 && (Keyed(a.field) ==> v >= 0.0)
    requires forall i :: 0 <= i < |vs| ==> IsAt(vs[i], NameFor(a.field, k), v)
    ensures Flips(a, vs) <==> NewSide(a, v) && 12 * |vs| >= 10 * Minutes(a)
  {
    hide Level, Sums;
    if vs != [] {
      LevelMean(vs, a.field, k, v);
    }
  }

  /**
  Exact, for all ten kinds: over rows that all say v of an alert's kind, at most 255 of them in its window, the alert is
  sent if and only if the current value is on its new side and either it has a minimum of a minute, or v is on that side
  too, the window holds at least its minutes divided by 1.2 rows, and the rows reach back beyond it.
   */
  lemma LevelDecides(alerts: seq<Alert>, current: Current, now: int, table: seq<Row>, a: Alert, k: string, v: real)
    requires a in alerts && forall b <- alerts :: b.id == a.id ==> b == a
    requires InOrder(table) && AllLevel(table, a.field, k, v) && (Keyed(a.field) ==> v >= 0.0)
    requires CountFrom(table, StartOf(a, now)) <= 255
    ensures Sent(a.id, !a.triggered) in Handled(alerts, current, now, table)
            <==> && IsAsked(a, current)
                 && (|| a.min <= 1
                     || (&& NewSide(a, v) && 12 * CountFrom(table, StartOf(a, now)) >= 10 * a.min
                         && IsCovered(a, alerts, current, now, table)))
  {
    hide CurrentProposes, Handled, IsAsked, IsCovered, Window, Flips, Waiting, Fetched, Oldest, CountFrom, LevelAt;
    SentIff(alerts, current, now, table, Sent(a.id, !a.triggered));
    assert Sent(a.id, !a.triggered) in Handled(alerts, current, now, table) <==> IsSent(a, alerts, current, now, table);
    AskedIff(a, current);
    if CurrentProposes(a, current) && Minutes(a) > 1 {
      var rows, start := RowsFor(alerts, current, now, table), Since(a, now);
      CoveredIff(a, alerts, current, now, table);
      WaitingAlert(alerts, current, a);
      OldestBefore(Waiting(alerts, current), now, a);
      var after := Oldest(Waiting(alerts, current), now) - 90_000;
      FetchedCount(table, after, start);
      FetchedLevel(table, after, a.field, k, v);
      LevelWindow(rows, a.field, k, v, start);
      LevelFlips(a, Window(rows, a.field, start), k, v);
    }
  }
}
