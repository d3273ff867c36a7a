/**
The loops of HandleSystemAlerts (internal/alerts/alerts_system.go), proved to send what `ThresholdAlerts` defines.
 */
module ThresholdHandler {
  import opened Basics
  import opened Counters
  import opened Series
  import opened AlertReadings
  import opened ThresholdAlerts

  /** SystemAlertData: an alert with its running sum or sums and its count. */
  datatype Candidate = Candidate(alert: Alert, val: real, time: int, count: nat, sums: Series)

  // ---------------------------------------------------------------- the current values

  /** The first switch. */
  method ValueOf(c: Current, f: Field) returns (v: Option<real>)
    ensures v == CurrentValue(c, f)
  {
    match f
    case Cpu => return Some(c.cpu);
    case Memory => return Some(c.mem);
    case Bandwidth => return Some(Mebibytes(c.bandwidth));
    case Disk =>
      var most := FindLargest(Percents(c.extraFs), c.disk);
      return Some(most);
    case Temperature => return if c.temp < 1.0 then None else Some(c.temp);
    case Load1 => return Some(c.load1);
    case Load5 => return Some(c.load5);
    case Load15 => return Some(c.load15);
    case Gpu => return Some(c.gpu);
    case Battery => return if c.battery == 0 then None else Some(c.battery as real);
  }

  /** The loop over alerts: immediate ones are sent, the others wait for the rows. */
  method Sort(alerts: seq<Alert>, current: Current, now: int)
    returns (sent: seq<Sent>, waiting: seq<Alert>, oldest: int)
    ensures sent == Immediate(alerts, current) && waiting == Waiting(alerts, current) && oldest == Oldest(waiting, now)
  {
    hide CurrentValue;
    sent, waiting, oldest := [], [], now;
    for i := 0 to |alerts|
      invariant sent == Immediate(alerts[..i], current) && waiting == Waiting(alerts[..i], current)
      invariant oldest == Oldest(waiting, now)
    {
      assert alerts[..i + 1][..i] == alerts[..i];
      assert sent + [] == sent && waiting + [] == waiting;
      var a := alerts[i];
      var val := ValueOf(current, a.field);
      if val.None? {
        continue;
      }
      if a.field.Battery? {
        if (!a.triggered && val.value >= a.threshold) || (a.triggered && val.value < a.threshold) {
          continue;
        }
      } else {
        if (!a.triggered && val.value <= a.threshold) || (a.triggered && val.value > a.threshold) {
          continue;
        }
      }
      if Minutes(a) == 1 {
        sent := sent + [Sent(a.id, if a.field.Battery? then val.value < a.threshold else val.value > a.threshold)];
        continue;
      }
      var time := Since(a, now);
      if time < oldest {
        oldest := time;
      }
      assert (waiting + [a])[..|waiting|] == waiting;
      waiting := waiting + [a];
    }
    assert alerts[..|alerts|] == alerts;
  }

  predicate IsUntouched(c: Candidate, a: Alert, now: int) {
    c.alert == a && c.time == Since(a, now) && c.count == 0 && c.sums == map[]
  }

  /** The alerts whose window the rows cover. */
  method Keep(waiting: seq<Alert>, now: int, oldestRow: int) returns (kept: seq<Candidate>)
    ensures var covered := Covered(waiting, now, oldestRow);
            |kept| == |covered| && forall j :: 0 <= j < |kept| ==> IsUntouched(kept[j], covered[j], now)
  {
    kept := [];
    for i := 0 to |waiting|
      invariant |kept| == |Covered(waiting[..i], now, oldestRow)|
      invariant forall j :: 0 <= j < |kept| ==> IsUntouched(kept[j], Covered(waiting[..i], now, oldestRow)[j], now)
    {
      assert waiting[..i + 1][..i] == waiting[..i];
      var a := waiting[i];
      if Since(a, now) > oldestRow {
        kept := kept + [Candidate(a, 0.0, Since(a, now), 0, map[])];
      }
    }
    assert waiting[..|waiting|] == waiting;
  }

  // ---------------------------------------------------------------- the rows

  function Bumped(count: nat): nat {
    (count + 1) % 256
  }

  ghost function Joined(c: Candidate, readings: Option<Series>): Candidate {
    if readings.None? then c
    else if Keyed(c.alert.field) then c.(sums := Added(c.sums, readings.value), count := Bumped(c.count))
    else c.(val := c.val + Get(readings.value, ""), count := Bumped(c.count))
  }

  /** One row goes into a candidate whose window it is in; the first row resets the sum. */
  ghost function WithRow(c: Candidate, created: int, d: Decoded, first: bool): Candidate {
    var b := if first then c.(val := 0.0) else c;
    if created - 10_000 < b.time then b else Joined(b, Readings(d, b.alert.field))
  }

  /** The second switch: what the decoded row adds to a candidate. */
  method Join(c: Candidate, d: Decoded) returns (after: Candidate)
    ensures after == Joined(c, Readings(d, c.alert.field))
  {
    hide Disks;
    var v := 0.0;
    match c.alert.field {
      case Disk =>
        var sums := AddAll(c.sums, map["root" := d.disk]);
        sums := AddAll(sums, Percents(d.extraFs));
        AddedTwice(c.sums, map["root" := d.disk], Percents(d.extraFs));
        DisksAre(d);
        return c.(sums := sums, count := Bumped(c.count));
      case Temperature =>
        var sums := AddAll(c.sums, d.temps);
        return c.(sums := sums, count := Bumped(c.count));
      case Gpu =>
        if d.gpus == map[] {
          return c;
        }
        v := FindLargest(d.gpus, 0.0);
      case Cpu => v := d.cpu;
      case Memory => v := d.mem;
      case Bandwidth => v := Mebibytes((d.bandwidth.0 + d.bandwidth.1) % WORD);
      case Load1 => v := d.load1;
      case Load5 => v := d.load5;
      case Load15 => v := d.load15;
      case Battery => v := d.battery as real;
    }
    after := c.(val := c.val + v, count := Bumped(c.count));
  }

  lemma DisksAre(d: Decoded)
    ensures Disks(d) == Added(map["root" := d.disk], Percents(d.extraFs))
  {
  }

  lemma AddedTwice(x: Series, y: Series, z: Series)
    ensures Added(Added(x, y), z) == Added(x, Added(y, z))
  {
    var a, b := Added(Added(x, y), z), Added(x, Added(y, z));
    assert a.Keys == b.Keys == x.Keys + y.Keys + z.Keys;
    forall k <- a ensures a[k] == b[k] {
      AddedAt(x, y, k);
      AddedAt(y, z, k);
    }
  }

  method AddRow(candidates: seq<Candidate>, created: int, d: Decoded, first: bool) returns (after: seq<Candidate>)
    ensures |after| == |candidates|
    ensures forall j :: 0 <= j < |candidates| ==> after[j] == WithRow(candidates[j], created, d, first)
  {
    hide Readings, Joined;
    after := candidates;
    for j := 0 to |candidates|
      invariant |after| == |candidates|
      invariant forall k :: 0 <= k < j ==> after[k] == WithRow(candidates[k], created, d, first)
      invariant forall k :: j <= k < |candidates| ==> after[k] == candidates[k]
    {
      if first {
        after := after[j := after[j].(val := 0.0)];
      }
      if created - 10_000 < after[j].time {
        continue;
      }
      var c := Join(after[j], d);
      after := after[j := c];
    }
  }

  /** A candidate after some rows. */
  ghost function Tallied(a: Alert, now: int, rows: seq<Row>): Candidate {
    var vs := Window(rows, a.field, Since(a, now));
    Candidate(a, if Keyed(a.field) then 0.0 else Get(Sums(vs), ""), Since(a, now), |vs| % 256,
              if Keyed(a.field) then Sums(vs) else map[])
  }

  lemma TalliedNext(a: Alert, now: int, rows: seq<Row>, i: nat)
    requires i < |rows|
    ensures Tallied(a, now, rows[..i + 1])
         == WithRow(Tallied(a, now, rows[..i]), rows[i].created, Decoding(rows[..i + 1]), false)
  {
    hide Readings, Decoding, Added, Sums;
    assert rows[..i + 1][..i] == rows[..i];
    var start := Since(a, now);
    var vs, x := Window(rows[..i], a.field, start), Readings(Decoding(rows[..i + 1]), a.field);
    assert Window(rows[..i + 1], a.field, start) == vs + Counted(rows[i], x, start);
    assert vs + [] == vs;
    if x.Some? {
      SumsNext(vs, x.value);
    }
  }

  lemma SumsNext(vs: seq<Series>, x: Series)
    ensures Sums(vs + [x]) == Added(Sums(vs), x) && Get(Sums(vs + [x]), "") == Get(Sums(vs), "") + Get(x, "")
  {
    hide Added;
    assert (vs + [x])[..|vs|] == vs;
    AddedAt(Sums(vs), x, "");
  }

  lemma TalliedFirst(a: Alert, c: Candidate, now: int, rows: seq<Row>)
    requires rows != [] && IsUntouched(c, a, now)
    ensures WithRow(c, rows[0].created, Decoding(rows[..1]), true) == Tallied(a, now, rows[..1])
  {
    hide Readings;
    TalliedNext(a, now, rows, 0);
    assert rows[..0] == [];
  }

  /** The loop over the rows, all decoded into the same record. */
  method Tally(kept: seq<Candidate>, ghost covered: seq<Alert>, ghost now: int, rows: seq<Row>)
    returns (candidates: seq<Candidate>)
    requires rows != [] && |kept| == |covered|
    requires forall j :: 0 <= j < |kept| ==> IsUntouched(kept[j], covered[j], now)
    ensures |candidates| == |covered|
    ensures forall j :: 0 <= j < |covered| ==> candidates[j] == Tallied(covered[j], now, rows)
  {
    hide Tallied, WithRow, Decode, IsUntouched;
    assert rows[..1][..0] == [] && Decoding([]) == BLANK;
    var stats := Decode(BLANK, rows[0].stats);
    candidates := AddRow(kept, rows[0].created, stats, true);
    forall j | 0 <= j < |covered| ensures candidates[j] == Tallied(covered[j], now, rows[..1]) {
      TalliedFirst(covered[j], kept[j], now, rows);
    }
    for i := 1 to |rows|
      invariant stats == Decoding(rows[..i])
      invariant |candidates| == |covered|
      invariant forall j :: 0 <= j < |covered| ==> candidates[j] == Tallied(covered[j], now, rows[..i])
    {
      assert rows[..i + 1][..i] == rows[..i];
      stats := Decode(stats, rows[i].stats);
      candidates := AddRow(candidates, rows[i].created, stats, false);
      forall j | 0 <= j < |covered| ensures candidates[j] == Tallied(covered[j], now, rows[..i + 1]) {
        TalliedNext(covered[j], now, rows, i);
      }
    }
    assert rows[..|rows|] == rows;
  }

  // ---------------------------------------------------------------- the decision

  lemma LargestScaled(ms: Series, n: real)
    requires n > 0.0
    ensures Largest(map k | k in ms :: ms[k] / n, 0.0) == Largest(ms, 0.0) / n
  {
    var ns, m := map k | k in ms :: ms[k] / n, Largest(ms, 0.0);
    forall k <- ns ensures ns[k] <= m / n {
      Divided(ms[k], m, n);
    }
    Divided(0.0, m, n);
    if m != 0.0 {
      var k :| k in ms && ms[k] == m;
      assert ns[k] == m / n;
    }
    LargestUnique(ns, 0.0, m / n, Largest(ns, 0.0));
  }

  lemma Divided(x: real, y: real, n: real)
    requires x <= y && n > 0.0
    ensures x / n <= y / n
  {
    Quotient(x, n, y / n);
  }

  /** The third switch: sensors are averaged before the largest is taken, disks after. */
  method MeanOf(c: Candidate) returns (mean: real)
    requires c.count > 0
    ensures mean == (if Keyed(c.alert.field) then Largest(c.sums, 0.0) else c.val) / c.count as real
  {
    var n := c.count as real;
    match c.alert.field {
      case Disk =>
        var most := FindLargest(c.sums, 0.0);
        mean := most / n;
      case Temperature =>
        LargestScaled(c.sums, n);
        mean := FindLargest(map k | k in c.sums :: c.sums[k] / n, 0.0);
      case _ => mean := c.val / n;
    }
  }

  /** The final loop: the counted mean decides. */
  method Decide(candidates: seq<Candidate>, ghost alerts: seq<Alert>, ghost now: int, ghost rows: seq<Row>)
    returns (sent: seq<Sent>)
    requires |candidates| == |alerts| && forall j :: 0 <= j < |alerts| ==>
             candidates[j] == Tallied(alerts[j], now, rows)
    ensures sent == Confirmed(alerts, now, rows)
  {
    hide Window, Sums;
    sent := [];
    for j := 0 to |candidates|
      invariant sent == Confirmed(alerts[..j], now, rows)
    {
      assert alerts[..j + 1][..j] == alerts[..j];
      assert candidates[j] == Tallied(alerts[j], now, rows);
      assert sent + [] == sent;
      var c := candidates[j];
      if 12 * c.count >= 10 * Minutes(c.alert) {
        var mean := MeanOf(c);
        var high := if c.alert.field.Battery? then mean < c.alert.threshold else mean > c.alert.threshold;
        if !c.alert.triggered && high {
          sent := sent + [Sent(c.alert.id, true)];
        } else if c.alert.triggered && !high {
          sent := sent + [Sent(c.alert.id, false)];
        }
      }
    }
    assert alerts[..|alerts|] == alerts;
  }

  /** HandleSystemAlerts, on the rows of the system in order of creation. */
  method HandleSystemAlerts(alerts: seq<Alert>, current: Current, now: int, table: seq<Row>) returns (sent: seq<Sent>)
    ensures sent == Handled(alerts, current, now, table)
  {
    hide Immediate, Confirmed, Waiting, Oldest, Fetched, Tallied;
    var waiting, oldest;
    sent, waiting, oldest := Sort(alerts, current, now);
    var rows := Fetched(table, oldest - 90_000);
    if rows == [] {
      assert sent + [] == sent;
      return;
    }
    var kept := Keep(waiting, now, rows[0].created);
    ghost var covered := Covered(waiting, now, rows[0].created);
    var candidates := Tally(kept, covered, now, rows);
    var more := Decide(candidates, covered, now, rows);
    sent := sent + more;
  }
}
