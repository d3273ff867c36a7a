/**
Threshold alerts (internal/alerts/alerts_system.go): the current value proposes a flip and the mean of the stored rows
in the alert's window has to agree. Times are milliseconds, values reals; the counter of rows is a byte.
 */
module ThresholdAlerts {
  import opened Basics
  import opened Counters
  import opened Series
  import opened AlertReadings

  type Id = string

  datatype Row = Row(created: int, stats: Stored)

  datatype Alert = Alert(id: Id, field: Field, threshold: real, triggered: bool, min: nat)

  datatype Sent = Sent(id: Id, triggered: bool)

  function Minutes(a: Alert): nat {
    if a.min < 1 then 1 else a.min
  }

  // ---------------------------------------------------------------- one alert

  /** The value is on the side the alert is not on; a battery alert is on when the value is low. */
  predicate Proposes(a: Alert, v: real) {
    if a.field.Battery? then (if a.triggered then v >= a.threshold else v < a.threshold)
    else if a.triggered then v <= a.threshold
    else v > a.threshold
  }

  ghost predicate CurrentProposes(a: Alert, c: Current) {
    var v := CurrentValue(c, a.field);
    v.Some? && Proposes(a, v.value)
  }

  function Since(a: Alert, now: int): int {
    now - Minutes(a) * MINUTE
  }

  predicate InWindow(r: Row, start: int) {
    r.created - 10_000 >= start
  }

  /** The record after the rows have been decoded into it. */
  function Decoding(rows: seq<Row>): Decoded {
    if rows == [] then BLANK else Decode(Decoding(rows[..|rows| - 1]), rows[|rows| - 1].stats)
  }

  ghost function Counted(r: Row, readings: Option<Series>, start: int): seq<Series> {
    if InWindow(r, start) && readings.Some? then [readings.value] else []
  }

  /** The readings that count in the window. */
  ghost function Window(rows: seq<Row>, f: Field, start: int): seq<Series> {
    if rows == [] then []
    else
      Window(rows[..|rows| - 1], f, start) + Counted(rows[|rows| - 1], Readings(Decoding(rows), f), start)
  }

  function Sums(vs: seq<Series>): Series {
    if vs == [] then map[] else Added(Sums(vs[..|vs| - 1]), vs[|vs| - 1])
  }

  /** What is divided by the count: the largest of the named sums, or the one sum. */
  ghost function Level(sums: Series, f: Field): real {
    if Keyed(f) then Largest(sums, 0.0) else Get(sums, "")
  }

  /** The decision, given what was summed and what the byte counted. At least min / 1.2 rows are asked for. */
  ghost predicate Confirms(a: Alert, sums: Series, count: nat) {
    12 * count >= 10 * Minutes(a) && count > 0 && Proposes(a, Level(sums, a.field) / count as real)
  }

  /** The alert flips on these readings. */
  ghost predicate Flips(a: Alert, vs: seq<Series>) {
    Confirms(a, Sums(vs), |vs| % 256)
  }

  // ---------------------------------------------------------------- all alerts of a system

  /** Alerts with a minimum of one minute flip on the current value alone. */
  ghost function Immediate(alerts: seq<Alert>, current: Current): seq<Sent> {
    if alerts == [] then []
    else
      var a := alerts[|alerts| - 1];
      Immediate(alerts[..|alerts| - 1], current)
      + if CurrentProposes(a, current) && Minutes(a) == 1 then [Sent(a.id, !a.triggered)] else []
  }

  ghost function Waiting(alerts: seq<Alert>, current: Current): seq<Alert> {
    if alerts == [] then []
    else
      var a := alerts[|alerts| - 1];
      Waiting(alerts[..|alerts| - 1], current) + if CurrentProposes(a, current) && Minutes(a) > 1 then [a] else []
  }

  function Oldest(waiting: seq<Alert>, now: int): int {
    if waiting == [] then now
    else
      var rest, t := Oldest(waiting[..|waiting| - 1], now), Since(waiting[|waiting| - 1], now);
      if t < rest then t else rest
  }

  /** The rows the query returns. */
  function Fetched(table: seq<Row>, after: int): seq<Row> {
    if table == [] then []
    else
      var r := table[|table| - 1];
      Fetched(table[..|table| - 1], after) + if r.created > after then [r] else []
  }

  /** The alerts whose window begins after the oldest row fetched. */
  function Covered(waiting: seq<Alert>, now: int, oldestRow: int): seq<Alert> {
    if waiting == [] then []
    else
      var a := waiting[|waiting| - 1];
      Covered(waiting[..|waiting| - 1], now, oldestRow) + if Since(a, now) > oldestRow then [a] else []
  }

  ghost function Confirmed(alerts: seq<Alert>, now: int, rows: seq<Row>): seq<Sent> {
    if alerts == [] then []
    else
      var a := alerts[|alerts| - 1];
      Confirmed(alerts[..|alerts| - 1], now, rows)
      + if Flips(a, Window(rows, a.field, Since(a, now))) then [Sent(a.id, !a.triggered)] else []
  }

  /** The rows a call reads. */
  ghost function RowsFor(alerts: seq<Alert>, current: Current, now: int, table: seq<Row>): seq<Row> {
    Fetched(table, Oldest(Waiting(alerts, current), now) - 90_000)
  }

  /** HandleSystemAlerts */
  ghost function Handled(alerts: seq<Alert>, current: Current, now: int, table: seq<Row>): seq<Sent> {
    var rows := RowsFor(alerts, current, now, table);
    Immediate(alerts, current)
    + if rows == [] then [] else Confirmed(Covered(Waiting(alerts, current), now, rows[0].created), now, rows)
  }

  // ---------------------------------------------------------------- means and their values

  function Sum(vs: seq<real>): real {
    if vs == [] then 0.0 else Sum(vs[..|vs| - 1]) + vs[|vs| - 1]
  }

  lemma TimesNext(n: nat, x: real)
    ensures (n + 1) as real * x == n as real * x + x
  {
    assert (n + 1) as real == n as real + 1.0;
  }

  /** Values that are all on one side of t have their sum on that side of n times t. */
  lemma {:induction false} AllAtMost(vs: seq<real>, t: real)
    requires forall i :: 0 <= i < |vs| ==> vs[i] <= t
    ensures Sum(vs) <= |vs| as real * t
  {
    if vs != [] {
      AllAtMost(vs[..|vs| - 1], t);
      TimesNext(|vs| - 1, t);
    }
  }

  lemma {:induction false} AllAbove(vs: seq<real>, t: real)
    requires vs != [] && forall i :: 0 <= i < |vs| ==> vs[i] > t
    ensures Sum(vs) > |vs| as real * t
  {
    var init := vs[..|vs| - 1];
    TimesNext(|init|, t);
    if init == [] {
      assert vs == [vs[0]];
    } else {
      AllAbove(init, t);
    }
  }

  lemma {:induction false} AllAtLeast(vs: seq<real>, t: real)
    requires forall i :: 0 <= i < |vs| ==> vs[i] >= t
    ensures Sum(vs) >= |vs| as real * t
  {
    if vs != [] {
      AllAtLeast(vs[..|vs| - 1], t);
      TimesNext(|vs| - 1, t);
    }
  }

  lemma {:induction false} AllBelow(vs: seq<real>, t: real)
    requires vs != [] && forall i :: 0 <= i < |vs| ==> vs[i] < t
    ensures Sum(vs) < |vs| as real * t
  {
    var init := vs[..|vs| - 1];
    TimesNext(|init|, t);
    if init == [] {
      assert vs == [vs[0]];
    } else {
      AllBelow(init, t);
    }
  }

  lemma Quotient(s: real, n: real, t: real)
    requires n > 0.0
    ensures s / n <= t <==> s <= n * t
    ensures s / n < t <==> s < n * t
  {
    assert s / n * n == s;
    if s / n <= t {
      assert n * (s / n) <= n * t;
    } else {
      assert n * (s / n) > n * t;
    }
  }

  /** A mean on the side that an alert asks for has a value on that side. */
  lemma SomeProposes(a: Alert, vs: seq<real>)
    requires vs != [] && Proposes(a, Sum(vs) / |vs| as real)
    ensures exists i :: 0 <= i < |vs| && Proposes(a, vs[i])
  {
    hide Sum;
    Quotient(Sum(vs), |vs| as real, a.threshold);
    if forall i :: 0 <= i < |vs| ==> !Proposes(a, vs[i]) {
      if a.field.Battery? {
        if a.triggered { AllBelow(vs, a.threshold); } else { AllAtLeast(vs, a.threshold); }
      } else {
        if a.triggered { AllAbove(vs, a.threshold); } else { AllAtMost(vs, a.threshold); }
      }
    }
  }

  // ---------------------------------------------------------------- a flip is confirmed by the rows

  function Column(vs: seq<Series>, k: string): seq<real> {
    seq(|vs|, i requires 0 <= i < |vs| => Get(vs[i], k))
  }

  lemma {:induction false} SumsColumn(vs: seq<Series>, k: string)
    ensures Get(Sums(vs), k) == Sum(Column(vs, k))
  {
    if vs != [] {
      var n := |vs| - 1;
      SumsColumn(vs[..n], k);
      assert Column(vs, k)[..n] == Column(vs[..n], k);
    }
  }

  /** A reading of this name is not above t; a reading without the name counts as zero. */
  predicate Dips(vs: seq<Series>, k: string, t: real) {
    exists i :: 0 <= i < |vs| && Get(vs[i], k) <= t
  }

  /**
  What bears a flip out. One series: a reading on the new side. Named series: to trigger, a reading whose largest value
  is above the threshold; to resolve, for every name a reading that is not.
   */
  ghost predicate Agreed(a: Alert, vs: seq<Series>) {
    if !Keyed(a.field) then exists i :: 0 <= i < |vs| && Proposes(a, Get(vs[i], ""))
    else if a.triggered then forall k: string :: Dips(vs, k, a.threshold)
    else exists i :: 0 <= i < |vs| && Largest(vs[i], 0.0) > a.threshold
  }

  lemma ColumnProposes(a: Alert, vs: seq<Series>, k: string)
    requires vs != [] && Proposes(a, Get(Sums(vs), k) / |vs| as real)
    ensures exists i :: 0 <= i < |vs| && Proposes(a, Get(vs[i], k))
  {
    SumsColumn(vs, k);
    SomeProposes(a, Column(vs, k));
    var i :| 0 <= i < |vs| && Proposes(a, Column(vs, k)[i]);
    assert Proposes(a, Get(vs[i], k));
  }

  lemma KeyedTriggers(a: Alert, vs: seq<Series>)
    requires Keyed(a.field) && !a.triggered && vs != [] && Proposes(a, Level(Sums(vs), a.field) / |vs| as real)
    ensures Agreed(a, vs)
  {
    hide Sums;
    var sums, n := Sums(vs), |vs| as real;
    var top := Largest(sums, 0.0);
    if top == 0.0 {
      Quotient(0.0, n, a.threshold);
      assert Largest(vs[0], 0.0) > a.threshold;
    } else {
      var k :| k in sums && sums[k] == top;
      ColumnProposes(a, vs, k);
      var i :| 0 <= i < |vs| && Get(vs[i], k) > a.threshold;
      assert Largest(vs[i], 0.0) > a.threshold;
    }
  }

  lemma KeyedResolves(a: Alert, vs: seq<Series>)
    requires Keyed(a.field) && a.triggered && vs != [] && Proposes(a, Level(Sums(vs), a.field) / |vs| as real)
    ensures Agreed(a, vs)
  {
    hide Sums;
    var sums, n := Sums(vs), |vs| as real;
    Quotient(Largest(sums, 0.0), n, a.threshold);
    forall k: string ensures Dips(vs, k, a.threshold) {
      Quotient(Get(sums, k), n, a.threshold);
      ColumnProposes(a, vs, k);
      var i :| 0 <= i < |vs| && Proposes(a, Get(vs[i], k));
    }
  }

  /**
  With at most 255 readings in the window, a flip means that their true mean is on the new side too, that there were at
  least min / 1.2 of them, and so that the readings themselves bear it out.
   */
  lemma FlipIsAgreed(a: Alert, vs: seq<Series>)
    requires Flips(a, vs) && |vs| <= 255
    ensures 12 * |vs| >= 10 * Minutes(a) && |vs| > 0 && Proposes(a, Level(Sums(vs), a.field) / |vs| as real)
    ensures Agreed(a, vs)
  {
    hide Sums, Proposes, Largest;
    if !Keyed(a.field) {
      ColumnProposes(a, vs, "");
    } else if a.triggered {
      KeyedResolves(a, vs);
    } else {
      KeyedTriggers(a, vs);
    }
  }

  /** The byte has not wrapped for n readings, or has wrapped to too few to flip at all. */
  predicate Agreeable(min: nat, n: nat) {
    n <= 255 || 12 * (n % 256) < 10 * (if min < 1 then 1 else min)
  }

  function KeyFor(f: Field): string {
    if Keyed(f) then "root" else ""
  }

  function Copies<T>(n: nat, x: T): (xs: seq<T>)
    ensures |xs| == n && forall i :: 0 <= i < n ==> xs[i] == x
  {
    if n == 0 then [] else Copies(n - 1, x) + [x]
  }

  lemma AddedSingle(k: string, x: real, y: real)
    ensures Added(map[k := x], map[k := y]) == map[k := x + y]
  {
  }

  function Repeated(n: nat, v: real): real {
    if n == 0 then 0.0 else Repeated(n - 1, v) + v
  }

  lemma {:induction false} RepeatedIs(n: nat, v: real)
    ensures Repeated(n, v) == n as real * v
  {
    if n > 0 {
      RepeatedIs(n - 1, v);
      TimesNext(n - 1, v);
    }
  }

  lemma {:induction false} CopiesSums(n: nat, k: string, v: real)
    requires n > 0
    ensures Sums(Copies(n, map[k := v])) == map[k := Repeated(n, v)]
  {
    hide Added;
    var x: Series := map[k := v];
    var before := Copies(n - 1, x);
    assert Copies(n, x)[..n - 1] == before;
    if n > 1 {
      CopiesSums(n - 1, k, v);
      AddedSingle(k, Repeated(n - 1, v), v);
    } else {
      assert before == [] && Sums([]) == map[];
      AddedNothing(x);
    }
  }

  lemma AddedNothing(x: Series)
    ensures Added(map[], x) == x
  {
  }

  lemma SingleLargest(k: string, v: real)
    requires v >= 0.0
    ensures Largest(map[k := v], 0.0) == v
  {
    var ms := map[k := v];
    assert ms[k] == v;
    LargestUnique(ms, 0.0, v, Largest(ms, 0.0));
  }

  /** An alert that the mean of n level readings flips once the byte has wrapped. */
  function Misleadable(id: Id, f: Field, min: nat, n: nat): Alert
    requires n % 256 > 0
  {
    if f.Battery? then Alert(id, f, n as real / (n % 256) as real, true, min) else Alert(id, f, 1.0, false, min)
  }

  /**
  Readings that are all on the old side flip the alert when the byte has wrapped: the sum is divided by too little.
   */
  lemma WrapMisleads(id: Id, f: Field, min: nat, n: nat)
    requires !Agreeable(min, n)
    ensures n % 256 > 0
    ensures var a, vs := Misleadable(id, f, min, n), Copies(n, map[KeyFor(f) := 1.0]);
            Flips(a, vs) && !Agreed(a, vs)
  {
    hide Sums, Copies, Largest;
    var a, c := Misleadable(id, f, min, n), (n % 256) as real;
    CopiesSums(n, KeyFor(f), 1.0);
    RepeatedIs(n, 1.0);
    SingleLargest(KeyFor(f), n as real);
    SingleLargest(KeyFor(f), 1.0);
    assert n as real > c > 0.0;
    Quotient(n as real, c, 1.0);
  }

  /**
  Exact: for windows of n readings, every flip of an alert with this field and minimum is borne out by the readings if
  and only if the byte has not wrapped, or has wrapped to too few rows to flip at all.
   */
  lemma AgreementIff(id: Id, f: Field, min: nat, n: nat)
    ensures (forall threshold: real, triggered: bool, vs: seq<Series> ::
               |vs| == n && Flips(Alert(id, f, threshold, triggered, min), vs)
               ==> Agreed(Alert(id, f, threshold, triggered, min), vs))
            <==> Agreeable(min, n)
  {
    hide Sums, Level, Proposes, Agreed;
    if Agreeable(min, n) {
      forall threshold: real, triggered: bool, vs: seq<Series>
        | |vs| == n && Flips(Alert(id, f, threshold, triggered, min), vs)
        ensures Agreed(Alert(id, f, threshold, triggered, min), vs)
      {
        FlipIsAgreed(Alert(id, f, threshold, triggered, min), vs);
      }
    } else {
      WrapMisleads(id, f, min, n);
      var a := Misleadable(id, f, min, n);
      assert a == Alert(id, f, a.threshold, a.triggered, min);
    }
  }

  /** A named alert resolves although every row had a value above the threshold: the names took turns. */
  lemma ResolvedWhileHot(id: Id)
    ensures var a := Alert(id, Temperature, 60.0, true, 2);
            var vs := [map["a" := 100.0, "b" := 0.0], map["a" := 0.0, "b" := 100.0]];
            Flips(a, vs) && forall i :: 0 <= i < |vs| ==> Largest(vs[i], 0.0) > a.threshold
  {
    var x, y: Series := map["a" := 100.0, "b" := 0.0], map["a" := 0.0, "b" := 100.0];
    assert x["a"] == 100.0 && y["b"] == 100.0;
    assert [x, y][..1] == [x] && [x][..0] == [];
    assert Sums([x]) == x;
    var sums: Series := map["a" := 100.0, "b" := 100.0];
    assert Sums([x, y]) == sums;
    assert sums["a"] == 100.0;
    LargestUnique(sums, 0.0, 100.0, Largest(sums, 0.0));
  }

  // ---------------------------------------------------------------- rows that are decoded into one record

  /** What the rows in the window say themselves. */
  ghost function OwnWindow(rows: seq<Row>, f: Field, start: int): seq<Series> {
    if rows == [] then []
    else
      var r := rows[|rows| - 1];
      OwnWindow(rows[..|rows| - 1], f, start) + Counted(r, Own(r.stats, f), start)
  }

  /** A row of the window carries something that only earlier rows said. */
  ghost predicate Stale(rows: seq<Row>, f: Field, start: int) {
    exists i :: 0 <= i < |rows| && InWindow(rows[i], start) && Carries(Decoding(rows[..i]), rows[i].stats, f)
  }

  ghost predicate AlikeAll(vs: seq<Series>, ws: seq<Series>) {
    |vs| == |ws| && forall i :: 0 <= i < |vs| ==> Alike(vs[i], ws[i])
  }

  lemma StaleInit(rows: seq<Row>, f: Field, start: int)
    requires rows != [] && !Stale(rows, f, start)
    ensures !Stale(rows[..|rows| - 1], f, start)
  {
    var init := rows[..|rows| - 1];
    forall i | 0 <= i < |init| && InWindow(init[i], start) ensures !Carries(Decoding(init[..i]), init[i].stats, f) {
      assert init[..i] == rows[..i] && init[i] == rows[i];
    }
  }

  /** Without such a row the readings are the rows' own. */
  lemma {:induction false} FreshWindow(rows: seq<Row>, f: Field, start: int)
    requires !Stale(rows, f, start)
    ensures AlikeAll(Window(rows, f, start), OwnWindow(rows, f, start))
  {
    hide Alike, Readings, Carries, Stale;
    if rows != [] {
      var n := |rows| - 1;
      StaleInit(rows, f, start);
      FreshWindow(rows[..n], f, start);
      if InWindow(rows[n], start) {
        FreshLast(rows, f, start);
      }
    }
  }

  lemma FreshLast(rows: seq<Row>, f: Field, start: int)
    requires rows != [] && !Stale(rows, f, start) && InWindow(rows[|rows| - 1], start)
    ensures SameReadings(Readings(Decoding(rows), f), Own(rows[|rows| - 1].stats, f))
  {
    hide Alike, Readings, Carries, SameReadings;
    var n := |rows| - 1;
    StaleIff(Decoding(rows[..n]), rows[n].stats, f);
  }

  lemma AlikeLargest(x: Series, y: Series)
    requires Alike(x, y)
    ensures Largest(x, 0.0) == Largest(y, 0.0)
  {
    var m := Largest(x, 0.0);
    forall k <- y ensures y[k] <= m {
      assert Get(x, k) == Get(y, k);
    }
    if m != 0.0 {
      var k :| k in x && x[k] == m;
      assert Get(x, k) == Get(y, k);
      assert k in y;
    }
    LargestUnique(y, 0.0, m, Largest(y, 0.0));
  }

  /** What readings bear out does not depend on names without values. */
  lemma AlikeAgreed(a: Alert, vs: seq<Series>, ws: seq<Series>)
    requires AlikeAll(vs, ws) && Agreed(a, vs)
    ensures Agreed(a, ws)
  {
    hide Largest, Proposes;
    if !Keyed(a.field) {
      var i :| 0 <= i < |vs| && Proposes(a, Get(vs[i], ""));
      assert Alike(vs[i], ws[i]);
      assert Proposes(a, Get(ws[i], ""));
    } else if a.triggered {
      forall k: string ensures Dips(ws, k, a.threshold) {
        assert Dips(vs, k, a.threshold);
        var i :| 0 <= i < |vs| && Get(vs[i], k) <= a.threshold;
        assert Alike(vs[i], ws[i]);
        assert Get(ws[i], k) <= a.threshold;
      }
    } else {
      var i :| 0 <= i < |vs| && Largest(vs[i], 0.0) > a.threshold;
      AlikeLargest(vs[i], ws[i]);
      assert Largest(ws[i], 0.0) > a.threshold;
    }
  }

  // ---------------------------------------------------------------- everything sent is justified

  /** The rows of a window are fetched if the query goes back far enough. */
  lemma {:induction false} OwnFetched(table: seq<Row>, after: int, f: Field, start: int)
    requires after <= start
    ensures OwnWindow(Fetched(table, after), f, start) == OwnWindow(table, f, start)
  {
    if table != [] {
      var init, r := table[..|table| - 1], table[|table| - 1];
      OwnFetched(init, after, f, start);
      var rows := Fetched(init, after);
      assert (rows + [r])[..|rows|] == rows && rows + [] == rows;
      var own := OwnWindow(init, f, start);
      assert own + [] == own;
    }
  }

  lemma {:induction false} FetchedRow(table: seq<Row>, after: int, r: Row)
    ensures r in Fetched(table, after) <==> r in table && r.created > after
  {
    if table != [] {
      FetchedRow(table[..|table| - 1], after, r);
      assert table == table[..|table| - 1] + [table[|table| - 1]];
    }
  }

  lemma {:induction false} WaitingAlert(alerts: seq<Alert>, current: Current, a: Alert)
    ensures a in Waiting(alerts, current) <==> a in alerts && CurrentProposes(a, current) && Minutes(a) > 1
  {
    if alerts != [] {
      WaitingAlert(alerts[..|alerts| - 1], current, a);
      assert alerts == alerts[..|alerts| - 1] + [alerts[|alerts| - 1]];
    }
  }

  lemma {:induction false} OldestBefore(waiting: seq<Alert>, now: int, a: Alert)
    requires a in waiting
    ensures Oldest(waiting, now) <= Since(a, now)
  {
    var init := waiting[..|waiting| - 1];
    assert waiting == init + [waiting[|waiting| - 1]];
    if a in init {
      OldestBefore(init, now, a);
    }
  }

  lemma {:induction false} CoveredAlert(waiting: seq<Alert>, now: int, oldestRow: int, a: Alert)
    ensures a in Covered(waiting, now, oldestRow) <==> a in waiting && Since(a, now) > oldestRow
  {
    if waiting != [] {
      CoveredAlert(waiting[..|waiting| - 1], now, oldestRow, a);
      assert waiting == waiting[..|waiting| - 1] + [waiting[|waiting| - 1]];
    }
  }

  lemma {:induction false} ImmediateSent(alerts: seq<Alert>, current: Current, s: Sent)
    requires s in Immediate(alerts, current)
    ensures exists a <- alerts :: s == Sent(a.id, !a.triggered) && CurrentProposes(a, current) && Minutes(a) == 1
  {
    var init, last := alerts[..|alerts| - 1], alerts[|alerts| - 1];
    if s in Immediate(init, current) {
      ImmediateSent(init, current, s);
      var a :| a in init && s == Sent(a.id, !a.triggered) && CurrentProposes(a, current) && Minutes(a) == 1;
      assert a in alerts;
    } else {
      assert last in alerts;
    }
  }

  lemma {:induction false} ConfirmedSent(alerts: seq<Alert>, now: int, rows: seq<Row>, s: Sent)
    requires s in Confirmed(alerts, now, rows)
    ensures exists a <- alerts :: s == Sent(a.id, !a.triggered) && Flips(a, Window(rows, a.field, Since(a, now)))
  {
    hide Flips, Window;
    var init, last := alerts[..|alerts| - 1], alerts[|alerts| - 1];
    if s in Confirmed(init, now, rows) {
      ConfirmedSent(init, now, rows, s);
      var a :| a in init && s == Sent(a.id, !a.triggered) && Flips(a, Window(rows, a.field, Since(a, now)));
      assert a in alerts;
    } else {
      assert last in alerts;
    }
  }

  /**
  Why an alert with a window was sent: stored rows reach back beyond the window, and those in it bear the flip out.
   */
  ghost predicate Justified(a: Alert, now: int, table: seq<Row>) {
    && (exists r <- table :: r.created < Since(a, now))
    && Agreed(a, OwnWindow(table, a.field, Since(a, now)))
  }

  /** No waiting alert has so many rows in its window that the byte misleads it. */
  ghost predicate Countable(alerts: seq<Alert>, current: Current, now: int, table: seq<Row>) {
    forall a <- alerts :: CurrentProposes(a, current) && Minutes(a) > 1 ==>
      Agreeable(a.min, |Window(RowsFor(alerts, current, now, table), a.field, Since(a, now))|)
  }

  lemma FlipJustified(a: Alert, now: int, table: seq<Row>, after: int)
    requires var rows, start := Fetched(table, after), Since(a, now);
             && after <= start && rows != [] && start > rows[0].created && !Stale(rows, a.field, start)
             && Flips(a, Window(rows, a.field, start)) && Agreeable(a.min, |Window(rows, a.field, start)|)
    ensures Justified(a, now, table)
  {
    hide Window, OwnWindow, Sums, Level, Proposes, Agreed, Fetched, Stale;
    var rows, start := Fetched(table, after), Since(a, now);
    FetchedRow(table, after, rows[0]);
    FlipIsAgreed(a, Window(rows, a.field, start));
    FreshWindow(rows, a.field, start);
    AlikeAgreed(a, Window(rows, a.field, start), OwnWindow(rows, a.field, start));
    OwnFetched(table, after, a.field, start);
  }

  /**
  Everything sent is an alert that flipped because the current value asked for it, and, when it has a window of more
  than a minute, because rows reach back beyond the window and those in it bear it out, unless one of them carries what
  only earlier rows said.
   */
  lemma SentIsJustified(alerts: seq<Alert>, current: Current, now: int, table: seq<Row>, s: Sent)
    requires s in Handled(alerts, current, now, table) && Countable(alerts, current, now, table)
    ensures exists a <- alerts ::
              && s == Sent(a.id, !a.triggered) && CurrentProposes(a, current)
              && (|| Minutes(a) == 1 || Justified(a, now, table)
                  || Stale(RowsFor(alerts, current, now, table), a.field, Since(a, now)))
  {
    hide Immediate, Confirmed, Covered, Waiting, Oldest, Fetched, Window, Flips, Justified, CurrentProposes, Stale;
    var waiting := Waiting(alerts, current);
    var after := Oldest(waiting, now) - 90_000;
    var rows := Fetched(table, after);
    if s in Immediate(alerts, current) {
      ImmediateSent(alerts, current, s);
    } else {
      var covered := Covered(waiting, now, rows[0].created);
      ConfirmedSent(covered, now, rows, s);
      var a :| a in covered && s == Sent(a.id, !a.triggered) && Flips(a, Window(rows, a.field, Since(a, now)));
      CoveredAlert(waiting, now, rows[0].created, a);
      WaitingAlert(alerts, current, a);
      OldestBefore(waiting, now, a);
      if !Stale(rows, a.field, Since(a, now)) {
        FlipJustified(a, now, table, after);
      }
    }
  }

  // ---------------------------------------------------------------- the handler can be misled

  /** Everything a row can say is one. */
  const ONES := Stored(1.0, 1.0, 1.0, 1.0, 1.0, 1.0, Some((1048576, 0)), Some(1), map["" := 1.0], map["root" := 1.0],
                       map[])

  lemma OnesReadings(f: Field)
    ensures Own(ONES, f) == Some(map[KeyFor(f) := 1.0])
  {
    var d := Decode(BLANK, ONES);
    assert d.gpus == map["" := 1.0] && d.temps == map["root" := 1.0] && Percents(d.extraFs) == map[];
    assert Added(map["root" := 1.0], map[]) == map["root" := 1.0];
    SingleLargest("", 1.0);
  }

  /** Values above one, and a battery at n. */
  function High(n: nat): Current {
    Current(2.0, 2.0, 2097152, 2.0, map[], 2.0, 2.0, 2.0, 2.0, 2.0, n)
  }

  lemma HighValue(n: nat, f: Field)
    requires n > 0
    ensures CurrentValue(High(n), f) == Some(if f.Battery? then n as real else 2.0)
  {
    assert Percents(map[]) == map[];
    LargestUnique(map[], 2.0, 2.0, Largest(map[], 2.0));
  }

  /** A row from before the window and n equal rows in it, five seconds apart. */
  function Table(n: nat, start: int, first: Stored, rest: Stored): seq<Row> {
    if n == 0 then [Row(start - 1000, first)]
    else Table(n - 1, start, first, rest) + [Row(start + 10_000 + 5000 * (n - 1), rest)]
  }

  lemma DecodeTwice(d: Decoded, s: Stored)
    ensures Decode(Decode(d, s), s) == Decode(d, s)
  {
    var x := Decode(d, s);
    assert x.gpus + s.gpus == x.gpus && x.temps + s.temps == x.temps && x.extraFs + s.extraFs == x.extraFs;
  }

  lemma {:induction false} TableDecoding(n: nat, start: int, first: Stored, rest: Stored)
    ensures Table(n, start, first, rest) != [] && Table(n, start, first, rest)[0] == Row(start - 1000, first)
    ensures Decoding(Table(n, start, first, rest)) == if n == 0 then Decode(BLANK, first)
            else Decode(Decode(BLANK, first), rest)
  {
    hide Decode;
    var table := Table(n, start, first, rest);
    if n == 0 {
      assert table[..0] == [] && Decoding([]) == BLANK;
    } else {
      TableDecoding(n - 1, start, first, rest);
      assert table[..|table| - 1] == Table(n - 1, start, first, rest);
      DecodeTwice(Decode(BLANK, first), rest);
    }
  }

  lemma {:induction false} TableFetched(n: nat, start: int, first: Stored, rest: Stored)
    ensures Fetched(Table(n, start, first, rest), start - 90_000) == Table(n, start, first, rest)
  {
    var table := Table(n, start, first, rest);
    if n == 0 {
      assert table[..0] == [];
    } else {
      TableFetched(n - 1, start, first, rest);
      assert table[..|table| - 1] == Table(n - 1, start, first, rest);
    }
  }

  lemma {:induction false} TableWindow(n: nat, f: Field, start: int, first: Stored, rest: Stored, v: Series)
    requires Readings(Decode(Decode(BLANK, first), rest), f) == Some(v)
    ensures Window(Table(n, start, first, rest), f, start) == Copies(n, v)
  {
    hide Decode, Readings, Decoding;
    var table := Table(n, start, first, rest);
    TableDecoding(n, start, first, rest);
    if n == 0 {
      assert table[..0] == [];
    } else {
      TableWindow(n - 1, f, start, first, rest, v);
      assert table[..|table| - 1] == Table(n - 1, start, first, rest);
    }
  }

  lemma {:induction false} TableOwn(n: nat, f: Field, start: int, first: Stored, rest: Stored, v: Series)
    requires Own(rest, f) == Some(v)
    ensures OwnWindow(Table(n, start, first, rest), f, start) == Copies(n, v)
  {
    hide Own;
    var table := Table(n, start, first, rest);
    if n == 0 {
      assert table[..0] == [];
    } else {
      TableOwn(n - 1, f, start, first, rest, v);
      assert table[..|table| - 1] == Table(n - 1, start, first, rest);
    }
  }

  /** A single alert that waits for its rows. */
  lemma OneAlert(a: Alert, current: Current, now: int, table: seq<Row>)
    requires CurrentProposes(a, current) && Minutes(a) > 1
    requires Fetched(table, Since(a, now) - 90_000) == table && table != [] && table[0].created == Since(a, now) - 1000
    requires Flips(a, Window(table, a.field, Since(a, now)))
    ensures RowsFor([a], current, now, table) == table
    ensures Handled([a], current, now, table) == [Sent(a.id, !a.triggered)]
  {
    hide Flips, Window, CurrentProposes, Fetched;
    assert [a][..0] == [];
    assert Waiting([a], current) == [a] && Oldest([a], now) == Since(a, now);
    assert Covered([a], now, Since(a, now) - 1000) == [a];
    assert Immediate([a], current) == [];
    assert Confirmed([a], now, table) == [Sent(a.id, !a.triggered)];
  }

  lemma AtMostSelf(x: real, c: real)
    requires x >= 0.0 && c >= 1.0
    ensures x / c <= x
  {
    assert (c - 1.0) * x >= 0.0;
    Quotient(x, c, x);
  }

  /**
  For every number of rows at which the byte misleads, there is a table of level rows, none of which carries anything,
  on which the handler sends an alert that the window does not bear out.
   */
  lemma HandlerMisled(id: Id, f: Field, min: nat, n: nat, now: int)
    requires min > 1 && !Agreeable(min, n)
    ensures n % 256 > 0
    ensures var a := Misleadable(id, f, min, n);
            var table := Table(n, Since(a, now), ONES, ONES);
            Handled([a], High(n), now, table) == [Sent(id, !a.triggered)] && !Justified(a, now, table)
  {
    hide Table, Window, OwnWindow, Fetched, Flips, Handled, Agreed, Copies;
    WrapMisleads(id, f, min, n);
    var a := Misleadable(id, f, min, n);
    var start := Since(a, now);
    HighValue(n, f);
    AtMostSelf(n as real, (n % 256) as real);
    OnesReadings(f);
    DecodeTwice(BLANK, ONES);
    var v := map[KeyFor(f) := 1.0];
    TableWindow(n, f, start, ONES, ONES, v);
    TableOwn(n, f, start, ONES, ONES, v);
    TableFetched(n, start, ONES, ONES);
    TableDecoding(n, start, ONES, ONES);
    OneAlert(a, High(n), now, Table(n, start, ONES, ONES));
  }

  const BUSY := ONES.(bandwidth := Some((2097152, 0)))
  const SILENT := ONES.(bandwidth := None)

  lemma SilentReadings()
    ensures Readings(Decode(Decode(BLANK, BUSY), SILENT), Bandwidth) == Some(One(2.0))
    ensures Own(SILENT, Bandwidth) == Some(One(0.0))
  {
  }

  lemma Cancelled(n: real, x: real)
    requires n > 0.0
    ensures n * x / n == x
  {
  }

  lemma TwosFlip(a: Alert, n: nat)
    requires a.field.Bandwidth? && a.threshold == 1.0 && !a.triggered && n <= 255 && 12 * n >= 10 * Minutes(a)
    ensures Flips(a, Copies(n, One(2.0))) && !Agreed(a, Copies(n, One(0.0)))
  {
    hide Sums, Copies;
    CopiesSums(n, "", 2.0);
    RepeatedIs(n, 2.0);
    Cancelled(n as real, 2.0);
  }

  /**
  One busy row from before the window makes silent rows in it look busy: a bandwidth alert is sent although no row of
  its window has any traffic.
   */
  lemma SilenceMisleads(id: Id, min: nat, n: nat, now: int)
    requires min > 1 && n <= 255 && 12 * n >= 10 * min
    ensures var a := Alert(id, Bandwidth, 1.0, false, min);
            var table := Table(n, Since(a, now), BUSY, SILENT);
            Handled([a], High(n), now, table) == [Sent(id, true)] && !Justified(a, now, table)
  {
    hide Table, Window, OwnWindow, Fetched, Handled, Copies, Flips, Agreed, Readings, Own, Decode;
    var a := Alert(id, Bandwidth, 1.0, false, min);
    var start := Since(a, now);
    HighValue(n, Bandwidth);
    SilentReadings();
    TableWindow(n, Bandwidth, start, BUSY, SILENT, One(2.0));
    TableOwn(n, Bandwidth, start, BUSY, SILENT, One(0.0));
    TableFetched(n, start, BUSY, SILENT);
    TableDecoding(n, start, BUSY, SILENT);
    TwosFlip(a, n);
    OneAlert(a, High(n), now, Table(n, start, BUSY, SILENT));
  }
}
