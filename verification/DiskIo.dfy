/**
Disk rates (agent/disk.go), for one device: each interval keeps a snapshot of its last reading, and an interval without
one starts from the seed that all intervals share. A failed read of the disk's usage zeroes the seed's counters.
 */
module DiskIo {
  import opened Basics
  import opened Arith
  import opened Rounding
  import opened Counters

  const DISK_LIMIT: real := 50_000.0
  const BYTE_LIMIT: int := 52_428_805_242  // the largest rate that is not above the limit, in bytes

  datatype Disk = Disk(at: int, read: Word, written: Word)

  /** Megabytes a second, read and written. */
  datatype DiskReport = DiskReport(read: real, written: real)

  function Megabytes(rate: int): real {
    TwoDecimals(rate as real / 1048576.0)
  }

  /** updateDiskIo for one device with a snapshot: nothing is reported for short intervals or invalid rates. */
  function DiskReported(prev: Disk, now: Disk): Option<DiskReport> {
    var elapsed := now.at - prev.at;
    if elapsed < 100 then None
    else
      var r := DiskReport(Megabytes(Rate(now.read, prev.read, elapsed)),
                          Megabytes(Rate(now.written, prev.written, elapsed)));
      if r.read > DISK_LIMIT || r.written > DISK_LIMIT then None else Some(r)
  }

  lemma MegabytesOver(rate: int)
    requires rate >= 0
    ensures Megabytes(rate) > DISK_LIMIT <==> rate > BYTE_LIMIT
  {
    var x := rate as real / 1048576.0 * 100.0 + 0.5;
    assert x >= 5_000_001.0 <==> rate as real >= 52_428_805_242.88;
  }

  /** A disk counter that was reset is never reported. */
  lemma DiskResetNeverReported(prev: Disk, now: Disk)
    requires || Caught(now.read, prev.read, now.at - prev.at, BYTE_LIMIT)
             || Caught(now.written, prev.written, now.at - prev.at, BYTE_LIMIT)
    ensures DiskReported(prev, now) == None
  {
    hide Megabytes, Rate;
    var elapsed := now.at - prev.at;
    if elapsed >= 100 {
      MegabytesOver(Rate(now.read, prev.read, elapsed));
      MegabytesOver(Rate(now.written, prev.written, elapsed));
      if Caught(now.read, prev.read, elapsed, BYTE_LIMIT) {
        DropCaughtIff(now.read, prev.read, elapsed, BYTE_LIMIT);
      } else {
        DropCaughtIff(now.written, prev.written, elapsed, BYTE_LIMIT);
      }
    }
  }

  /** A reading that can follow another. */
  predicate PlausiblePair(now: Disk, before: Disk) {
    && Plausible(now.read, before.read, now.at - before.at, BYTE_LIMIT)
    && Plausible(now.written, before.written, now.at - before.at, BYTE_LIMIT)
  }

  predicate TrueDiskRate(r: DiskReport, now: Disk, before: Disk) {
    var elapsed := now.at - before.at;
    && elapsed >= 100 && before.read <= now.read && before.written <= now.written
    && r.read == Megabytes((now.read - before.read) * 1000 / elapsed) <= 50_000.0
    && r.written == Megabytes((now.written - before.written) * 1000 / elapsed) <= 50_000.0
  }

  /** What is reported of plausible counters is the true rate. */
  lemma DiskReportTrue(prev: Disk, now: Disk)
    requires PlausiblePair(now, prev)
    ensures DiskReported(prev, now).Some? ==> TrueDiskRate(DiskReported(prev, now).value, now, prev)
  {
    if now.read < prev.read || now.written < prev.written {
      DiskResetNeverReported(prev, now);
    } else if now.at - prev.at >= 100 {
      hide TwoDecimals;
      RiseExactIff(now.read, prev.read, now.at - prev.at);
      RiseExactIff(now.written, prev.written, now.at - prev.at);
    }
  }

  // ---------------------------------------------------------------- a zeroed seed

  function Zeroed(d: Disk): Disk {
    Disk(d.at, 0, 0)
  }

  const SMALL: int := 107_000_000

  /** What is left of a counter in the arithmetic of rates. */
  function Product(x: Word): (p: int)
    ensures 0 <= p < WORD
  {
    x * 1000 % WORD
  }

  /** Zeroing changes no product: the counters are zero, or multiples of 2^61. */
  predicate Harmless(d: Disk) {
    Product(d.read) == 0 && Product(d.written) == 0
  }

  lemma VanishingRate(now: Word, x: Word, elapsed: int)
    requires Product(x) == 0 && elapsed > 0
    ensures Rate(now, 0, elapsed) == Rate(now, x, elapsed)
  {
    WrappedProduct(now);
    WrappedProduct(now - x);
    var k := x * 1000 / WORD;
    assert (now - x) * 1000 == now * 1000 + -k * WORD;
    ModShift(now * 1000, -k, WORD);
  }

  lemma HarmlessReport(d: Disk, now: Disk)
    requires Harmless(d)
    ensures DiskReported(Zeroed(d), now) == DiskReported(d, now)
  {
    hide Rate, Megabytes, Product;
    if now.at - d.at >= 100 {
      VanishingRate(now.read, d.read, now.at - d.at);
      VanishingRate(now.written, d.written, now.at - d.at);
    }
  }

  /** 5242 bytes a second are the most that round to nothing. */
  lemma MegabytesSeen(rate: int)
    requires rate >= 0
    ensures Megabytes(rate) > 0.0 <==> rate >= 5243
    ensures Megabytes(rate) >= 0.0
  {
    var x := rate as real / 1048576.0 * 100.0 + 0.5;
    assert x >= 1.0 <==> rate as real >= 5242.88;
  }

  /** What a zeroed counter leaves of the product, with a rise of d bytes since. */
  lemma ZeroedProduct(x: Word, d: int, elapsed: int)
    requires 0 <= d && x + d < WORD && elapsed > 0 && Product(x) + d * 1000 < WORD
    ensures Rate(x + d, 0, elapsed) == (Product(x) + d * 1000) / elapsed
  {
    var p, k := Product(x), x * 1000 / WORD;
    WrappedProduct(x + d);
    assert (x + d) * 1000 == p + d * 1000 + k * WORD;
    ModShift(p + d * 1000, k, WORD);
    ModSmall(p + d * 1000);
  }

  /** A counter whose product is small is not close to 2^64. */
  lemma SmallProduct(x: Word)
    requires Product(x) < SMALL
    ensures x + 561 < WORD
  {
    if x + 561 >= WORD {
      var k := WORD - x;
      assert x * 1000 == 999 * WORD + (WORD - k * 1000);
      UniqueMod(x * 1000, 999, WORD - k * 1000, WORD);
    }
  }

  /** A plausible reading after which a rate that is not the true one is reported. */
  predicate Misled(d: Disk, now: Disk) {
    && PlausiblePair(now, d)
    && var r := DiskReported(Zeroed(d), now);
       r.Some? && !TrueDiskRate(r.value, now, d)
  }

  /** The rate against the zeroed counter is seen, and the true one rounds to nothing. */
  predicate Differs(now: Word, x: Word, elapsed: int)
    requires elapsed > 0
  {
    Rate(now, 0, elapsed) >= 5243 && (now - x) * 1000 / elapsed < 5243
  }

  lemma DifferenceMisleads(d: Disk, now: Disk)
    requires PlausiblePair(now, d) && now.at - d.at >= 100 && d.read <= now.read && d.written <= now.written
    requires Rate(now.read, 0, now.at - d.at) <= BYTE_LIMIT && Rate(now.written, 0, now.at - d.at) <= BYTE_LIMIT
    requires Differs(now.read, d.read, now.at - d.at) || Differs(now.written, d.written, now.at - d.at)
    ensures Misled(d, now)
  {
    hide Megabytes, Rate;
    var e := now.at - d.at;
    MegabytesOver(Rate(now.read, 0, e));
    MegabytesOver(Rate(now.written, 0, e));
    if Differs(now.read, d.read, e) {
      DivAtLeast((now.read - d.read) * 1000, e, 0);
      MegabytesSeen(Rate(now.read, 0, e));
      MegabytesSeen((now.read - d.read) * 1000 / e);
    } else {
      DivAtLeast((now.written - d.written) * 1000, e, 0);
      MegabytesSeen(Rate(now.written, 0, e));
      MegabytesSeen((now.written - d.written) * 1000 / e);
    }
  }

  /** 107 ms and 561 bytes later, a small product that is not zero tips the rate over what rounds to nothing. */
  function Nudged(x: Word): Word
    requires Product(x) < SMALL
  {
    SmallProduct(x);
    if Product(x) == 0 then x else x + 561
  }

  lemma NudgedRate(x: Word)
    requires Product(x) < SMALL
    ensures Rate(Nudged(x), 0, 107) <= BYTE_LIMIT && x <= Nudged(x) && Plausible(Nudged(x), x, 107, BYTE_LIMIT)
    ensures Product(x) > 0 ==> Differs(Nudged(x), x, 107)
  {
    SmallProduct(x);
    ZeroedProduct(x, Nudged(x) - x, 107);
  }

  lemma NudgeMisleads(d: Disk)
    requires Product(d.read) < SMALL && Product(d.written) < SMALL && !Harmless(d)
    ensures Misled(d, Disk(d.at + 107, Nudged(d.read), Nudged(d.written)))
  {
    hide Rate, Nudged, Product, Misled, Plausible;
    NudgedRate(d.read);
    NudgedRate(d.written);
    DifferenceMisleads(d, Disk(d.at + 107, Nudged(d.read), Nudged(d.written)));
  }

  /**
  After an interval of m / 10^6 ms in which a counter stands still, its product, if it is m, looks like 10^6 bytes.
   */
  lemma StandstillRate(x: Word, m: int)
    requires Product(x) <= m && SMALL <= m < WORD
    ensures m / 1_000_000 >= 100 && Rate(x, 0, m / 1_000_000) <= BYTE_LIMIT
    ensures Plausible(x, x, m / 1_000_000, BYTE_LIMIT)
    ensures Product(x) == m ==> Differs(x, x, m / 1_000_000)
  {
    var e := m / 1_000_000;
    ZeroedProduct(x, 0, e);
    DivAtMost(Product(x), e, 2_000_000);
    DivAtLeast(m, e, 1_000_000);
    assert (x - x) * 1000 / e == 0;
  }

  lemma StandstillMisleads(d: Disk, m: int)
    requires Product(d.read) <= m && Product(d.written) <= m && SMALL <= m < WORD
    requires Product(d.read) == m || Product(d.written) == m
    ensures Misled(d, Disk(d.at + m / 1_000_000, d.read, d.written))
  {
    hide Rate, Product, Misled, Plausible;
    StandstillRate(d.read, m);
    StandstillRate(d.written, m);
    DifferenceMisleads(d, Disk(d.at + m / 1_000_000, d.read, d.written));
  }

  /**
  Exact: reports against a zeroed seed are true for every plausible reading if and only if zeroing changes no product.
   */
  lemma ZeroedTrueIff(d: Disk)
    ensures (forall now :: !Misled(d, now)) <==> Harmless(d)
  {
    if Harmless(d) {
      forall now ensures !Misled(d, now) {
        HarmlessReport(d, now);
        if PlausiblePair(now, d) {
          DiskReportTrue(d, now);
        }
      }
    } else if Product(d.read) < SMALL && Product(d.written) < SMALL {
      NudgeMisleads(d);
    } else {
      StandstillMisleads(d, if Product(d.read) < Product(d.written) then Product(d.written) else Product(d.read));
    }
  }
  // ---------------------------------------------------------------- runs of readings

  /** The snapshot of each interval, and the reading that seeds an interval without one. */
  datatype DiskState = DiskState(seed: Option<Disk>, snapshots: map<Key, Disk>)

  /** The device is (re)initialised, or read for an interval, or the usage of its filesystem cannot be read. */
  datatype DiskEvent = Seeded(now: Disk) | Taken(key: Key, now: Disk) | UsageFailed

  const NO_DISK := DiskState(None, map[])

  function Before(s: DiskState, key: Key, now: Disk): Disk {
    if key in s.snapshots then s.snapshots[key] else if s.seed.Some? then s.seed.value else now
  }

  function DiskOutput(s: DiskState, e: DiskEvent): Option<DiskReport> {
    if e.Taken? then DiskReported(Before(s, e.key, e.now), e.now) else None
  }

  /** A reading after at least 100 ms becomes the seed, whether it is reported or rejected. */
  predicate Reseeds(s: DiskState, e: DiskEvent) {
    e.Seeded? || (e.Taken? && e.now.at - Before(s, e.key, e.now).at >= 100)
  }

  function SeedNext(s: DiskState, e: DiskEvent): Option<Disk> {
    if Reseeds(s, e) then Some(e.now) else if e.UsageFailed? && s.seed.Some? then Some(Zeroed(s.seed.value)) else s.seed
  }

  function DiskNext(s: DiskState, e: DiskEvent): DiskState {
    DiskState(SeedNext(s, e), if e.Taken? then s.snapshots[e.key := e.now] else s.snapshots)
  }

  class DiskTotals {
    var seed: Option<Disk>
    var snapshots: map<Key, Disk>

    function View(): DiskState
      reads this
    {
      DiskState(seed, snapshots)
    }

    constructor ()
      ensures View() == NO_DISK
    {
      seed, snapshots := None, map[];
    }

    /** initializeDiskIoStats, for this device. */
    method Initialize(now: Disk)
      modifies this
      ensures View() == DiskNext(old(View()), Seeded(now))
    {
      seed := Some(now);
    }

    /** updateDiskUsage, where the usage cannot be read. */
    method FailUsage()
      modifies this
      ensures View() == DiskNext(old(View()), UsageFailed)
    {
      if seed.Some? {
        seed := Some(seed.value.(read := 0, written := 0));
      }
    }

    /** updateDiskIo, for this device. */
    method Update(key: Key, now: Disk) returns (r: Option<DiskReport>)
      modifies this
      ensures r == DiskOutput(old(View()), Taken(key, now)) && View() == DiskNext(old(View()), Taken(key, now))
    {
      var prev := now;
      if key in snapshots {
        prev := snapshots[key];
      } else if seed.Some? {
        prev := seed.value;
      }
      snapshots := snapshots[key := now];
      var elapsed := now.at - prev.at;
      if elapsed < 100 {
        return None;
      }
      var read := Megabytes(Rate(now.read, prev.read, elapsed));
      var written := Megabytes(Rate(now.written, prev.written, elapsed));
      seed := Some(now);
      if read > DISK_LIMIT || written > DISK_LIMIT {
        return None;
      }
      return Some(DiskReport(read, written));
    }
  }

  function DiskAfter(events: seq<DiskEvent>): DiskState {
    if events == [] then NO_DISK else DiskNext(DiskAfter(events[..|events| - 1]), events[|events| - 1])
  }

  predicate IsReading(e: DiskEvent, key: Key) {
    e.Taken? && e.key == key
  }

  predicate IsSeeding(events: seq<DiskEvent>, j: int)
    ensures IsSeeding(events, j) ==> 0 <= j < |events| && !events[j].UsageFailed?
  {
    0 <= j < |events| && Reseeds(DiskAfter(events[..j]), events[j])
  }

  /** Event j is the last that became the seed. */
  predicate IsLastSeeding(events: seq<DiskEvent>, j: int) {
    IsSeeding(events, j) && forall k :: j < k < |events| ==> !IsSeeding(events, k)
  }

  predicate IsLastReading(events: seq<DiskEvent>, j: int, key: Key) {
    0 <= j < |events| && IsReading(events[j], key) && forall k :: j < k < |events| ==> !IsReading(events[k], key)
  }

  predicate Unread(events: seq<DiskEvent>, key: Key) {
    forall k :: 0 <= k < |events| ==> !IsReading(events[k], key)
  }

  /** The usage could not be read since event j. */
  predicate Failed(events: seq<DiskEvent>, j: int) {
    exists k :: 0 <= j < k < |events| && events[k].UsageFailed?
  }

  /** Event j is the last reading for the key, or, if there is none, the last event that became the seed. */
  predicate Supplies(events: seq<DiskEvent>, j: int, key: Key)
    ensures Supplies(events, j, key) ==> 0 <= j < |events| && !events[j].UsageFailed?
  {
    IsLastReading(events, j, key) || (Unread(events, key) && IsLastSeeding(events, j))
  }

  lemma {:induction false} SnapshotIsLast(events: seq<DiskEvent>, key: Key)
    ensures if key in DiskAfter(events).snapshots
            then exists j :: IsLastReading(events, j, key) && events[j].now == DiskAfter(events).snapshots[key]
            else Unread(events, key)
  {
    hide SeedNext;
    if events != [] {
      var n := |events| - 1;
      var init := events[..n];
      SnapshotIsLast(init, key);
      assert forall k :: 0 <= k < n ==> init[k] == events[k];
      if IsReading(events[n], key) {
        assert IsLastReading(events, n, key);
      } else if key in DiskAfter(events).snapshots {
        var j :| IsLastReading(init, j, key) && init[j].now == DiskAfter(init).snapshots[key];
        assert IsLastReading(events, j, key);
      }
    }
  }

  lemma SeedingPrefix(events: seq<DiskEvent>, n: nat, j: int)
    requires n <= |events| && j < n
    ensures IsSeeding(events[..n], j) <==> IsSeeding(events, j)
  {
    if 0 <= j {
      assert events[..n][..j] == events[..j];
    }
  }

  function Supplied(events: seq<DiskEvent>, j: int): Disk
    requires 0 <= j < |events| && !events[j].UsageFailed?
  {
    if Failed(events, j) then Zeroed(events[j].now) else events[j].now
  }

  lemma FailedPrefix(events: seq<DiskEvent>, n: nat, j: nat)
    requires j < n == |events| - 1
    ensures Failed(events, j) <==> Failed(events[..n], j) || events[n].UsageFailed?
  {
    if Failed(events[..n], j) {
      var k :| j < k < n && events[..n][k].UsageFailed?;
      assert events[k].UsageFailed?;
    }
    if Failed(events, j) && !events[n].UsageFailed? {
      var k :| j < k < |events| && events[k].UsageFailed?;
      assert events[..n][k].UsageFailed?;
    }
  }

  lemma LastSeedingStays(events: seq<DiskEvent>, n: nat, j: int)
    requires n == |events| - 1 && IsLastSeeding(events[..n], j) && !IsSeeding(events, n)
    ensures IsLastSeeding(events, j)
  {
    hide Reseeds, DiskAfter, IsSeeding;
    SeedingPrefix(events, n, j);
    forall k | j < k < |events| ensures !IsSeeding(events, k) {
      if k < n {
        SeedingPrefix(events, n, k);
      }
    }
  }

  lemma {:induction false} SeedIsLast(events: seq<DiskEvent>)
    requires DiskAfter(events).seed.Some?
    ensures exists j :: IsLastSeeding(events, j) && Supplied(events, j) == DiskAfter(events).seed.value
  {
    hide Reseeds;
    var n := |events| - 1;
    var init := events[..n];
    assert IsSeeding(events, n) <==> Reseeds(DiskAfter(init), events[n]);
    if IsSeeding(events, n) {
      assert IsLastSeeding(events, n);
      assert !Failed(events, n);
    } else {
      SeedIsLast(init);
      var j :| IsLastSeeding(init, j) && Supplied(init, j) == DiskAfter(init).seed.value;
      LastSeedingStays(events, n, j);
      FailedPrefix(events, n, j);
    }
  }

  lemma SuppliedOnce(events: seq<DiskEvent>, j: int, k: int, key: Key)
    requires Supplies(events, j, key) && Supplies(events, k, key)
    ensures j == k
  {
    hide Reseeds, DiskAfter, IsSeeding;
  }

  /**
  What a reading is compared with: the last reading for its interval, or else the last seed, zeroed if a failure came
  since.
   */
  function Origin(events: seq<DiskEvent>, j: int, key: Key): Disk
    requires Supplies(events, j, key)
  {
    if Unread(events, key) then Supplied(events, j) else events[j].now
  }

  lemma {:induction false} SeedStays(events: seq<DiskEvent>, j: int)
    requires IsSeeding(events, j)
    ensures DiskAfter(events).seed.Some?
  {
    hide Before;
    var n := |events| - 1;
    if j < n {
      SeedingPrefix(events, n, j);
      SeedStays(events[..n], j);
    }
  }

  lemma BeforeIsSupplied(events: seq<DiskEvent>, key: Key, now: Disk)
    ensures var s := DiskAfter(events);
            if key in s.snapshots || s.seed.Some?
            then exists j :: Supplies(events, j, key) && Origin(events, j, key) == Before(s, key, now)
            else Before(s, key, now) == now && forall j :: !Supplies(events, j, key)
  {
    hide DiskAfter, Reseeds, IsSeeding;
    var s := DiskAfter(events);
    SnapshotIsLast(events, key);
    if key in s.snapshots {
      var j :| IsLastReading(events, j, key) && events[j].now == s.snapshots[key];
      assert Supplies(events, j, key);
    } else if s.seed.Some? {
      SeedIsLast(events);
      var j :| IsLastSeeding(events, j) && Supplied(events, j) == s.seed.value;
      assert Supplies(events, j, key);
    } else {
      forall j ensures !Supplies(events, j, key) {
        if IsSeeding(events, j) {
          SeedStays(events, j);
        }
      }
    }
  }

  lemma SuppliedIsBefore(events: seq<DiskEvent>, j: int, key: Key, now: Disk)
    requires Supplies(events, j, key)
    ensures Before(DiskAfter(events), key, now) == Origin(events, j, key)
  {
    hide DiskAfter, Origin, Supplies;
    BeforeIsSupplied(events, key, now);
    var k :| Supplies(events, k, key) && Origin(events, k, key) == Before(DiskAfter(events), key, now);
    SuppliedOnce(events, j, k, key);
  }

  lemma OriginTime(events: seq<DiskEvent>, j: int, key: Key)
    requires Supplies(events, j, key)
    ensures Origin(events, j, key).at == events[j].now.at
  {
  }

  /**
  Exact: an event becomes the seed if and only if it initialises the device, or is a reading at least 100 ms after the
  one it is compared with.
   */
  lemma SeedingIff(events: seq<DiskEvent>, i: nat)
    requires i < |events|
    ensures IsSeeding(events, i)
            <==> || events[i].Seeded?
                 || (events[i].Taken? && exists j :: Supplies(events[..i], j, events[i].key)
                                                     && events[i].now.at - events[..i][j].now.at >= 100)
  {
    hide DiskAfter, Supplies, Origin;
    var init, e := events[..i], events[i];
    if e.Taken? {
      BeforeIsSupplied(init, e.key, e.now);
      if j :| Supplies(init, j, e.key) && Origin(init, j, e.key) == Before(DiskAfter(init), e.key, e.now) {
        OriginTime(init, j, e.key);
      }
      forall j | Supplies(init, j, e.key) ensures Before(DiskAfter(init), e.key, e.now).at == init[j].now.at {
        SuppliedIsBefore(init, j, e.key, e.now);
        OriginTime(init, j, e.key);
      }
    }
  }

  /** The interval has no reading yet, and the seed's counters were lost. */
  predicate Spoilt(events: seq<DiskEvent>, j: int, key: Key)
    requires Supplies(events, j, key)
  {
    Unread(events, key) && Failed(events, j) && !Harmless(events[j].now)
  }

  /** The next reading reports nothing, or the true rate since event j. */
  predicate ReportsTruth(events: seq<DiskEvent>, j: int, key: Key, now: Disk)
    requires Supplies(events, j, key)
  {
    var r := DiskOutput(DiskAfter(events), Taken(key, now));
    r.Some? ==> TrueDiskRate(r.value, now, events[j].now)
  }

  lemma UnspoiltTrue(events: seq<DiskEvent>, j: int, key: Key, now: Disk)
    requires Supplies(events, j, key) && !Spoilt(events, j, key) && PlausiblePair(now, events[j].now)
    ensures ReportsTruth(events, j, key, now)
  {
    hide DiskReported, TrueDiskRate, PlausiblePair, Harmless, Before, DiskAfter, Supplies, Failed, Unread;
    SuppliedIsBefore(events, j, key, now);
    DiskReportTrue(events[j].now, now);
    if Harmless(events[j].now) {
      HarmlessReport(events[j].now, now);
    }
  }

  /**
  Exact, in every run: whatever plausible reading comes next for an interval, it reports nothing or the true rate since
  the last reading for the interval, or for its first one since the last seed, if and only if the interval has a
  reading, the usage has not failed since that seed, or zeroing the seed's counters changed nothing.
   */
  lemma ReportsTrueIff(events: seq<DiskEvent>, j: int, key: Key)
    requires Supplies(events, j, key)
    ensures (forall now :: PlausiblePair(now, events[j].now) ==> ReportsTruth(events, j, key, now))
            <==> !Spoilt(events, j, key)
  {
    hide DiskReported, TrueDiskRate, PlausiblePair, Harmless, Before, DiskAfter, Supplies, Failed, Unread;
    if Spoilt(events, j, key) {
      ZeroedTrueIff(events[j].now);
      var now :| Misled(events[j].now, now);
      SuppliedIsBefore(events, j, key, now);
      assert !ReportsTruth(events, j, key, now);
    } else {
      forall now | PlausiblePair(now, events[j].now) ensures ReportsTruth(events, j, key, now) {
        UnspoiltTrue(events, j, key, now);
      }
    }
  }

  /** Each reading is plausible with respect to the reading it should be compared with. */
  ghost predicate PlausibleReadings(events: seq<DiskEvent>) {
    forall i, j :: 0 <= i < |events| && events[i].Taken? && Supplies(events[..i], j, events[i].key) ==>
      PlausiblePair(events[i].now, events[..i][j].now)
  }

  lemma NoReportAtOnce(now: Disk)
    ensures DiskReported(now, now) == None
  {
  }

  /**
  Over every plausible run of readings, for any intervals and with any number of resets, whatever is reported is the
  true rate since the last reading for the interval or, for its first one, since the last seed, unless that is spoilt.
   */
  lemma DiskReportsAreTrue(events: seq<DiskEvent>, i: nat)
    requires PlausibleReadings(events) && i < |events| && events[i].Taken?
    ensures var r := DiskOutput(DiskAfter(events[..i]), events[i]);
            r.Some? ==> exists j :: Supplies(events[..i], j, events[i].key)
                                    && (Spoilt(events[..i], j, events[i].key)
                                        || TrueDiskRate(r.value, events[i].now, events[j].now))
  {
    hide DiskReported, Before, DiskAfter, TrueDiskRate, PlausiblePair, Spoilt, Supplies, Origin;
    var init, e := events[..i], events[i];
    NoReportAtOnce(e.now);
    BeforeIsSupplied(init, e.key, e.now);
    if DiskOutput(DiskAfter(init), e).Some? {
      var j :| Supplies(init, j, e.key) && Origin(init, j, e.key) == Before(DiskAfter(init), e.key, e.now);
      assert init[j] == events[j];
      if !Spoilt(init, j, e.key) {
        UnspoiltTrue(init, j, e.key, e.now);
      }
    }
  }

  /** And that rate is reported, if it is within the limit and over at least 100 ms. */
  lemma DiskRatesAreReported(events: seq<DiskEvent>, i: nat, j: int)
    requires i < |events| && events[i].Taken? && Supplies(events[..i], j, events[i].key)
    requires !Spoilt(events[..i], j, events[i].key) && PlausiblePair(events[i].now, events[..i][j].now)
    requires var now, before := events[i].now, events[..i][j].now;
             && now.at - before.at >= 100 && before.read <= now.read && before.written <= now.written
             && Megabytes((now.read - before.read) * 1000 / (now.at - before.at)) <= 50_000.0
             && Megabytes((now.written - before.written) * 1000 / (now.at - before.at)) <= 50_000.0
    ensures DiskOutput(DiskAfter(events[..i]), events[i]).Some?
  {
    hide Before, DiskAfter, Supplies, Failed, Unread, Megabytes, Harmless;
    var init, e := events[..i], events[i];
    var before := init[j].now;
    SuppliedIsBefore(init, j, e.key, e.now);
    if Harmless(before) {
      HarmlessReport(before, e.now);
    }
    RiseExactIff(e.now.read, before.read, e.now.at - before.at);
    RiseExactIff(e.now.written, before.written, e.now.at - before.at);
  }

  /** So a failed read of the usage can turn a standstill into a rate of more than 15,000 megabytes a second. */
  lemma FailureMisleads(key: Key)
    ensures var seed, now := Disk(0, 1_000_000_000_000, 0), Disk(60_000, 1_000_000_000_000, 0);
            var s := DiskAfter([Seeded(seed), UsageFailed]);
            && DiskReported(seed, now) == Some(DiskReport(0.0, 0.0))
            && DiskOutput(s, Taken(key, now)).Some? && DiskOutput(s, Taken(key, now)).value.read > 15_000.0
  {
    var seed := Disk(0, 1_000_000_000_000, 0);
    assert [Seeded(seed), UsageFailed][..1] == [Seeded(seed)] && [Seeded(seed)][..0] == [];
    assert DiskAfter([Seeded(seed)]) == DiskState(Some(seed), map[]);
  }
}
