/**
What threshold alerts read (internal/alerts/alerts_system.go): a current value, and from every stored row a named
series. The rows are decoded one after the other into the same record, so what a row omits keeps the value of an earlier
one.
 */
module AlertReadings {
  import opened Basics
  import opened Counters
  import opened Series

  datatype Field = Cpu | Memory | Bandwidth | Disk | Temperature | Load1 | Load5 | Load15 | Gpu | Battery

  datatype Fs = Fs(total: real, used: real)

  /** The agent's latest data, as far as alerts look at it. */
  datatype Current = Current(
    cpu: real, mem: real, bandwidth: Word, disk: real, extraFs: map<string, Fs>, temp: real,
    load1: real, load5: real, load15: real, gpu: real, battery: nat)

  /** A row's JSON: no traffic, no battery and empty maps are left out. */
  datatype Stored = Stored(
    cpu: real, mem: real, disk: real, load1: real, load5: real, load15: real,
    bandwidth: Option<(Word, Word)>, battery: Option<nat>, gpus: Series, temps: Series, extraFs: map<string, Fs>)

  /** SystemAlertStats */
  datatype Decoded = Decoded(
    cpu: real, mem: real, disk: real, load1: real, load5: real, load15: real,
    bandwidth: (Word, Word), battery: nat, gpus: Series, temps: Series, extraFs: map<string, Fs>)

  const BLANK := Decoded(0.0, 0.0, 0.0, 0.0, 0.0, 0.0, (0, 0), 0, map[], map[], map[])

  /** json.Unmarshal into a record that is there already: fields are overwritten, entries of maps replaced or added. */
  function Decode(d: Decoded, s: Stored): Decoded {
    Decoded(s.cpu, s.mem, s.disk, s.load1, s.load5, s.load15,
            if s.bandwidth.Some? then s.bandwidth.value else d.bandwidth,
            if s.battery.Some? then s.battery.value else d.battery,
            d.gpus + s.gpus, d.temps + s.temps, d.extraFs + s.extraFs)
  }

  function Mebibytes(bytes: int): real {
    bytes as real / 1048576.0
  }

  function Percents(extraFs: map<string, Fs>): Series {
    map k | k in extraFs && extraFs[k].total > 0.0 :: extraFs[k].used / extraFs[k].total * 100.0
  }

  /** The value an alert compares first; none without a sensor or a battery. */
  ghost function CurrentValue(c: Current, f: Field): Option<real> {
    match f
    case Cpu => Some(c.cpu)
    case Memory => Some(c.mem)
    case Bandwidth => Some(Mebibytes(c.bandwidth))
    case Disk => Some(Largest(Percents(c.extraFs), c.disk))
    case Temperature => if c.temp < 1.0 then None else Some(c.temp)
    case Load1 => Some(c.load1)
    case Load5 => Some(c.load5)
    case Load15 => Some(c.load15)
    case Gpu => Some(c.gpu)
    case Battery => if c.battery == 0 then None else Some(c.battery as real)
  }

  /** Disks and sensors are summed each on its own; the others are one series without a name. */
  predicate Keyed(f: Field) {
    f.Disk? || f.Temperature?
  }

  function One(v: real): Series {
    map["" := v]
  }

  function Disks(d: Decoded): Series {
    Added(map["root" := d.disk], Percents(d.extraFs))
  }

  /** What a decoded row adds to an alert; a row without GPUs is passed over by GPU alerts. */
  ghost function Readings(d: Decoded, f: Field): Option<Series> {
    match f
    case Cpu => Some(One(d.cpu))
    case Memory => Some(One(d.mem))
    case Bandwidth => Some(One(Mebibytes((d.bandwidth.0 + d.bandwidth.1) % WORD)))
    case Disk => Some(Disks(d))
    case Temperature => Some(d.temps)
    case Load1 => Some(One(d.load1))
    case Load5 => Some(One(d.load5))
    case Load15 => Some(One(d.load15))
    case Gpu => if d.gpus == map[] then None else Some(One(Largest(d.gpus, 0.0)))
    case Battery => Some(One(d.battery as real))
  }

  // ---------------------------------------------------------------- what a row says itself

  ghost function Own(s: Stored, f: Field): Option<Series> {
    Readings(Decode(BLANK, s), f)
  }

  ghost predicate Alike(x: Series, y: Series) {
    forall k: string :: Get(x, k) == Get(y, k)
  }

  ghost predicate SameReadings(x: Option<Series>, y: Option<Series>) {
    (x.Some? <==> y.Some?) && (x.Some? ==> Alike(x.value, y.value))
  }

  /** Earlier rows have left something that the row omits and that counts. */
  ghost predicate Carries(before: Decoded, s: Stored, f: Field) {
    match f
    case Bandwidth => s.bandwidth.None? && (before.bandwidth.0 + before.bandwidth.1) % WORD != 0
    case Battery => s.battery.None? && before.battery != 0
    case Temperature => exists k <- before.temps :: k !in s.temps && before.temps[k] != 0.0
    case Disk => exists k <- before.extraFs :: k !in s.extraFs && Get(Percents(before.extraFs), k) != 0.0
    case Gpu => if s.gpus == map[] then before.gpus != map[]
                else exists k <- before.gpus :: k !in s.gpus && before.gpus[k] > Largest(s.gpus, 0.0)
    case _ => false
  }

  lemma TemperaturesCarry(before: Series, s: Series)
    ensures Alike(before + s, s) <==> !exists k <- before :: k !in s && before[k] != 0.0
  {
    if k :| k in before && k !in s && before[k] != 0.0 {
      assert Get(before + s, k) != Get(s, k);
    }
  }

  lemma PercentsMerged(before: map<string, Fs>, s: map<string, Fs>, k: string)
    ensures Get(Percents(before + s), k) == if k in s then Get(Percents(s), k) else Get(Percents(before), k)
  {
  }

  lemma DisksAt(d: Decoded, k: string)
    ensures Get(Disks(d), k) == (if k == "root" then d.disk else 0.0) + Get(Percents(d.extraFs), k)
  {
  }

  lemma DisksCarry(before: Decoded, s: Stored)
    ensures Alike(Disks(Decode(before, s)), Disks(Decode(BLANK, s)))
            <==> !exists k <- before.extraFs :: k !in s.extraFs && Get(Percents(before.extraFs), k) != 0.0
  {
    hide Disks, Percents;
    var x, y := Decode(before, s), Decode(BLANK, s);
    assert map[] + s.extraFs == s.extraFs;
    forall k: string
      ensures Get(Disks(x), k) == Get(Disks(y), k) <==> k in s.extraFs || Get(Percents(before.extraFs), k) == 0.0
    {
      DisksAt(x, k);
      DisksAt(y, k);
      PercentsMerged(before.extraFs, s.extraFs, k);
      if k !in s.extraFs {
        NoPercent(s.extraFs, k);
      }
    }
    forall k: string ensures k !in before.extraFs ==> Get(Percents(before.extraFs), k) == 0.0 {
      if k !in before.extraFs {
        NoPercent(before.extraFs, k);
      }
    }
  }

  lemma NoPercent(extraFs: map<string, Fs>, k: string)
    requires k !in extraFs
    ensures Get(Percents(extraFs), k) == 0.0
  {
  }

  lemma GpusCarry(before: Series, s: Series)
    requires s != map[]
    ensures Largest(before + s, 0.0) == Largest(s, 0.0)
            <==> !exists k <- before :: k !in s && before[k] > Largest(s, 0.0)
  {
    var all, m := before + s, Largest(s, 0.0);
    assert forall k <- s :: all[k] == s[k];
    if k :| k in before && k !in s && before[k] > m {
      assert all[k] == before[k];
    } else {
      assert IsLargest(all, 0.0, m);
      LargestUnique(all, 0.0, m, Largest(all, 0.0));
    }
  }

  lemma OneAlike(v: real, w: real)
    ensures Alike(One(v), One(w)) <==> v == w
  {
    assert Get(One(v), "") == v && Get(One(w), "") == w;
  }

  lemma BandwidthStale(before: Decoded, s: Stored)
    ensures SameReadings(Readings(Decode(before, s), Bandwidth), Own(s, Bandwidth)) <==> !Carries(before, s, Bandwidth)
  {
    hide Alike;
    var x, y := Decode(before, s).bandwidth, Decode(BLANK, s).bandwidth;
    OneAlike(Mebibytes((x.0 + x.1) % WORD), Mebibytes((y.0 + y.1) % WORD));
  }

  lemma GpuStale(before: Decoded, s: Stored)
    ensures SameReadings(Readings(Decode(before, s), Gpu), Own(s, Gpu)) <==> !Carries(before, s, Gpu)
  {
    hide Alike;
    var x := before.gpus + s.gpus;
    assert map[] + s.gpus == s.gpus;
    if s.gpus == map[] {
      assert x == before.gpus;
    } else {
      GpusCarry(before.gpus, s.gpus);
      assert x != map[] by {
        var k :| k in s.gpus;
        assert k in x;
      }
      OneAlike(Largest(x, 0.0), Largest(s.gpus, 0.0));
    }
  }

  /** Exact: a row decodes to what it says itself, if and only if nothing is carried into it. */
  lemma StaleIff(before: Decoded, s: Stored, f: Field)
    ensures SameReadings(Readings(Decode(before, s), f), Own(s, f)) <==> !Carries(before, s, f)
  {
    match f
    case Disk => DisksCarry(before, s);
    case Temperature =>
      assert map[] + s.temps == s.temps;
      TemperaturesCarry(before.temps, s.temps);
    case Gpu => GpuStale(before, s);
    case Bandwidth => BandwidthStale(before, s);
    case Battery => OneAlike(Decode(before, s).battery as real, Decode(BLANK, s).battery as real);
    case _ =>
  }
}
