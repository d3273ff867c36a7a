/**
The GPU manager as an object (agent/gpu.go, agent/gpu_intel.go), each method proved equal to its function on values.
 */
module GpuManager {
  import opened Basics
  import opened Rounding
  import opened Series
  import opened GpuSnapshots

  function WithName(gpus: map<Id, Gpu>, ids: set<Id>, name: string): set<Id>
    requires ids <= gpus.Keys
  {
    set id | id in ids && gpus[id].name == name
  }

  lemma SharedByCount(gpus: map<Id, Gpu>, id: Id)
    requires id in gpus
    ensures |WithName(gpus, gpus.Keys, gpus[id].name)| > 1 <==> Shared(Names(gpus), id)
  {
    var same := WithName(gpus, gpus.Keys, gpus[id].name);
    assert same == {id} + (same - {id});
    assert forall other <- same :: other in gpus && Names(gpus)[other] == Names(gpus)[id];
    if Shared(Names(gpus), id) {
      var other :| other in gpus && other != id && gpus[other].name == gpus[id].name;
      assert other in same - {id};
    } else {
      assert same - {id} == {};
    }
  }

  lemma NoneWithName(gpus: map<Id, Gpu>, name: string)
    ensures |WithName(gpus, {}, name)| == 0
  {
    assert WithName(gpus, {}, name) == {};
  }

  lemma WithNameOneMore(gpus: map<Id, Gpu>, ids: set<Id>, id: Id, name: string)
    requires ids <= gpus.Keys && id in gpus && id !in ids
    ensures |WithName(gpus, ids + {id}, name)| == |WithName(gpus, ids, name)| + if gpus[id].name == name then 1 else 0
  {
    if gpus[id].name == name {
      assert WithName(gpus, ids + {id}, name) == WithName(gpus, ids, name) + {id};
    } else {
      assert WithName(gpus, ids + {id}, name) == WithName(gpus, ids, name);
    }
  }

  class GPUManager {
    var gpus: map<Id, Gpu>
    var lastAvg: map<Id, Reading>
    var snapshots: map<Key, map<Id, Snapshot>>

    function View(): State
      reads this
    {
      State(gpus, lastAvg, snapshots)
    }

    constructor ()
      ensures View() == EMPTY
    {
      gpus, lastAvg, snapshots := map[], map[], map[];
    }

    /** getJetsonParser, before its first sample. */
    method Enter(id: Id, name: string)
      modifies this`gpus
      ensures View() == Next(old(View()), Op.Enter(id, name))
    {
      gpus := gpus[id := NewGpu(name, false)];
    }

    /** The other parsers, for a GPU they may not have seen. */
    method Register(id: Id, name: string, intel: bool)
      modifies this`gpus
      ensures View() == Next(old(View()), Op.Register(id, name, intel))
    {
      if id !in gpus {
        gpus := gpus[id := NewGpu(name, intel)];
      } else {
        assert gpus[id := gpus[id]] == gpus;
      }
    }

    /** The name of an nvtop sample replaces the GPU's. */
    method Rename(id: Id, name: string)
      requires id in gpus
      modifies this`gpus
      ensures View() == Next(old(View()), Op.Rename(id, name))
    {
      gpus := gpus[id := gpus[id].(name := name)];
    }

    /** The NVML collector finds the GPU suspended. */
    method Suspend(id: Id)
      requires id in gpus
      modifies this`gpus
      ensures View() == Next(old(View()), Op.Suspend(id))
    {
      gpus := gpus[id := gpus[id].(temp := 0.0, memUsed := 0.0)];
    }

    /** The parsers, once the output is parsed and the GPU is known. */
    method AddSample(id: Id, x: Sample)
      requires id in gpus
      modifies this`gpus
      ensures View() == Next(old(View()), Op.Sample(id, x))
    {
      var g := gpus[id];
      match x {
        case Basic(usage, power, temp, memUsed, memTotal) =>
          if temp.Some? {
            g := g.(temp := temp.value);
          }
          if memUsed.Some? {
            g := g.(memUsed := memUsed.value);
          }
          if memTotal.Some? {
            g := g.(memTotal := memTotal.value);
          }
          g := g.(usage := g.usage + usage, power := g.power + power);
        case Intel(power, powerPkg, engines) =>
          g := g.(power := g.power + power, powerPkg := g.powerPkg + powerPkg);
          var sums := AddAll(EnginesOf(g.engines), engines);
          g := g.(engines := Some(sums));
      }
      g := g.(count := g.count + 1);
      gpus := gpus[id := g];
    }

    /** countGPUNames */
    method CountNames() returns (counts: map<string, nat>)
      ensures forall id <- gpus :: gpus[id].name in counts && (counts[gpus[id].name] > 1 <==> Shared(Names(gpus), id))
    {
      hide WithName, Shared;
      counts := map[];
      var rest := gpus.Keys;
      ghost var done: set<Id> := {};
      forall name: string ensures |WithName(gpus, done, name)| == 0 {
        NoneWithName(gpus, name);
      }
      while rest != {}
        invariant done + rest == gpus.Keys && done !! rest
        invariant forall id <- done :: gpus[id].name in counts
        invariant forall name: string :: (if name in counts then counts[name] else 0) == |WithName(gpus, done, name)|
      {
        var id :| id in rest;
        forall name: string
          ensures |WithName(gpus, done + {id}, name)|
               == |WithName(gpus, done, name)| + if gpus[id].name == name then 1 else 0
        {
          WithNameOneMore(gpus, done, id, name);
        }
        var name := gpus[id].name;
        counts := counts[name := (if name in counts then counts[name] else 0) + 1];
        rest := rest - {id};
        done := done + {id};
      }
      assert done == gpus.Keys;
      forall id <- gpus ensures counts[gpus[id].name] > 1 <==> Shared(Names(gpus), id) {
        SharedByCount(gpus, id);
      }
    }

    /** calculateGPUAverage */
    method CalculateAverage(id: Id, key: Key) returns (r: Reading)
      requires id in gpus
      modifies this`lastAvg
      ensures View() == old(View()).(lastAvg := lastAvg)
      ensures var g, last := gpus[id], LastSnapshot(View(), key, id);
              if DeltaCount(g, last) == 0 then r == Stale(g, Lookup(old(lastAvg), id)) && lastAvg == old(lastAvg)
              else r == Average(g, last) && lastAvg == old(lastAvg)[id := r]
    {
      hide TwoDecimals, Largest, EngineMeans, Rounded, Stale, DeltaCount;
      var g := gpus[id];
      var last := if key in snapshots && id in snapshots[key] then snapshots[key][id] else NOTHING;
      var n := DeltaCount(g, last);
      if n == 0 {
        return Stale(g, Lookup(lastAvg, id));
      }
      var power := TwoDecimals((g.power - last.power) / n as real);
      if g.engines.Some? {
        var usage, engines := IntelUsage(g, last, n);
        r := Reading(g.name, g.temp, g.memUsed, g.memTotal, usage, power,
                     TwoDecimals((g.powerPkg - last.powerPkg) / n as real), Some(engines));
      } else {
        var usage := TwoDecimals((g.usage - last.usage) / n as real);
        r := Reading(g.name, g.temp, g.memUsed, g.memTotal, usage, power, g.powerPkg, None);
      }
      lastAvg := lastAvg[id := r];
    }

    /** The body of GetCurrentData's loop. */
    method ReadOne(id: Id, key: Key, shared: bool) returns (r: Reading)
      requires id in gpus && key in snapshots && (shared <==> Shared(Names(gpus), id))
      modifies this`lastAvg, this`snapshots
      ensures r == ReadingOf(old(View()), key, id)
      ensures lastAvg == if Renews(old(View()), key, id) then old(lastAvg)[id := Body(old(View()), key, id)]
              else old(lastAvg)
      ensures snapshots == old(snapshots)[key := old(snapshots)[key][id := SnapshotOf(gpus[id])]]
    {
      hide Average, Stale, DeltaCount, Shared, Instant, SnapshotOf;
      r := CalculateAverage(id, key);
      assert r == Body(old(View()), key, id);
      r := Instant(r, gpus[id]);
      snapshots := snapshots[key := snapshots[key][id := SnapshotOf(gpus[id])]];
      if shared {
        r := r.(name := gpus[id].name + " " + id);
      }
    }

    /** GetCurrentData */
    method GetCurrentData(key: Key) returns (data: map<Id, Reading>)
      modifies this`lastAvg, this`snapshots
      ensures data == Readings(old(View()), key)
      ensures View() == AfterRead(old(View()), key)
    {
      hide Shared, ReadingsOf, AveragesOf, SnapshotsOf, ReadingOf, Body, Renews, SnapshotOf, LastSnapshot, Names;
      ghost var s := View();
      if key !in snapshots {
        snapshots := snapshots[key := map[]];
      }
      ghost var start := snapshots[key];
      var counts := CountNames();
      data := map[];
      NoneRead(s, key);
      assert start + map[] == start;
      assert snapshots == s.snapshots[key := start];
      var rest := gpus.Keys;
      ghost var done: set<Id> := {};
      while rest != {}
        invariant done + rest == gpus.Keys && done !! rest
        invariant data == ReadingsOf(s, key, done)
        invariant lastAvg == s.lastAvg + AveragesOf(s, key, done)
        invariant snapshots == s.snapshots[key := start + SnapshotsOf(s, done)]
      {
        var id :| id in rest;
        OneMore(s, key, done, id);
        PlusUpdate(s.lastAvg, AveragesOf(s, key, done), id, Body(s, key, id));
        PlusUpdate(start, SnapshotsOf(s, done), id, SnapshotOf(gpus[id]));
        UpdateTwice(s.snapshots, key, start + SnapshotsOf(s, done), start + SnapshotsOf(s, done + {id}));
        ReadingFrame(s, View(), key, id, start, done);
        var r := ReadOne(id, key, counts[gpus[id].name] > 1);
        data := data[id := r];
        rest := rest - {id};
        done := done + {id};
      }
      assert done == gpus.Keys;
    }
  }

  lemma NoneRead(s: State, key: Key)
    ensures ReadingsOf(s, key, {}) == map[] && SnapshotsOf(s, {}) == map[] && AveragesOf(s, key, {}) == map[]
    ensures s.lastAvg + AveragesOf(s, key, {}) == s.lastAvg
  {
  }

  /** What a GPU reads as does not depend on how many others have been read. */
  lemma ReadingFrame(s: State, t: State, key: Key, id: Id, start: map<Id, Snapshot>, done: set<Id>)
    requires id in s.gpus && id !in done && done <= s.gpus.Keys && t.gpus == s.gpus
    requires start == if key in s.snapshots then s.snapshots[key] else map[]
    requires t.lastAvg == s.lastAvg + AveragesOf(s, key, done)
    requires t.snapshots == s.snapshots[key := start + SnapshotsOf(s, done)]
    ensures ReadingOf(t, key, id) == ReadingOf(s, key, id) && Body(t, key, id) == Body(s, key, id)
    ensures Renews(t, key, id) == Renews(s, key, id)
  {
    hide Average, Stale, DeltaCount;
    assert LastSnapshot(t, key, id) == LastSnapshot(s, key, id);
    assert Lookup(t.lastAvg, id) == Lookup(s.lastAvg, id);
  }

  lemma OneMore(s: State, key: Key, ids: set<Id>, id: Id)
    requires ids <= s.gpus.Keys && id in s.gpus && id !in ids
    ensures id !in AveragesOf(s, key, ids) && id !in SnapshotsOf(s, ids)
    ensures ReadingsOf(s, key, ids + {id}) == ReadingsOf(s, key, ids)[id := ReadingOf(s, key, id)]
    ensures SnapshotsOf(s, ids + {id}) == SnapshotsOf(s, ids)[id := SnapshotOf(s.gpus[id])]
    ensures AveragesOf(s, key, ids + {id})
         == if Renews(s, key, id) then AveragesOf(s, key, ids)[id := Body(s, key, id)] else AveragesOf(s, key, ids)
  {
    hide ReadingOf, Average, DeltaCount, SnapshotOf;
  }

  /** calculateIntelGPUUsage */
  method IntelUsage(g: Gpu, last: Snapshot, n: nat) returns (usage: real, engines: Series)
    requires n > 0
    ensures usage == TwoDecimals(Largest(EngineMeans(g, last, n), 0.0))
    ensures engines == Rounded(EngineMeans(g, last, n))
  {
    hide TwoDecimals;
    ghost var means := EngineMeans(g, last, n);
    var most := 0.0;
    engines := map[];
    var rest := EnginesOf(g.engines).Keys;
    while rest != {}
      invariant rest <= EnginesOf(g.engines).Keys
      invariant engines == Rounded(means - rest)
      invariant IsLargest(means - rest, 0.0, most)
    {
      var k :| k in rest;
      var mean := (EnginesOf(g.engines)[k] - Get(EnginesOf(last.engines), k)) / n as real;
      LargestOneMore(means - rest, 0.0, most, k, mean);
      assert means - (rest - {k}) == (means - rest)[k := mean];
      engines := engines[k := TwoDecimals(mean)];
      most := if most < mean then mean else most;
      rest := rest - {k};
    }
    assert means - {} == means;
    LargestUnique(means, 0.0, most, Largest(means, 0.0));
    usage := TwoDecimals(most);
  }
}
