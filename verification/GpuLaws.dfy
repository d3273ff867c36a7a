/**
What a read reports of a GPU (agent/gpu.go), in terms of its unread samples: each figure is the nearest hundredth of a
mean of them, or of the value a field last had.
 */
module GpuLaws {
  import opened Basics
  import opened Rounding
  import opened Series
  import opened GpuSnapshots

  /** Another GPU has the same name. */
  ghost predicate HasNamesake(q: Queues, id: Id)
    requires id in q.sources
  {
    exists other <- q.sources :: other != id && q.sources[other].name == q.sources[id].name
  }

  /** The figures of a GPU without engines: means of its samples. */
  ghost predicate IsPlainMean(r: Reading, xs: seq<Sample>)
    requires xs != []
  {
    && IsHundredth(r.usage, Sum(xs, Usage) / |xs| as real)
    && IsHundredth(r.power, Sum(xs, Power) / |xs| as real)
    && r.powerPkg == 0.0 && r.engines.None?
  }

  /** Those of one with engines: a mean for each engine ever reported, and the usage is that of the busiest. */
  ghost predicate IsEngineMean(r: Reading, names: set<string>, xs: seq<Sample>)
    requires xs != []
  {
    && IsHundredth(r.power, Sum(xs, Power) / |xs| as real)
    && IsHundredth(r.powerPkg, Sum(xs, PowerPkg) / |xs| as real)
    && r.engines.Some? && r.engines.value.Keys == names
    && (forall k <- names :: IsHundredth(r.engines.value[k], Sum(xs, Engine(k)) / |xs| as real))
    && exists m :: IsHundredth(r.usage, m) && IsBusiest(m, names, xs)
  }

  ghost predicate IsBusiest(m: real, names: set<string>, xs: seq<Sample>)
    requires xs != []
  {
    && m >= 0.0 && (forall k <- names :: Sum(xs, Engine(k)) / |xs| as real <= m)
    && (m == 0.0 || exists k <- names :: Sum(xs, Engine(k)) / |xs| as real == m)
  }

  /** No figure at all. */
  predicate IsIdle(r: Reading) {
    r.usage == 0.0 && r.power == 0.0 && r.powerPkg == 0.0 && r.engines.None?
  }

  predicate SameFigures(r: Reading, a: Reading) {
    r.usage == a.usage && r.power == a.power && r.powerPkg == a.powerPkg && r.engines == a.engines
  }

  lemma BusiestIs(src: Source, xs: seq<Sample>)
    requires xs != []
    ensures IsBusiest(Largest(QueueMeans(src, xs), 0.0), EngineNames(src.all), xs)
  {
    var means := QueueMeans(src, xs);
    var m := Largest(means, 0.0);
    assert forall k <- EngineNames(src.all) :: means[k] == Sum(xs, Engine(k)) / |xs| as real;
    if m != 0.0 {
      var k :| k in means && means[k] == m;
      assert k in EngineNames(src.all);
    }
  }

  lemma AverageIs(src: Source, xs: seq<Sample>)
    requires xs != []
    ensures var r := QueueAverage(src, xs);
            && r.name == src.name
            && if HasEngines(src) then IsEngineMean(r, EngineNames(src.all), xs) else IsPlainMean(r, xs)
  {
    hide TwoDecimals, IsHundredth, Largest, HasEngines, EngineNames, LastTemp, LastUsed, LastTotal, Sum, IsBusiest;
    var r, means := QueueAverage(src, xs), QueueMeans(src, xs);
    NearestHundredth(Mean(xs, Usage));
    NearestHundredth(Mean(xs, Power));
    NearestHundredth(Mean(xs, PowerPkg));
    NearestHundredth(Largest(means, 0.0));
    if HasEngines(src) {
      BusiestIs(src, xs);
      forall k <- EngineNames(src.all) ensures IsHundredth(r.engines.value[k], Sum(xs, Engine(k)) / |xs| as real) {
        NearestHundredth(means[k]);
      }
      assert r.engines.value.Keys == EngineNames(src.all);
    }
  }

  /** The values that are not averaged are the last ones seen; a suspended GPU has none but its total memory. */
  ghost predicate IsCurrent(r: Reading, src: Source) {
    && IsHundredth(r.temp, LastTemp(src.awake)) && IsHundredth(r.memUsed, LastUsed(src.awake))
    && IsHundredth(r.memTotal, LastTotal(src.all))
  }

  /** The queue's reading with its name and its current values left out. */
  lemma QueueReadingIs(q: Queues, key: Key, id: Id)
    requires id in q.sources
    ensures var r, src, xs := QueueReading(q, key, id), q.sources[id], Unread(q, key, id);
            && IsCurrent(r, src)
            && (HasNamesake(q, id) ==> r.name == src.name + " " + id)
            && (xs != [] && !HasNamesake(q, id) ==> r.name == src.name)
            && (xs != [] ==> SameFigures(r, QueueAverage(src, xs)))
            && (xs == [] && LastTemp(src.awake) == 0.0 && LastUsed(src.awake) == 0.0 ==> IsIdle(r))
            && (xs == [] && !(LastTemp(src.awake) == 0.0 && LastUsed(src.awake) == 0.0) ==>
                if id in q.lastAvg then SameFigures(r, q.lastAvg[id]) else IsIdle(r))
  {
    hide TwoDecimals, IsHundredth, LastTemp, LastUsed, LastTotal, QueueMeans, HasEngines, Unread;
    var src := q.sources[id];
    NearestHundredth(LastTemp(src.awake));
    NearestHundredth(LastUsed(src.awake));
    NearestHundredth(LastTotal(src.all));
    NamesakeIff(q, id);
  }

  lemma NamesakeIff(q: Queues, id: Id)
    requires id in q.sources
    ensures Shared(SourceNames(q.sources), id) <==> HasNamesake(q, id)
  {
    var names := SourceNames(q.sources);
    if Shared(names, id) {
      var other :| other in names && other != id && names[other] == names[id];
      assert q.sources[other].name == q.sources[id].name;
    }
    if HasNamesake(q, id) {
      var other :| other in q.sources && other != id && q.sources[other].name == q.sources[id].name;
      assert names[other] == names[id];
    }
  }

  /**
  What the totals report, wherever they are in step with the queues: the nearest hundredths of the means of the samples
  the key has not read, or without such samples nothing for a suspended GPU and otherwise the last average of any key.
  Its id follows the name exactly when another GPU has the same name.
   */
  lemma ReportIs(s: State, q: Queues, key: Key, id: Id)
    requires Rel(s, q, id) && id in q.sources && |Unread(q, key, id)| < 0x1_0000_0000
    ensures id in s.gpus
    ensures var r, src, xs := ReadingOf(s, key, id), q.sources[id], Unread(q, key, id);
            && IsCurrent(r, src)
            && (HasNamesake(q, id) ==> r.name == src.name + " " + id)
            && (xs != [] && !HasNamesake(q, id) ==> r.name == src.name)
            && (xs != [] ==> if HasEngines(src) then IsEngineMean(r, EngineNames(src.all), xs) else IsPlainMean(r, xs))
            && (xs == [] && LastTemp(src.awake) == 0.0 && LastUsed(src.awake) == 0.0 ==> IsIdle(r))
            && (xs == [] && !(LastTemp(src.awake) == 0.0 && LastUsed(src.awake) == 0.0) ==>
                if id in q.lastAvg then SameFigures(r, q.lastAvg[id]) else IsIdle(r))
  {
    hide ReadingOf, QueueReading, QueueAverage, Unread, LastTemp, LastUsed, HasEngines, IsCurrent, EngineNames,
      IsHundredth, IsBusiest, HasNamesake, Sum, Tracks, Matches;
    ReadingRefines(s, q, key, id);
    QueueReadingIs(q, key, id);
    var src, xs := q.sources[id], Unread(q, key, id);
    if xs != [] {
      AverageIs(src, xs);
    }
  }
}
