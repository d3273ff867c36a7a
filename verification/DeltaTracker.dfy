/**
The delta tracker (agent/deltatracker/deltatracker.go) in the two orders it is used in: the container statistics set a
value, ask for its delta and cycle at the end of the interval (agent/docker.go); the network statistics cycle first,
set, and look at the previous value (agent/network.go). Values are 64-bit words.
 */
module DeltaTracker {
  import opened Basics
  import opened Counters

  type Readings<K> = map<K, Word>

  datatype Tracker<K> = Tracker(current: Readings<K>, previous: Readings<K>)

  function Fresh<K>(): Tracker<K> {
    Tracker(map[], map[])
  }

  function Difference(now: Word, before: Word): Word {
    (now - before) % WORD
  }

  /** Delta */
  function DeltaOf<K>(t: Tracker<K>, id: K): Word {
    if id in t.current && id in t.previous then Difference(t.current[id], t.previous[id]) else 0
  }

  function Cycled<K>(t: Tracker<K>): Tracker<K> {
    Tracker(map[], t.current)
  }

  /** The network code's delta: a counter that went back counts from zero. */
  function Grown(now: Word, before: Option<Word>): Word {
    if before.None? then 0 else if now >= before.value then now - before.value else now
  }

  function Lookup<K>(m: Readings<K>, id: K): Option<Word> {
    if id in m then Some(m[id]) else None
  }

  class DeltaTracker<K(==)> {
    var current: Readings<K>
    var previous: Readings<K>

    ghost function View(): Tracker<K>
      reads this
    {
      Tracker(current, previous)
    }

    constructor ()
      ensures View() == Fresh()
    {
      current, previous := map[], map[];
    }

    method Set(id: K, value: Word)
      modifies this`current
      ensures current == old(current)[id := value]
    {
      current := current[id := value];
    }

    method Previous(id: K) returns (value: Option<Word>)
      ensures value == Lookup(previous, id)
    {
      value := if id in previous then Some(previous[id]) else None;
    }

    method Delta(id: K) returns (d: Word)
      ensures d == DeltaOf(View(), id)
    {
      if id !in current {
        return 0;
      }
      if id !in previous {
        return 0;
      }
      return Difference(current[id], previous[id]);
    }

    method Deltas() returns (deltas: map<K, Word>)
      ensures deltas.Keys == current.Keys && forall id <- current :: deltas[id] == DeltaOf(View(), id)
    {
      deltas := map[];
      var rest := current.Keys;
      while rest != {}
        invariant rest <= current.Keys && deltas.Keys == current.Keys - rest
        invariant forall id <- deltas :: deltas[id] == DeltaOf(View(), id)
      {
        var id :| id in rest;
        deltas := deltas[id := if id in previous then Difference(current[id], previous[id]) else 0];
        rest := rest - {id};
      }
    }

    method Cycle()
      modifies this
      ensures View() == Cycled(old(View()))
    {
      previous := current;
      current := map[];
    }

    /** One interval as the container statistics take it. */
    method SetDeltaCycle(readings: Readings<K>) returns (deltas: map<K, Word>)
      requires current == map[]
      modifies this
      ensures View() == Tracker(map[], readings)
      ensures deltas == DockerDeltas(old(previous), readings)
    {
      deltas := map[];
      var rest := readings.Keys;
      while rest != {}
        invariant rest <= readings.Keys && previous == old(previous)
        invariant current == readings - rest
        invariant deltas == DockerDeltas(previous, readings - rest)
      {
        var id :| id in rest;
        Set(id, readings[id]);
        var d := Delta(id);
        deltas := deltas[id := d];
        rest := rest - {id};
      }
      assert readings - {} == readings;
      Cycle();
    }

    /** One interval as the network statistics take it. */
    method CycleSetPrevious(readings: Readings<K>) returns (deltas: map<K, Word>)
      modifies this
      ensures View() == Tracker(readings, old(current))
      ensures deltas == NetworkDeltas(old(current), readings)
    {
      Cycle();
      deltas := map[];
      var rest := readings.Keys;
      while rest != {}
        invariant rest <= readings.Keys && previous == old(current)
        invariant current == readings - rest
        invariant deltas == NetworkDeltas(previous, readings - rest)
      {
        var id :| id in rest;
        Set(id, readings[id]);
        var before := Previous(id);
        deltas := deltas[id := Grown(readings[id], before)];
        rest := rest - {id};
      }
      assert readings - {} == readings;
    }
  }

  function DockerDeltas<K>(before: Readings<K>, readings: Readings<K>): map<K, Word> {
    map id | id in readings :: if id in before then Difference(readings[id], before[id]) else 0
  }

  function NetworkDeltas<K>(before: Readings<K>, readings: Readings<K>): map<K, Word> {
    map id | id in readings :: Grown(readings[id], Lookup(before, id))
  }

  // ---------------------------------------------------------------- runs of intervals

  /** The tracker after intervals in the container order, and in the network order. */
  function DockerAfter<K>(runs: seq<Readings<K>>): Tracker<K> {
    if runs == [] then Fresh() else Tracker(map[], runs[|runs| - 1])
  }

  function NetworkAfter<K>(runs: seq<Readings<K>>): Tracker<K> {
    if runs == [] then Fresh() else Tracker(runs[|runs| - 1], if |runs| == 1 then map[] else runs[|runs| - 2])
  }

  /** The same intervals, taken by the objects' steps. */
  function DockerRun<K>(runs: seq<Readings<K>>): Tracker<K> {
    if runs == [] then Fresh() else DockerStep(DockerRun(runs[..|runs| - 1]), runs[|runs| - 1])
  }

  function DockerStep<K>(t: Tracker<K>, readings: Readings<K>): Tracker<K> {
    Cycled(Tracker(t.current + readings, t.previous))
  }

  function NetworkRun<K>(runs: seq<Readings<K>>): Tracker<K> {
    if runs == [] then Fresh() else NetworkStep(NetworkRun(runs[..|runs| - 1]), runs[|runs| - 1])
  }

  function NetworkStep<K>(t: Tracker<K>, readings: Readings<K>): Tracker<K> {
    var c := Cycled(t);
    Tracker(c.current + readings, c.previous)
  }

  lemma {:induction false} RunsAre<K>(runs: seq<Readings<K>>)
    ensures DockerRun(runs) == DockerAfter(runs) && NetworkRun(runs) == NetworkAfter(runs)
  {
    if runs != [] {
      var init, last := runs[..|runs| - 1], runs[|runs| - 1];
      RunsAre(init);
      assert map[] + last == last;
    }
  }

  /** What either order should report for interval i: the growth since the interval before, if the key was there. */
  function Growth<K>(runs: seq<Readings<K>>, i: nat, id: K): int
    requires i < |runs|
  {
    if i > 0 && id in runs[i] && id in runs[i - 1] then runs[i][id] as int - runs[i - 1][id] as int else 0
  }

  function DockerDelta<K>(runs: seq<Readings<K>>, i: nat, id: K): Word
    requires i < |runs| && id in runs[i]
  {
    DockerDeltas(DockerRun(runs[..i]).previous, runs[i])[id]
  }

  function NetworkDelta<K>(runs: seq<Readings<K>>, i: nat, id: K): Word
    requires i < |runs| && id in runs[i]
  {
    NetworkDeltas(NetworkRun(runs[..i]).current, runs[i])[id]
  }

  /**
  The two orders report the same delta if and only if the counter did not go back, and it is then the growth. If it did,
  one order reports the growth modulo 2^64 and the other the counter itself. A key that was not read in the interval
  before reports nothing.
   */
  lemma OrdersAgreeIff<K>(runs: seq<Readings<K>>, i: nat, id: K)
    requires i < |runs| && id in runs[i]
    ensures DockerDelta(runs, i, id) == NetworkDelta(runs, i, id) <==> Growth(runs, i, id) >= 0
    ensures Growth(runs, i, id) >= 0 ==> DockerDelta(runs, i, id) == Growth(runs, i, id)
    ensures Growth(runs, i, id) < 0 ==>
              && DockerDelta(runs, i, id) == Growth(runs, i, id) + 0x1_0000_0000_0000_0000
              && NetworkDelta(runs, i, id) == runs[i][id]
    ensures i == 0 || id !in runs[i - 1] ==> DockerDelta(runs, i, id) == NetworkDelta(runs, i, id) == 0
  {
    RunsAre(runs[..i]);
    if i > 0 {
      assert runs[..i][i - 1] == runs[i - 1];
      if id in runs[i - 1] {
        var d := runs[i][id] as int - runs[i - 1][id] as int;
        if d >= 0 {
          ModSmall(d);
        } else {
          ModOnce(d);
        }
      }
    }
  }

  /** The sum of the deltas of intervals first+1 .. last. */
  function DeltaSum<K>(runs: seq<Readings<K>>, first: nat, last: nat, id: K): int
    requires first <= last < |runs| && forall i :: first < i <= last ==> id in runs[i]
    decreases last - first
  {
    if first == last then 0 else DeltaSum(runs, first, last - 1, id) + DockerDelta(runs, last, id)
  }

  /** For a key read in every interval of a stretch, the deltas add up to the last value less the first. */
  lemma {:induction false} DeltasTelescope<K>(runs: seq<Readings<K>>, first: nat, last: nat, id: K)
    requires first <= last < |runs| && forall i :: first <= i <= last ==> id in runs[i]
    requires forall i :: first < i <= last ==> Growth(runs, i, id) >= 0
    ensures DeltaSum(runs, first, last, id) == runs[last][id] as int - runs[first][id] as int
    decreases last - first
  {
    if first < last {
      DeltasTelescope(runs, first, last - 1, id);
      OrdersAgreeIff(runs, last, id);
    }
  }
}
