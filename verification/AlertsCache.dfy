/**
The in-memory cache of alert records (internal/alerts/alerts_cache.go), kept in step with the alerts table by the events
of its writes. Each event is one step: the table has changed and the cache is told.
 */
module AlertsCache {
  import opened Basics

  type Id = string

  datatype Record = Record(system: Id, user: Id, name: string, value: real, triggered: bool, min: int)

  datatype Data = Data(id: Id, system: Id, user: Id, name: string, value: real, triggered: bool, min: int)

  type Table = map<Id, Record>

  datatype Cache = Cache(store: map<Id, map<Id, Data>>, populated: bool)

  datatype Hub = Hub(table: Table, cache: Cache)

  /** PopulateFromRecord: the minutes are kept in a byte. */
  function Cached(id: Id, r: Record): Data {
    Data(id, r.system, r.user, r.name, r.value, r.triggered, r.min % 256)
  }

  /** What GetSystemAlerts should return. */
  function Filtered(table: Table, system: Id): map<Id, Data> {
    map id | id in table && table[id].system == system :: Cached(id, table[id])
  }

  // ---------------------------------------------------------------- the cache's operations

  function Updated(c: Cache, id: Id, r: Record): Cache {
    if r.system == "" then c
    else
      var alerts := if r.system in c.store then c.store[r.system] else map[];
      c.(store := c.store[r.system := alerts[id := Cached(id, r)]])
  }

  function Deleted(c: Cache, id: Id, r: Record): Cache {
    if r.system == "" || r.system !in c.store then c
    else c.(store := c.store[r.system := c.store[r.system] - {id}])
  }

  /** PopulateFromDB, when the table could be read. */
  function Populated(table: Table): Cache {
    Cache(map system | system in (set id | id in table && table[id].system != "" :: table[id].system) ::
          Filtered(table, system), true)
  }

  /** GetSystemAlerts: what it finds, and the cache it leaves. */
  function Loaded(c: Cache, table: Table, system: Id): Cache {
    if system in c.store then c else c.(store := c.store[system := Filtered(table, system)])
  }

  // ---------------------------------------------------------------- steps

  datatype Step =
    | Write(id: Id, record: Record)                // a record is created or updated
    | Remove(id: Id)
    | Populate(force: bool, readable: bool)
    | Get(system: Id, readable: bool)

  function Next(h: Hub, step: Step): Hub {
    match step
    case Write(id, record) => Hub(h.table[id := record], Updated(h.cache, id, record))
    case Remove(id) => if id in h.table then Hub(h.table - {id}, Deleted(h.cache, id, h.table[id])) else h
    case Populate(force, readable) => if (h.cache.populated && !force) || !readable then h
        else h.(cache := Populated(h.table))
    case Get(system, readable) => if readable then h.(cache := Loaded(h.cache, h.table, system)) else h
  }

  function Run(h: Hub, steps: seq<Step>): Hub {
    if steps == [] then h else Next(Run(h, steps[..|steps| - 1]), steps[|steps| - 1])
  }

  // ---------------------------------------------------------------- agreement

  /** What is cached about a system is what the table says. Alerts without a system are not cached. */
  predicate Agrees(h: Hub) {
    forall system <- h.cache.store :: system != "" ==> h.cache.store[system] == Filtered(h.table, system)
  }

  /** Every system with alerts is in the cache. */
  predicate Covers(h: Hub) {
    forall id <- h.table :: h.table[id].system != "" ==> h.table[id].system in h.cache.store
  }

  predicate OthersOf(table: Table, system: Id, id: Id) {
    exists other <- table :: other != id && table[other].system == system
  }

  /**
  The writes that leave the cache wrong: one that moves an alert away from a cached system, and one that starts the
  entry of an uncached system which has other alerts.
   */
  predicate Spoils(h: Hub, step: Step) {
    && step.Write?
    && (|| (step.id in h.table && h.table[step.id].system != step.record.system
            && h.table[step.id].system != "" && h.table[step.id].system in h.cache.store)
        || (step.record.system != "" && step.record.system !in h.cache.store
            && OthersOf(h.table, step.record.system, step.id)))
  }

  lemma FilteredWrite(table: Table, id: Id, r: Record, system: Id)
    ensures Filtered(table[id := r], system)
         == if r.system == system then Filtered(table, system)[id := Cached(id, r)] else Filtered(table, system) - {id}
  {
  }

  lemma WriteExact(h: Hub, id: Id, r: Record)
    requires Agrees(h)
    ensures Agrees(Next(h, Write(id, r))) <==> !Spoils(h, Write(id, r))
  {
    var t := Next(h, Write(id, r));
    if id in h.table && h.table[id].system != r.system && h.table[id].system != ""
        && h.table[id].system in h.cache.store {
      var moved := h.table[id].system;
      assert id in Filtered(h.table, moved) && id !in Filtered(t.table, moved);
      assert t.cache.store[moved] == h.cache.store[moved];
    } else if r.system != "" && r.system !in h.cache.store && OthersOf(h.table, r.system, id) {
      var other :| other in h.table && other != id && h.table[other].system == r.system;
      assert other in Filtered(t.table, r.system) && other !in t.cache.store[r.system];
    } else {
      forall system <- t.cache.store | system != "" ensures t.cache.store[system] == Filtered(t.table, system) {
        FilteredWrite(h.table, id, r, system);
        if system == r.system && system !in h.cache.store {
          assert Filtered(h.table, system) - {id} == map[];
          assert Filtered(h.table, system)[id := Cached(id, r)] == map[][id := Cached(id, r)];
        } else if system != r.system {
          assert Filtered(h.table, system) - {id} == Filtered(h.table, system);
        }
      }
    }
  }

  lemma RemoveAgrees(h: Hub, id: Id)
    requires Agrees(h)
    ensures Agrees(Next(h, Remove(id)))
  {
    var t := Next(h, Remove(id));
    forall system <- t.cache.store | system != "" ensures t.cache.store[system] == Filtered(t.table, system) {
      assert Filtered(h.table - {id}, system) == Filtered(h.table, system) - {id};
      if id in h.table && h.table[id].system != system {
        assert Filtered(h.table, system) - {id} == Filtered(h.table, system);
      }
    }
  }

  /** Exactly the spoiling writes break the agreement; no other event does. */
  lemma StepExact(h: Hub, step: Step)
    requires Agrees(h)
    ensures Agrees(Next(h, step)) <==> !Spoils(h, step)
  {
    match step
    case Write(id, record) => WriteExact(h, id, record);
    case Remove(id) => RemoveAgrees(h, id);
    case _ =>
  }

  /** An event that keeps the system of the alert it is about. */
  predicate KeepsSystem(h: Hub, step: Step) {
    step.Write? && step.id in h.table ==> h.table[step.id].system == step.record.system
  }

  lemma StepCovers(h: Hub, step: Step)
    requires Agrees(h) && Covers(h) && KeepsSystem(h, step)
    ensures Agrees(Next(h, step)) && Covers(Next(h, step))
  {
    StepExact(h, step);
  }

  ghost predicate SystemsKept(h: Hub, steps: seq<Step>) {
    forall i {:trigger steps[i]} :: 0 <= i < |steps| ==> KeepsSystem(Run(h, steps[..i]), steps[i])
  }

  lemma {:induction false} RunAgrees(h: Hub, steps: seq<Step>)
    requires Agrees(h) && Covers(h) && SystemsKept(h, steps)
    ensures Agrees(Run(h, steps)) && Covers(Run(h, steps))
  {
    if steps != [] {
      var n := |steps| - 1;
      assert SystemsKept(h, steps[..n]) by {
        forall i {:trigger steps[..n][i]} | 0 <= i < n ensures KeepsSystem(Run(h, steps[..n][..i]), steps[..n][i]) {
          assert steps[..n][..i] == steps[..i] && steps[..n][i] == steps[i];
        }
      }
      RunAgrees(h, steps[..n]);
      assert KeepsSystem(Run(h, steps[..n]), steps[n]);
      StepCovers(Run(h, steps[..n]), steps[n]);
    }
  }

  lemma PopulateAgrees(table: Table)
    ensures Agrees(Hub(table, Populated(table))) && Covers(Hub(table, Populated(table)))
  {
  }

  /**
  After a population, over every sequence of creations, updates that keep the system, deletions, reads and further
  populations, the cache returns the table's alerts of a system, and a system it does not hold has none.
   */
  lemma CacheIsTheTable(table: Table, steps: seq<Step>, system: Id)
    requires SystemsKept(Hub(table, Populated(table)), steps) && system != ""
    ensures var h := Run(Hub(table, Populated(table)), steps);
            if system in h.cache.store then h.cache.store[system] == Filtered(h.table, system)
                else Filtered(h.table, system) == map[]
  {
    PopulateAgrees(table);
    RunAgrees(Hub(table, Populated(table)), steps);
    var h := Run(Hub(table, Populated(table)), steps);
    if system !in h.cache.store {
      assert forall id <- h.table :: h.table[id].system != system;
    }
  }

  /** A cached alert says what the record says; its minutes are a byte. */
  predicate SaysTheSame(d: Data, id: Id, r: Record) {
    && d.id == id && d.system == r.system && d.user == r.user && d.name == r.name && d.value == r.value
    && d.triggered == r.triggered && 0 <= d.min <= 255 && (r.min - d.min) % 256 == 0
  }

  lemma FilteredSays(table: Table, system: Id, id: Id)
    ensures id in Filtered(table, system) <==> id in table && table[id].system == system
    ensures id in Filtered(table, system) ==> SaysTheSame(Filtered(table, system)[id], id, table[id])
  {
    if id in table {
      WholeBytes(table[id].min);
    }
  }

  lemma WholeBytes(m: int)
    ensures 0 <= m % 256 <= 255 && (m - m % 256) % 256 == 0
  {
  }

  /** So in every such run an alert is cached under a system exactly when the table has it there, and says the same. */
  lemma CachedIff(table: Table, steps: seq<Step>, system: Id, id: Id)
    requires SystemsKept(Hub(table, Populated(table)), steps) && system != ""
    ensures var h := Run(Hub(table, Populated(table)), steps);
            && (system in h.cache.store && id in h.cache.store[system]
                <==> id in h.table && h.table[id].system == system)
            && (system in h.cache.store && id in h.cache.store[system] ==>
                  SaysTheSame(h.cache.store[system][id], id, h.table[id]))
  {
    hide Run, Populated, Filtered, SaysTheSame;
    CacheIsTheTable(table, steps, system);
    FilteredSays(Run(Hub(table, Populated(table)), steps).table, system, id);
  }

  /**
  A population that takes place makes the cache the table whatever had spoilt it; it takes place if the table can be
  read and none did before or it is forced, and otherwise nothing changes.
   */
  lemma PopulateRepairs(h: Hub, force: bool, readable: bool, system: Id, id: Id)
    requires system != ""
    ensures var t := Next(h, Populate(force, readable));
            if readable && (force || !h.cache.populated) then
              && t.table == h.table && t.cache.populated && Agrees(t) && Covers(t)
              && (system in t.cache.store && id in t.cache.store[system]
                  <==> id in h.table && h.table[id].system == system)
            else t == h
  {
    PopulateAgrees(h.table);
    FilteredSays(h.table, system, id);
  }

  /** A read of a system that is not cached caches what the table says of it now, and of no other. */
  lemma GetLoads(h: Hub, system: Id, readable: bool, other: Id, id: Id)
    ensures var t := Next(h, Get(system, readable));
            && t.table == h.table && t.cache.populated == h.cache.populated
            && (other in t.cache.store <==> other in h.cache.store || (other == system && readable))
            && (other in h.cache.store ==> t.cache.store[other] == h.cache.store[other])
            && (system !in h.cache.store && readable ==>
                  && (id in t.cache.store[system] <==> id in h.table && h.table[id].system == system)
                  && (id in t.cache.store[system] ==> SaysTheSame(t.cache.store[system][id], id, h.table[id])))
  {
    hide SaysTheSame;
    FilteredSays(h.table, system, id);
  }

  /** After a population, an update that moves an alert to another system leaves it cached under the old one as well. */
  lemma MoveSpoils(id: Id, r: Record, to: Id)
    requires r.system != "" && to != r.system
    ensures var h := Hub(map[id := r], Populated(map[id := r]));
            var t := Run(h, [Write(id, r.(system := to))]);
            && Spoils(h, Write(id, r.(system := to))) && !Agrees(t)
            && r.system in t.cache.store && t.cache.store[r.system] == map[id := Cached(id, r)]
                && Filtered(t.table, r.system) == map[]
  {
    var h := Hub(map[id := r], Populated(map[id := r]));
    assert id in h.table && h.table[id].system == r.system;
    assert h.cache.store[r.system] == Filtered(h.table, r.system) == map[id := Cached(id, r)];
    PopulateAgrees(map[id := r]);
    WriteExact(h, id, r.(system := to));
    assert [Write(id, r.(system := to))][..0] == [];
  }

  /** Before the population, a write to a system with other alerts leaves the cache with the new one alone. */
  lemma EarlyWriteSpoils(id: Id, other: Id, r: Record)
    requires r.system != "" && id != other
    ensures var h := Hub(map[other := r], Cache(map[], false));
            var t := Run(h, [Write(id, r)]);
            && Agrees(h) && Spoils(h, Write(id, r)) && !Agrees(t)
            && t.cache.store[r.system] == map[id := Cached(id, r)]
            && Filtered(t.table, r.system) == map[id := Cached(id, r), other := Cached(other, r)]
  {
    var h := Hub(map[other := r], Cache(map[], false));
    assert other in h.table && h.table[other].system == r.system;
    WriteExact(h, id, r);
    assert [Write(id, r)][..0] == [];
  }

  /** Refresh, on a snapshot taken earlier. */
  function Refreshed(c: Cache, d: Data): Option<Data> {
    if d.id != "" && d.system in c.store && d.id in c.store[d.system] then Some(c.store[d.system][d.id]) else None
  }

  /** A refreshed snapshot is the record as it is now, and is missing exactly when the alert is gone from its system. */
  lemma RefreshIsCurrent(h: Hub, d: Data)
    requires Agrees(h) && Covers(h) && d.id != "" && d.system != ""
    ensures Refreshed(h.cache, d) == if d.id in h.table && h.table[d.id].system == d.system
            then Some(Cached(d.id, h.table[d.id])) else None
  {
    assert d.system in h.cache.store ==> h.cache.store[d.system] == Filtered(h.table, d.system);
  }

  // ---------------------------------------------------------------- the cache object

  class Store {
    var store: map<Id, map<Id, Data>>
    var populated: bool

    function View(): Cache
      reads this
    {
      Cache(store, populated)
    }

    constructor ()
      ensures View() == Cache(map[], false)
    {
      store, populated := map[], false;
    }

    method Update(id: Id, record: Record)
      modifies this`store
      ensures View() == Updated(old(View()), id, record)
    {
      if record.system == "" {
        return;
      }
      if record.system !in store {
        store := store[record.system := map[]];
      }
      store := store[record.system := store[record.system][id := Cached(id, record)]];
    }

    method Delete(id: Id, record: Record)
      modifies this`store
      ensures View() == Deleted(old(View()), id, record)
    {
      if record.system != "" && record.system in store {
        store := store[record.system := store[record.system] - {id}];
      }
    }

    method PopulateFromDB(table: Table, force: bool, readable: bool) returns (ok: bool)
      modifies this
      ensures ok <==> readable || (old(populated) && !force)
      ensures View() == Next(Hub(table, old(View())), Populate(force, readable)).cache
    {
      if !force && populated {
        return true;
      }
      if !readable {
        return false;
      }
      store := map[];
      var rest := table.Keys;
      ghost var done: Table := map[];
      while rest != {}
        invariant rest <= table.Keys && done == table - rest
        invariant store == Populated(done).store
      {
        var id :| id in rest;
        PopulatedNext(done, id, table[id], Cache(store, populated));
        Update(id, table[id]);
        rest := rest - {id};
        done := done[id := table[id]];
      }
      assert done == table;
      populated := true;
      return true;
    }

    /** The records of a system, read from the table. */
    method LoadSystem(table: Table, system: Id) returns (alerts: map<Id, Data>)
      ensures alerts == Filtered(table, system)
    {
      alerts := map[];
      var rest := set id | id in table && table[id].system == system;
      ghost var all := rest;
      while rest != {}
        invariant rest <= all
        invariant alerts == map id | id in all - rest :: Cached(id, table[id])
      {
        var id :| id in rest;
        alerts := alerts[id := Cached(id, table[id])];
        rest := rest - {id};
      }
    }

    /** The alerts of a system in some order, each once; none when they are not cached and the table cannot be read. */
    method GetSystemAlerts(table: Table, system: Id, readable: bool) returns (alerts: seq<Data>)
      modifies this`store
      ensures View() == Next(Hub(table, old(View())), Get(system, readable)).cache
      ensures system !in store ==> alerts == []
      ensures system in store ==> (set d | d in alerts) == store[system].Values && |alerts| == |store[system]|
    {
      alerts := [];
      if system !in store {
        if !readable {
          return;
        }
        var loaded := LoadSystem(table, system);
        store := store[system := loaded];
      }
      var all := store[system];
      var rest := all.Keys;
      while rest != {}
        invariant rest <= all.Keys
        invariant forall d :: d in alerts <==> exists id :: id in all && id !in rest && all[id] == d
        invariant |alerts| + |rest| == |all|
      {
        var id :| id in rest;
        alerts := alerts + [all[id]];
        rest := rest - {id};
      }
    }

    /** GetAlertsByName, as the status alerts use it. */
    method GetAlertsByName(table: Table, system: Id, name: string, readable: bool) returns (alerts: seq<Data>)
      modifies this`store
      ensures View() == Next(Hub(table, old(View())), Get(system, readable)).cache
      ensures forall d :: d in alerts <==> system in store && d in store[system].Values && d.name == name
    {
      var all := GetSystemAlerts(table, system, readable);
      assert forall d :: d in all <==> system in store && d in store[system].Values by {
        assert forall d :: d in all <==> d in (set e | e in all);
      }
      alerts := [];
      for i := 0 to |all|
        invariant forall d :: d in alerts <==> d in all[..i] && d.name == name
      {
        assert all[..i + 1] == all[..i] + [all[i]];
        if all[i].name == name {
          alerts := alerts + [all[i]];
        }
      }
      assert all[..|all|] == all;
    }
  }

  lemma PopulatedKeys(table: Table, id: Id, r: Record, system: Id)
    requires id !in table
    ensures system in Populated(table[id := r]).store
            <==> system in Populated(table).store || (system == r.system && system != "")
  {
    var more := table[id := r];
    if system in Populated(table).store {
      var i :| i in table && table[i].system != "" && table[i].system == system;
      assert more[i].system == system;
    } else if system == r.system && system != "" {
      assert more[id].system == system;
    }
  }

  lemma FilteredAdd(table: Table, id: Id, r: Record, system: Id)
    requires id !in table
    ensures Filtered(table[id := r], system)
         == if r.system == system then Filtered(table, system)[id := Cached(id, r)] else Filtered(table, system)
    ensures system != "" && system !in Populated(table).store ==> Filtered(table, system) == map[]
  {
    FilteredWrite(table, id, r, system);
    assert Filtered(table, system) - {id} == Filtered(table, system);
  }

  lemma PopulatedAt(table: Table, system: Id)
    ensures system in Populated(table).store ==>
            system != "" && Populated(table).store[system] == Filtered(table, system)
  {
  }

  lemma PopulatedNext(done: Table, id: Id, r: Record, c: Cache)
    requires id !in done && c.store == Populated(done).store
    ensures Updated(c, id, r).store == Populated(done[id := r]).store
  {
    hide Populated, Filtered;
    var after, expected := Updated(c, id, r).store, Populated(done[id := r]).store;
    forall system: Id ensures system in after <==> system in expected {
      PopulatedKeys(done, id, r, system);
    }
    forall system <- expected ensures after[system] == expected[system] {
      PopulatedAt(done, system);
      PopulatedAt(done[id := r], system);
      FilteredAdd(done, id, r, system);
    }
  }
}
