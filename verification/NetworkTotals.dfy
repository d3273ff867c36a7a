/**
Network totals (agent/network.go): every gather sums the counters of the tracked interfaces and compares the sums with
the baseline of its interval. A rate no network has clears every baseline and detects the interfaces anew, and so does a
gather that finds no interface tracked.
 */
module NetworkTotals {
  import opened Arith
  import opened Basics
  import opened Counters

  const NET_LIMIT: int := 10_000_000_000

  datatype Nic = Nic(name: string, sent: Word, recv: Word)

  /** Sums of counters at a time. */
  datatype Base = Base(at: int, sent: Word, recv: Word)

  datatype Report = Report(sent: int, recv: int)

  const NONE := Report(0, 0)

  /**
  One call of updateNetworkStats: its interval, the time, the counters if they could be read, and the interfaces that a
  detection would find before and after them.
   */
  datatype Gather = Gather(key: Key, at: int, io: Option<seq<Nic>>, found: set<string>, again: set<string>)

  datatype Net = Net(interfaces: set<string>, bases: map<Key, Base>)

  /** ensureNetInterfacesInitialized. */
  function Ready(s: Net, g: Gather): Net {
    if s.interfaces == {} then Net(g.found, map[]) else s
  }

  /** The sums over the tracked interfaces, in 64-bit arithmetic. */
  function Total(io: seq<Nic>, interfaces: set<string>, at: int): (x: Base)
    ensures x.at == at
  {
    if io == [] then Base(at, 0, 0)
    else
      var t, v := Total(io[..|io| - 1], interfaces, at), io[|io| - 1];
      if v.name in interfaces then Base(at, (t.sent + v.sent) % WORD, (t.recv + v.recv) % WORD) else t
  }

  /** loadAndTickNetBaseline and computeBytesPerSecond. */
  function Rates(bases: map<Key, Base>, key: Key, x: Base): Report {
    if key in bases && x.at > bases[key].at then
      var elapsed := x.at - bases[key].at;
      Report(Rate(x.sent, bases[key].sent, elapsed), Rate(x.recv, bases[key].recv, elapsed))
    else
      NONE
  }

  predicate Invalid(r: Report) {
    r.sent > NET_LIMIT || r.recv > NET_LIMIT
  }

  /** What a gather compares with its baseline. */
  function Summed(s: Net, g: Gather): Base
    requires g.io.Some?
  {
    Total(g.io.value, Ready(s, g).interfaces, g.at)
  }

  predicate Rejects(s: Net, g: Gather) {
    g.io.Some? && Invalid(Rates(Ready(s, g).bases, g.key, Summed(s, g)))
  }

  function Reported(s: Net, g: Gather): Report {
    if g.io.None? || Rejects(s, g) then NONE else Rates(Ready(s, g).bases, g.key, Summed(s, g))
  }

  function Next(s: Net, g: Gather): Net {
    if g.io.None? then Ready(s, g)
    else if Rejects(s, g) then Net(g.again, map[])
    else Ready(s, g).(bases := Ready(s, g).bases[g.key := Summed(s, g)])
  }

  class Agent {
    var interfaces: set<string>
    var bases: map<Key, Base>

    function View(): Net
      reads this
    {
      Net(interfaces, bases)
    }

    constructor (found: set<string>)
      ensures View() == Net(found, map[])
    {
      interfaces, bases := found, map[];
    }

    /** initializeNetIoStats, given what the detection finds. */
    method Initialize(found: set<string>)
      modifies this
      ensures View() == Net(found, map[])
    {
      interfaces, bases := found, map[];
    }

    /** sumAndTrackPerNicDeltas, the totals. */
    method Sum(io: seq<Nic>, at: int) returns (x: Base)
      ensures x == Total(io, interfaces, at)
    {
      var sent: Word, recv: Word := 0, 0;
      for i := 0 to |io|
        invariant Base(at, sent, recv) == Total(io[..i], interfaces, at)
      {
        assert io[..i + 1][..i] == io[..i];
        if io[i].name in interfaces {
          sent, recv := (sent + io[i].sent) % WORD, (recv + io[i].recv) % WORD;
        }
      }
      assert io[..|io|] == io;
      x := Base(at, sent, recv);
    }

    /** updateNetworkStats. */
    method Update(g: Gather) returns (r: Report)
      requires g.key in bases ==> bases[g.key].at <= g.at
      modifies this
      ensures r == Reported(old(View()), g) && View() == Next(old(View()), g)
    {
      hide Rate, Total;
      if interfaces == {} {
        Initialize(g.found);
      }
      r := NONE;
      if g.io.Some? {
        var x := Sum(g.io.value, g.at);
        var before := if g.key in bases then bases[g.key] else Base(g.at, 0, 0);
        var elapsed := g.at - before.at;
        if elapsed > 0 {
          r := Report(Rate(x.sent, before.sent, elapsed), Rate(x.recv, before.recv, elapsed));
        }
        if r.sent > NET_LIMIT || r.recv > NET_LIMIT {
          Initialize(g.again);
          r := NONE;
        } else {
          bases := bases[g.key := x];
        }
      }
    }
  }

  // ---------------------------------------------------------------- the sums

  /** What the tracked interfaces have sent and received together. */
  function SentBy(io: seq<Nic>, interfaces: set<string>): int {
    if io == [] then 0
    else SentBy(io[..|io| - 1], interfaces) + if io[|io| - 1].name in interfaces then io[|io| - 1].sent else 0
  }

  function ReceivedBy(io: seq<Nic>, interfaces: set<string>): int {
    if io == [] then 0
    else ReceivedBy(io[..|io| - 1], interfaces) + if io[|io| - 1].name in interfaces then io[|io| - 1].recv else 0
  }

  lemma WordAdd(a: int, b: int)
    ensures (a % WORD + b) % WORD == (a + b) % WORD
  {
    assert a == a / WORD * WORD + a % WORD;
    ModShift(a % WORD + b, a / WORD, WORD);
  }

  /** The sums are those of the tracked interfaces and of no other, modulo 2^64. */
  lemma {:induction false} TotalIs(io: seq<Nic>, interfaces: set<string>, at: int)
    ensures Total(io, interfaces, at) == Base(at, SentBy(io, interfaces) % WORD, ReceivedBy(io, interfaces) % WORD)
  {
    if io != [] {
      var init, v := io[..|io| - 1], io[|io| - 1];
      TotalIs(init, interfaces, at);
      WordAdd(SentBy(init, interfaces), v.sent);
      WordAdd(ReceivedBy(init, interfaces), v.recv);
    }
  }

  lemma {:induction false} SumsNonNegative(io: seq<Nic>, interfaces: set<string>)
    ensures SentBy(io, interfaces) >= 0 && ReceivedBy(io, interfaces) >= 0
  {
    if io != [] {
      SumsNonNegative(io[..|io| - 1], interfaces);
    }
  }

  /** Exact: they are the true sums if and only if those fit a word. */
  lemma TotalExactIff(io: seq<Nic>, interfaces: set<string>, at: int)
    ensures var x, sent, received := Total(io, interfaces, at), SentBy(io, interfaces), ReceivedBy(io, interfaces);
            x.sent == sent && x.recv == received <==> sent < WORD && received < WORD
  {
    TotalIs(io, interfaces, at);
    SumsNonNegative(io, interfaces);
  }

  // ---------------------------------------------------------------- one gather

  /** A reset of either counter is never reported, and clears every baseline. */
  lemma ResetNeverReported(s: Net, g: Gather)
    requires g.io.Some? && g.key in Ready(s, g).bases && Ready(s, g).bases[g.key].at < g.at
    requires var b, x := Ready(s, g).bases[g.key], Summed(s, g);
             || Caught(x.sent, b.sent, x.at - b.at, NET_LIMIT)
             || Caught(x.recv, b.recv, x.at - b.at, NET_LIMIT)
    ensures Reported(s, g) == NONE && Next(s, g) == Net(g.again, map[])
  {
    var b, x := Ready(s, g).bases[g.key], Summed(s, g);
    if Caught(x.sent, b.sent, x.at - b.at, NET_LIMIT) {
      DropCaughtIff(x.sent, b.sent, x.at - b.at, NET_LIMIT);
    } else {
      DropCaughtIff(x.recv, b.recv, x.at - b.at, NET_LIMIT);
    }
  }

  /** The gather after a rejected one, for whatever interval, only sets a baseline. */
  lemma NextOnlyRebases(s: Net, g: Gather, h: Gather)
    requires Rejects(s, g) && h.io.Some?
    ensures Reported(Next(s, g), h) == NONE
    ensures Next(Next(s, g), h).bases == map[h.key := Summed(Next(s, g), h)]
  {
  }

  /** The report is the true rate between two sums, rounded down, and within the limit. */
  predicate TrueRate(r: Report, x: Base, y: Base) {
    && y.at < x.at && y.sent <= x.sent && y.recv <= x.recv
    && r.sent == (x.sent - y.sent) * 1000 / (x.at - y.at) <= 10_000_000_000
    && r.recv == (x.recv - y.recv) * 1000 / (x.at - y.at) <= 10_000_000_000
  }

  /** Sums that can follow one another. */
  predicate PlausibleSums(x: Base, y: Base) {
    && y.at <= x.at
    && Plausible(x.sent, y.sent, x.at - y.at, NET_LIMIT) && Plausible(x.recv, y.recv, x.at - y.at, NET_LIMIT)
  }

  lemma ReportTrue(s: Net, g: Gather)
    requires g.io.Some? && g.key in Ready(s, g).bases && PlausibleSums(Summed(s, g), Ready(s, g).bases[g.key])
    ensures Reported(s, g) == NONE || TrueRate(Reported(s, g), Summed(s, g), Ready(s, g).bases[g.key])
  {
    var x, y := Summed(s, g), Ready(s, g).bases[g.key];
    if y.at < x.at {
      if x.sent < y.sent || x.recv < y.recv {
        ResetNeverReported(s, g);
      } else {
        RiseExactIff(x.sent, y.sent, x.at - y.at);
        RiseExactIff(x.recv, y.recv, x.at - y.at);
      }
    }
  }

  // ---------------------------------------------------------------- runs

  function After(start: set<string>, run: seq<Gather>): Net {
    if run == [] then Net(start, map[]) else Next(After(start, run[..|run| - 1]), run[|run| - 1])
  }

  /** The state before gather i. */
  function At(start: set<string>, run: seq<Gather>, i: nat): Net
    requires i <= |run|
  {
    After(start, run[..i])
  }

  function SumsAt(start: set<string>, run: seq<Gather>, i: nat): Base
    requires i < |run| && run[i].io.Some?
  {
    Summed(At(start, run, i), run[i])
  }

  function TrackedAt(start: set<string>, run: seq<Gather>, i: nat): set<string>
    requires i < |run|
  {
    Ready(At(start, run, i), run[i]).interfaces
  }

  predicate Reads(g: Gather, key: Key) {
    g.io.Some? && g.key == key
  }

  /** Gather i detects the interfaces before its sums, because none is tracked. */
  predicate DetectsBefore(start: set<string>, run: seq<Gather>, i: nat)
    requires i < |run|
  {
    At(start, run, i).interfaces == {}
  }

  /** Gather i detects the interfaces after its sums, because it rejects their rates. */
  predicate DetectsAfter(start: set<string>, run: seq<Gather>, i: nat)
    requires i < |run|
  {
    Rejects(At(start, run, i), run[i])
  }

  /** Gather j is the last before n that read counters for the interval. */
  predicate IsLast(run: seq<Gather>, j: nat, n: nat, key: Key)
    requires n <= |run|
  {
    j < n && Reads(run[j], key) && forall k :: j < k < n ==> !Reads(run[k], key)
  }

  /** And no detection came after its sums. */
  predicate Kept(start: set<string>, run: seq<Gather>, j: nat, n: nat, key: Key)
    requires n <= |run|
  {
    && IsLast(run, j, n, key)
    && (forall k :: j <= k < n ==> !DetectsAfter(start, run, k))
    && (forall k :: j < k < n ==> !DetectsBefore(start, run, k))
  }

  lemma OneGather(start: set<string>, run: seq<Gather>, n: nat)
    requires n < |run|
    ensures At(start, run, n + 1) == Next(At(start, run, n), run[n])
  {
    assert run[..n + 1][..n] == run[..n];
  }

  /** The interfaces tracked between gathers: those of the start, or found by the detection after the last rates. */
  function LeftTracked(start: set<string>, run: seq<Gather>, i: nat): set<string>
    requires i <= |run|
  {
    if i == 0 then start
    else if DetectsAfter(start, run, i - 1) then run[i - 1].again
    else TrackedAt(start, run, i - 1)
  }

  /** Exact: in every run a gather first detects interfaces if and only if none is tracked, and then sums over those. */
  lemma InterfacesAre(start: set<string>, run: seq<Gather>, i: nat)
    requires i < |run|
    ensures DetectsBefore(start, run, i) <==> LeftTracked(start, run, i) == {}
    ensures TrackedAt(start, run, i) == if LeftTracked(start, run, i) == {} then run[i].found
                                        else LeftTracked(start, run, i)
    ensures run[i].io.Some? ==>
              var x, tracked := SumsAt(start, run, i), TrackedAt(start, run, i);
              && x.at == run[i].at && x.sent == SentBy(run[i].io.value, tracked) % WORD
              && x.recv == ReceivedBy(run[i].io.value, tracked) % WORD
  {
    hide Summed, Total;
    if i > 0 {
      OneGather(start, run, i - 1);
    } else {
      assert run[..i] == [];
    }
    if run[i].io.Some? {
      SumsTracked(start, run, i);
    }
  }

  lemma SumsTracked(start: set<string>, run: seq<Gather>, i: nat)
    requires i < |run| && run[i].io.Some?
    ensures SumsAt(start, run, i) == Total(run[i].io.value, TrackedAt(start, run, i), run[i].at)
    ensures var tracked := TrackedAt(start, run, i);
            SumsAt(start, run, i) == Base(run[i].at, SentBy(run[i].io.value, tracked) % WORD,
                                          ReceivedBy(run[i].io.value, tracked) % WORD)
  {
    TotalIs(run[i].io.value, TrackedAt(start, run, i), run[i].at);
  }

  /** What is kept is the baseline, and a sum over the interfaces that are still tracked. */
  lemma {:induction false} KeptIsBase(start: set<string>, run: seq<Gather>, j: nat, n: nat, key: Key)
    requires n <= |run| && Kept(start, run, j, n, key)
    ensures key in At(start, run, n).bases && At(start, run, n).bases[key] == SumsAt(start, run, j)
    ensures At(start, run, n).interfaces == TrackedAt(start, run, j)
  {
    hide Summed, After, Rejects;
    OneGather(start, run, n - 1);
    assert !DetectsAfter(start, run, n - 1);
    if j < n - 1 {
      assert !DetectsBefore(start, run, n - 1);
      KeptIsBase(start, run, j, n - 1, key);
    }
  }

  lemma BaseStays(s: Net, g: Gather, key: Key)
    requires key in Next(s, g).bases && !Reads(g, key)
    ensures !Rejects(s, g) && s.interfaces != {} && key in s.bases
  {
    hide Summed, Invalid;
  }

  /** And there is no other baseline. */
  lemma {:induction false} BaseIsKept(start: set<string>, run: seq<Gather>, n: nat, key: Key)
    requires n <= |run| && key in At(start, run, n).bases
    ensures exists j: nat :: Kept(start, run, j, n, key)
  {
    if n == 0 {
      assert false;
    }
    hide After, Next, Rejects, Reads, Ready;
    OneGather(start, run, n - 1);
    if Reads(run[n - 1], key) {
      assert Kept(start, run, n - 1, n, key);
    } else {
      BaseStays(At(start, run, n - 1), run[n - 1], key);
      BaseIsKept(start, run, n - 1, key);
      var j: nat :| Kept(start, run, j, n - 1, key);
      assert Kept(start, run, j, n, key);
    }
  }

  /** Gather j is the one before gather i for its interval, and no detection lies between their sums. */
  predicate Compared(start: set<string>, run: seq<Gather>, j: nat, i: nat)
    requires i < |run|
  {
    run[i].io.Some? && Kept(start, run, j, i, run[i].key) && !DetectsBefore(start, run, i)
  }

  lemma ComparedBase(start: set<string>, run: seq<Gather>, j: nat, i: nat)
    requires i < |run| && Compared(start, run, j, i)
    ensures var bases, key := Ready(At(start, run, i), run[i]).bases, run[i].key;
            key in bases && bases[key] == SumsAt(start, run, j)
    ensures TrackedAt(start, run, i) == TrackedAt(start, run, j)
  {
    KeptIsBase(start, run, j, i, run[i].key);
  }

  /** Sums that are compared can follow one another. */
  ghost predicate PlausibleRun(start: set<string>, run: seq<Gather>) {
    forall i: nat, j: nat :: i < |run| && Compared(start, run, j, i) ==>
      PlausibleSums(SumsAt(start, run, i), SumsAt(start, run, j))
  }

  /**
  Over every plausible run, however long, with any number of resets and of detections, whatever is reported is zero or
  the true rate since the gather before it for its interval, and both sums are over the same interfaces.
   */
  lemma ReportsAreTrue(start: set<string>, run: seq<Gather>, i: nat)
    requires PlausibleRun(start, run) && i < |run|
    ensures var r := Reported(At(start, run, i), run[i]);
            r == NONE || exists j: nat ::
                           && Compared(start, run, j, i) && TrackedAt(start, run, j) == TrackedAt(start, run, i)
                           && TrueRate(r, SumsAt(start, run, i), SumsAt(start, run, j))
  {
    hide Summed, After, Rate, Kept;
    var s, g := At(start, run, i), run[i];
    if g.io.Some? && g.key in Ready(s, g).bases {
      BaseIsKept(start, run, i, g.key);
      var j: nat :| Kept(start, run, j, i, g.key);
      assert Compared(start, run, j, i);
      ComparedBase(start, run, j, i);
      ReportTrue(s, g);
    }
  }

  lemma KeptIsLast(start: set<string>, run: seq<Gather>, j: nat, n: nat, key: Key)
    requires n <= |run| && Kept(start, run, j, n, key)
    ensures IsLast(run, j, n, key)
  {
  }

  lemma LastUnique(run: seq<Gather>, j: nat, k: nat, n: nat, key: Key)
    requires n <= |run| && IsLast(run, j, n, key) && IsLast(run, k, n, key)
    ensures j == k
  {
  }

  /**
  Exact: after a rise within the limit, the true rate since the gather before is reported if no detection lies between
  their sums, and nothing if one does.
   */
  lemma TrueRatesAreReported(start: set<string>, run: seq<Gather>, j: nat, i: nat)
    requires PlausibleRun(start, run) && i < |run| && run[i].io.Some? && IsLast(run, j, i, run[i].key)
    requires var x, y := SumsAt(start, run, i), SumsAt(start, run, j);
             && y.at < x.at && y.sent <= x.sent && y.recv <= x.recv
             && (x.sent - y.sent) * 1000 / (x.at - y.at) <= 10_000_000_000
             && (x.recv - y.recv) * 1000 / (x.at - y.at) <= 10_000_000_000
    ensures var r := Reported(At(start, run, i), run[i]);
            if Compared(start, run, j, i) then TrueRate(r, SumsAt(start, run, i), SumsAt(start, run, j)) else r == NONE
  {
    hide Summed, After, Kept;
    var s, g := At(start, run, i), run[i];
    if Compared(start, run, j, i) {
      var x, y := SumsAt(start, run, i), SumsAt(start, run, j);
      ComparedBase(start, run, j, i);
      RiseExactIff(x.sent, y.sent, x.at - y.at);
      RiseExactIff(x.recv, y.recv, x.at - y.at);
    } else if g.key in Ready(s, g).bases {
      BaseIsKept(start, run, i, g.key);
      var k: nat :| Kept(start, run, k, i, g.key);
      KeptIsLast(start, run, k, i, g.key);
      LastUnique(run, j, k, i, g.key);
    }
  }

  lemma RisesRejected(s: Net, g: Gather)
    requires g.io.Some? && g.key in Ready(s, g).bases && PlausibleSums(Summed(s, g), Ready(s, g).bases[g.key])
    ensures var x, y := Summed(s, g), Ready(s, g).bases[g.key];
            Rejects(s, g) <==> && y.at < x.at
                               && (|| x.sent < y.sent || x.recv < y.recv
                                   || (x.sent - y.sent) * 1000 / (x.at - y.at) > 10_000_000_000
                                   || (x.recv - y.recv) * 1000 / (x.at - y.at) > 10_000_000_000)
  {
    hide Summed;
    var x, y := Summed(s, g), Ready(s, g).bases[g.key];
    if y.at < x.at {
      RateOrDrop(x.sent, y.sent, x.at - y.at);
      RateOrDrop(x.recv, y.recv, x.at - y.at);
    }
  }

  lemma RateOrDrop(now: Word, before: Word, elapsed: int)
    requires elapsed > 0 && Plausible(now, before, elapsed, NET_LIMIT)
    ensures if now < before then Rate(now, before, elapsed) > 10_000_000_000
            else Rate(now, before, elapsed) == (now - before) * 1000 / elapsed
  {
    if now < before {
      DropCaughtIff(now, before, elapsed, NET_LIMIT);
    } else {
      RiseExactIff(now, before, elapsed);
    }
  }

  /** Exact: a gather that is compared is rejected if and only if a counter dropped or a rate is above 10^10. */
  lemma RejectedIff(start: set<string>, run: seq<Gather>, j: nat, i: nat)
    requires PlausibleRun(start, run) && i < |run| && Compared(start, run, j, i)
    ensures var x, y := SumsAt(start, run, i), SumsAt(start, run, j);
            DetectsAfter(start, run, i) <==> && y.at < x.at
                                             && (|| x.sent < y.sent || x.recv < y.recv
                                                 || (x.sent - y.sent) * 1000 / (x.at - y.at) > 10_000_000_000
                                                 || (x.recv - y.recv) * 1000 / (x.at - y.at) > 10_000_000_000)
  {
    hide Summed, After, Kept, Rejects;
    ComparedBase(start, run, j, i);
    RisesRejected(At(start, run, i), run[i]);
  }
}
