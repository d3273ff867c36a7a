/**
What the choice of a disk and the discovery of filesystems (agent/disk.go) come to: which device a name leads to, read
off the devices' own counters and names, and which entry each key ends with, read off the configuration.
 */
module DiskLaws {
  import opened Basics
  import opened Counters
  import opened DiskChoice

  // ---------------------------------------------------------------- which device

  /** a comes before b: at the first place where they differ, a has ended or has the smaller character. */
  predicate DiffersAt(a: string, b: string, i: int) {
    0 <= i < |b| && i <= |a| && a[..i] == b[..i] && (i == |a| || a[i] < b[i])
  }

  ghost predicate Before(a: string, b: string) {
    exists i :: DiffersAt(a, b, i)
  }

  lemma {:induction false} LessIff(a: string, b: string)
    ensures Less(a, b) <==> Before(a, b)
  {
    if b != "" && a != "" {
      LessIff(a[1..], b[1..]);
      if a[0] == b[0] {
        if i :| DiffersAt(a[1..], b[1..], i) {
          assert a[..i + 1] == [a[0]] + a[1..][..i] && b[..i + 1] == [b[0]] + b[1..][..i];
          assert DiffersAt(a, b, i + 1);
        }
        if i :| DiffersAt(a, b, i) {
          assert i > 0 && a[1..][..i - 1] == a[..i][1..] && b[1..][..i - 1] == b[..i][1..];
          assert DiffersAt(a[1..], b[1..], i - 1);
        }
      } else {
        assert a[..0] == b[..0];
        assert a[0] < b[0] ==> DiffersAt(a, b, 0);
        forall i | DiffersAt(a, b, i) ensures i == 0 {
        }
      }
    } else if b != "" {
      assert DiffersAt(a, b, 0);
    }
  }

  /** Both counters of a kind together, in a 64-bit word. */
  function Bytes(d: Device): int {
    (d.readBytes + d.writeBytes) % 0x1_0000_0000_0000_0000
  }

  function Operations(d: Device): int {
    (d.readCount + d.writeCount) % 0x1_0000_0000_0000_0000
  }

  /** c moved more bytes than d, or as many in more operations, or as many in as many and its name is not after d's. */
  ghost predicate IsFirst(c: Device, d: Device) {
    || Bytes(c) > Bytes(d)
    || (Bytes(c) == Bytes(d) && Operations(c) > Operations(d))
    || (Bytes(c) == Bytes(d) && Operations(c) == Operations(d) && (c.name == d.name || Before(c.name, d.name)))
  }

  lemma FirstIff(c: Device, d: Device)
    ensures IsFirst(c, d) <==> CandidateOf(c) == CandidateOf(d) || Beats(CandidateOf(c), CandidateOf(d))
  {
    LessIff(c.name, d.name);
    LessTotal(c.name, d.name);
  }

  /** One of two names is a proper beginning of the other. */
  predicate Extends(a: string, b: string) {
    (0 < |a| < |b| && a == b[..|a|]) || (0 < |b| < |a| && b == a[..|b|])
  }

  predicate IsCalled(d: Device, wanted: string, norm: string -> string) {
    wanted == norm(d.name) || (|d.alias| > 0 && wanted == norm(d.alias))
  }

  predicate IsAkin(d: Device, wanted: string, norm: string -> string) {
    Extends(wanted, norm(d.name)) || (|d.alias| > 0 && Extends(wanted, norm(d.alias)))
  }

  lemma AkinIff(d: Device, wanted: string, norm: string -> string)
    ensures Exact(d, wanted, norm) <==> IsCalled(d, wanted, norm)
    ensures Related(d, wanted, norm) <==> IsAkin(d, wanted, norm)
  {
    PrefixIff(norm(d.name), wanted);
    PrefixIff(norm(d.alias), wanted);
  }

  lemma PrefixIff(a: string, b: string)
    ensures PrefixRelated(a, b) <==> Extends(b, a)
  {
    if PrefixRelated(a, b) {
      assert a <= b ==> a == b[..|a|];
      assert b <= a ==> b == a[..|b|];
    }
  }

  /** The device under a key is akin to the name, and none akin to it comes before it. */
  ghost predicate IsClosest(devices: Devices, k: string, wanted: string, norm: string -> string) {
    && k in devices && IsAkin(devices[k], wanted, norm)
    && forall j <- devices :: IsAkin(devices[j], wanted, norm) ==> IsFirst(devices[k], devices[j])
  }

  lemma BestIsClosest(devices: Devices, wanted: string, norm: string -> string, c: Candidate) returns (k: string)
    requires IsBest(Candidates(devices, RelatedKeys(devices, devices.Keys, wanted, norm)), c)
    ensures IsClosest(devices, k, wanted, norm) && devices[k].name == c.name
  {
    hide Exact, Related, IsAkin, IsFirst, Beats;
    var related := RelatedKeys(devices, devices.Keys, wanted, norm);
    k :| k in related && CandidateOf(devices[k]) == c;
    AkinIff(devices[k], wanted, norm);
    forall j <- devices | IsAkin(devices[j], wanted, norm) ensures IsFirst(devices[k], devices[j]) {
      AkinIff(devices[j], wanted, norm);
      assert j in related && CandidateOf(devices[j]) in Candidates(devices, related);
      FirstIff(devices[k], devices[j]);
    }
  }

  /**
  Whatever the order: an empty name leads nowhere; a name some device is called by, to such a device; and any other, to
  the first in activity of the devices akin to it, or nowhere if there are none.
   */
  lemma SearchIs(order: seq<string>, devices: Devices, wanted: string, norm: string -> string)
    requires IsOrder(order, devices.Keys)
    ensures var r := Search(order, devices, wanted, norm);
            if wanted == "" then r == None
            else if exists k <- devices :: IsCalled(devices[k], wanted, norm) then
              r.Some? && exists k <- devices :: IsCalled(devices[k], wanted, norm) && devices[k].name == r.value
            else if exists k <- devices :: IsAkin(devices[k], wanted, norm) then
              r.Some? && exists k :: IsClosest(devices, k, wanted, norm) && devices[k].name == r.value
            else r == None
  {
    hide Search, Exact, Related, IsCalled, IsAkin, IsClosest;
    SearchAnswers(order, devices, wanted, norm);
    forall k <- devices
      ensures Exact(devices[k], wanted, norm) <==> IsCalled(devices[k], wanted, norm)
      ensures Related(devices[k], wanted, norm) <==> IsAkin(devices[k], wanted, norm)
    {
      AkinIff(devices[k], wanted, norm);
    }
    var related := RelatedKeys(devices, devices.Keys, wanted, norm);
    var cs := Candidates(devices, related);
    assert cs == {} <==> related == {} by {
      forall k <- related ensures CandidateOf(devices[k]) in cs {
      }
    }
    if wanted != "" && !(exists k <- devices :: IsCalled(devices[k], wanted, norm)) && cs != {} {
      var c :| c in cs && IsBest(cs, c) && Some(c.name) == Search(order, devices, wanted, norm);
      var k := BestIsClosest(devices, wanted, norm, c);
      var j :| j in related;
      assert IsAkin(devices[j], wanted, norm);
    }
  }

  /** Among devices that all have names, the most active one is first in activity, whatever the order. */
  lemma MostActiveIsFirst(order: seq<string>, devices: Devices)
    requires IsOrder(order, devices.Keys) && devices != map[] && forall k <- devices :: devices[k].name != ""
    ensures exists k <- devices :: devices[k].name == MostActiveIn(order, devices).name
                                   && forall j <- devices :: IsFirst(devices[k], devices[j])
  {
    hide MostActiveIn, IsFirst, Beats;
    AllNamed(devices, order);
    var c := MostActiveIn(order, devices);
    var k :| k in devices && CandidateOf(devices[k]) == c;
    forall j <- devices ensures IsFirst(devices[k], devices[j]) {
      assert CandidateOf(devices[j]) in Candidates(devices, devices.Keys);
      FirstIff(devices[k], devices[j]);
    }
  }

  // ---------------------------------------------------------------- which entries

  /** What discovery is given. */
  datatype Config = Config(setting: RootSetting, rootMount: string, extras: seq<Entry>, partitions: seq<Partition>,
                           folders: seq<Entry>, lastResort: string)

  predicate Has(fs: FsStats, k: string, f: Fs) {
    k in fs && fs[k] == f
  }

  /** The setting's own entry. */
  predicate FromSetting(c: Config, k: string, f: Fs) {
    match c.setting
    case ByPartition(e) => k == e.key && f == Fs(true, e.mount)
    case ByDevice(key) => k == key && f == Fs(true, c.rootMount)
    case Nowhere => false
  }

  predicate InSetting(c: Config, k: string) {
    (c.setting.ByPartition? && c.setting.entry.key == k) || (c.setting.ByDevice? && c.setting.key == k)
  }

  /** Entry i is the first for its key. */
  predicate Leads(entries: seq<Entry>, i: int, k: string) {
    0 <= i < |entries| && entries[i].key == k && forall j :: 0 <= j < i ==> entries[j].key != k
  }

  ghost predicate FromExtras(entries: seq<Entry>, k: string, f: Fs) {
    exists i :: Leads(entries, i, k) && f == Fs(false, entries[i].mount)
  }

  predicate InExtras(entries: seq<Entry>, k: string) {
    exists i :: 0 <= i < |entries| && entries[i].key == k
  }

  /** Partition i is taken for root: none is known, and it is the first that can be. */
  predicate TakesRoot(ps: seq<Partition>, known: bool, i: int) {
    && !known && 0 <= i < |ps| && ps[i].looksLikeRoot && ps[i].rootKey.Some?
    && forall j :: 0 <= j < i ==> !(ps[j].looksLikeRoot && ps[j].rootKey.Some?)
  }

  /** Partition i registers the key. */
  predicate Gives(ps: seq<Partition>, known: bool, i: int, k: string) {
    0 <= i < |ps| && (ps[i].extra == Some(k) || (TakesRoot(ps, known, i) && ps[i].rootKey == Some(k)))
  }

  predicate GivesFirst(ps: seq<Partition>, known: bool, i: int, k: string) {
    Gives(ps, known, i, k) && forall j :: 0 <= j < i ==> !Gives(ps, known, j, k)
  }

  ghost predicate FromPartitions(ps: seq<Partition>, known: bool, k: string, f: Fs) {
    exists i :: GivesFirst(ps, known, i, k)
                && f == Fs(TakesRoot(ps, known, i) && ps[i].rootKey == Some(k), ps[i].mount)
  }

  predicate InPartitions(ps: seq<Partition>, known: bool, k: string) {
    exists i :: 0 <= i < |ps| && Gives(ps, known, i, k)
  }

  /** The entries of the setting, the extra filesystems and the partitions, the earliest of which counts. */
  ghost predicate Listed(c: Config, k: string, f: Fs) {
    var known := !c.setting.Nowhere?;
    || FromSetting(c, k, f)
    || (!InSetting(c, k) && FromExtras(c.extras, k, f))
    || (!InSetting(c, k) && !InExtras(c.extras, k) && FromPartitions(c.partitions, known, k, f))
  }

  predicate IsListed(c: Config, k: string) {
    InSetting(c, k) || InExtras(c.extras, k) || InPartitions(c.partitions, !c.setting.Nowhere?, k)
  }

  ghost predicate IsMounted(c: Config, mount: string) {
    exists k, f: Fs :: Listed(c, k, f) && f.mount == mount
  }

  /** Folder i is the first for its key among those on mountpoints that have no entry yet. */
  ghost predicate FolderLeads(c: Config, i: int, k: string) {
    && 0 <= i < |c.folders| && c.folders[i].key == k && !IsMounted(c, c.folders[i].mount)
    && forall j :: 0 <= j < i ==> c.folders[j].key != k || IsMounted(c, c.folders[j].mount)
  }

  /** Nothing is known or taken to be root. */
  predicate Unrooted(c: Config) {
    c.setting.Nowhere? && forall i :: 0 <= i < |c.partitions| ==> !TakesRoot(c.partitions, false, i)
  }

  ghost predicate Expected(c: Config, k: string, f: Fs) {
    if Unrooted(c) && k == c.lastResort then f == Fs(true, c.rootMount)
    else
      || Listed(c, k, f)
      || (!IsListed(c, k) && exists i :: FolderLeads(c, i, k) && f == Fs(false, c.folders[i].mount))
  }

  // ---------------------------------------------------------------- extras

  lemma {:induction false} ExtrasAre(fs: FsStats, entries: seq<Entry>, k: string, f: Fs)
    ensures k in WithExtras(fs, entries) <==> k in fs || InExtras(entries, k)
    ensures Has(WithExtras(fs, entries), k, f) <==> Has(fs, k, f) || (k !in fs && FromExtras(entries, k, f))
  {
    if entries != [] {
      var n := |entries| - 1;
      var init, e := entries[..n], entries[n];
      ExtrasAre(fs, init, k, f);
      ExtrasInit(entries, k, f);
    }
  }

  lemma ExtrasInit(entries: seq<Entry>, k: string, f: Fs)
    requires entries != []
    ensures var n := |entries| - 1;
            && (InExtras(entries, k) <==> InExtras(entries[..n], k) || entries[n].key == k)
            && (FromExtras(entries, k, f)
                <==> || FromExtras(entries[..n], k, f)
                     || (!InExtras(entries[..n], k) && entries[n].key == k && f == Fs(false, entries[n].mount)))
  {
    var n := |entries| - 1;
    var init := entries[..n];
    assert forall i :: 0 <= i < n ==> init[i] == entries[i];
    if InExtras(init, k) {
      var i :| 0 <= i < |init| && init[i].key == k;
      assert entries[i].key == k;
    }
    forall i | 0 <= i < n ensures Leads(entries, i, k) <==> Leads(init, i, k) {
    }
    if FromExtras(init, k, f) {
      var i :| Leads(init, i, k) && f == Fs(false, init[i].mount);
      assert Leads(entries, i, k);
    }
    if !InExtras(init, k) && entries[n].key == k {
      assert Leads(entries, n, k);
    }
  }

  // ---------------------------------------------------------------- partitions

  lemma TakesInit(ps: seq<Partition>, known: bool, i: int)
    requires 0 <= i < |ps| - 1
    ensures TakesRoot(ps[..|ps| - 1], known, i) <==> TakesRoot(ps, known, i)
  {
    var init := ps[..|ps| - 1];
    assert forall j :: 0 <= j < |init| ==> init[j] == ps[j];
  }

  lemma GivesInit(ps: seq<Partition>, known: bool, i: int, k: string)
    requires 0 <= i < |ps| - 1
    ensures Gives(ps[..|ps| - 1], known, i, k) <==> Gives(ps, known, i, k)
  {
    hide TakesRoot;
    TakesInit(ps, known, i);
  }

  lemma FirstInit(ps: seq<Partition>, known: bool, i: int, k: string)
    requires 0 <= i < |ps| - 1
    ensures GivesFirst(ps[..|ps| - 1], known, i, k) <==> GivesFirst(ps, known, i, k)
  {
    hide Gives;
    var init := ps[..|ps| - 1];
    GivesInit(ps, known, i, k);
    if GivesFirst(init, known, i, k) {
      forall j | 0 <= j < i ensures !Gives(ps, known, j, k) {
        GivesInit(ps, known, j, k);
      }
    }
    if GivesFirst(ps, known, i, k) {
      forall j | 0 <= j < i ensures !Gives(init, known, j, k) {
        GivesInit(ps, known, j, k);
      }
    }
  }

  lemma {:induction false} RootIsTaken(fs: FsStats, known: bool, ps: seq<Partition>)
    ensures WithPartitions(fs, known, ps).1 <==> known || exists i :: TakesRoot(ps, known, i)
    ensures !WithPartitions(fs, known, ps).1 ==>
              forall j :: 0 <= j < |ps| ==> !(ps[j].looksLikeRoot && ps[j].rootKey.Some?)
  {
    if ps != [] {
      var n := |ps| - 1;
      var init := ps[..n];
      RootIsTaken(fs, known, init);
      if i :| TakesRoot(init, known, i) {
        TakesInit(ps, known, i);
        assert TakesRoot(ps, known, i);
      }
      assert forall j :: 0 <= j < n ==> init[j] == ps[j];
      assert WithPartitions(fs, known, ps).1 && !WithPartitions(fs, known, init).1 ==> TakesRoot(ps, known, n);
    }
  }

  /** The last partition is taken for root if and only if the ones before it left that open. */
  lemma LastTakesRoot(fs: FsStats, known: bool, ps: seq<Partition>)
    requires ps != []
    ensures var n := |ps| - 1;
            TakesRoot(ps, known, n)
            <==> !WithPartitions(fs, known, ps[..n]).1 && ps[n].looksLikeRoot && ps[n].rootKey.Some?
  {
    var n := |ps| - 1;
    var init := ps[..n];
    RootIsTaken(fs, known, init);
    assert forall j :: 0 <= j < n ==> init[j] == ps[j];
    if i :| TakesRoot(init, known, i) {
      assert ps[i].looksLikeRoot && ps[i].rootKey.Some?;
    }
  }

  lemma {:induction false} PartitionsAre(fs: FsStats, known: bool, ps: seq<Partition>, k: string, f: Fs)
    ensures k in WithPartitions(fs, known, ps).0 <==> k in fs || InPartitions(ps, known, k)
    ensures Has(WithPartitions(fs, known, ps).0, k, f)
            <==> Has(fs, k, f) || (k !in fs && FromPartitions(ps, known, k, f))
  {
    hide TakesRoot, FromPartitions, InPartitions;
    if ps == [] {
      NoPartitions(known, k, f);
    } else {
      var n := |ps| - 1;
      PartitionsAre(fs, known, ps[..n], k, f);
      PartitionsInit(ps, known, k, f);
      LastTakesRoot(fs, known, ps);
    }
  }

  lemma NoPartitions(known: bool, k: string, f: Fs)
    ensures !InPartitions([], known, k) && !FromPartitions([], known, k, f)
  {
  }

  lemma PartitionsInit(ps: seq<Partition>, known: bool, k: string, f: Fs)
    requires ps != []
    ensures var n := |ps| - 1;
            && (InPartitions(ps, known, k) <==> InPartitions(ps[..n], known, k) || Gives(ps, known, n, k))
            && (FromPartitions(ps, known, k, f)
                <==> || FromPartitions(ps[..n], known, k, f)
                     || (!InPartitions(ps[..n], known, k) && Gives(ps, known, n, k)
                         && f == Fs(TakesRoot(ps, known, n) && ps[n].rootKey == Some(k), ps[n].mount)))
  {
    hide TakesRoot, Gives;
    var n := |ps| - 1;
    var init := ps[..n];
    forall i | 0 <= i < n
      ensures Gives(init, known, i, k) <==> Gives(ps, known, i, k)
      ensures GivesFirst(init, known, i, k) <==> GivesFirst(ps, known, i, k)
      ensures TakesRoot(init, known, i) <==> TakesRoot(ps, known, i)
    {
      GivesInit(ps, known, i, k);
      FirstInit(ps, known, i, k);
      TakesInit(ps, known, i);
    }
    InRange(init, known, k);
    InRange(ps, known, k);
    if InPartitions(init, known, k) {
      var i :| 0 <= i < |init| && Gives(init, known, i, k);
      assert Gives(ps, known, i, k);
    }
    if FromPartitions(init, known, k, f) {
      var i :| GivesFirst(init, known, i, k)
               && f == Fs(TakesRoot(init, known, i) && init[i].rootKey == Some(k), init[i].mount);
      assert GivesFirst(ps, known, i, k);
    }
    if !InPartitions(init, known, k) && Gives(ps, known, n, k) {
      assert GivesFirst(ps, known, n, k);
    }
  }

  lemma InRange(ps: seq<Partition>, known: bool, k: string)
    ensures forall i :: Gives(ps, known, i, k) ==> 0 <= i < |ps|
    ensures forall i :: GivesFirst(ps, known, i, k) ==> 0 <= i < |ps|
  {
  }

  // ---------------------------------------------------------------- folders

  /** Folder i is the first for its key outside the given mountpoints. */
  predicate LeadsOutside(folders: seq<Entry>, mounts: set<string>, i: int, k: string) {
    && 0 <= i < |folders| && folders[i].key == k && folders[i].mount !in mounts
    && forall j :: 0 <= j < i ==> folders[j].key != k || folders[j].mount in mounts
  }

  lemma {:induction false} FoldersAre(fs: FsStats, folders: seq<Entry>, mounts: set<string>, k: string, f: Fs)
    ensures k in WithFolders(fs, folders, mounts) <==> k in fs || exists i :: LeadsOutside(folders, mounts, i, k)
    ensures Has(WithFolders(fs, folders, mounts), k, f)
            <==> || Has(fs, k, f)
                 || (k !in fs && exists i :: LeadsOutside(folders, mounts, i, k)
                                             && f == Fs(false, folders[i].mount))
  {
    if folders != [] {
      var n := |folders| - 1;
      var init, e := folders[..n], folders[n];
      FoldersAre(fs, init, mounts, k, f);
      assert forall i :: 0 <= i < n ==> init[i] == folders[i];
      forall i | 0 <= i < n ensures LeadsOutside(folders, mounts, i, k) <==> LeadsOutside(init, mounts, i, k) {
      }
      FirstOutside(init, mounts, k);
      if e.key == k && e.mount !in mounts && !(exists i :: LeadsOutside(init, mounts, i, k)) {
        assert LeadsOutside(folders, mounts, n, k);
      }
      if i :| LeadsOutside(init, mounts, i, k) {
        assert LeadsOutside(folders, mounts, i, k);
      }
    }
  }

  lemma {:induction false} FirstOutside(folders: seq<Entry>, mounts: set<string>, k: string)
    ensures (exists i :: LeadsOutside(folders, mounts, i, k))
            || forall j :: 0 <= j < |folders| ==> folders[j].key != k || folders[j].mount in mounts
  {
    if folders != [] {
      var n := |folders| - 1;
      var init := folders[..n];
      FirstOutside(init, mounts, k);
      assert forall i :: 0 <= i < n ==> init[i] == folders[i];
      if i :| LeadsOutside(init, mounts, i, k) {
        assert LeadsOutside(folders, mounts, i, k);
      } else if folders[n].key == k && folders[n].mount !in mounts {
        assert LeadsOutside(folders, mounts, n, k);
      }
    }
  }

  // ---------------------------------------------------------------- together

  /** What the setting, the extra filesystems and the partitions register. */
  function First(c: Config): FsStats {
    WithPartitions(WithExtras(WithSetting(c.setting, c.rootMount), c.extras), !c.setting.Nowhere?, c.partitions).0
  }

  lemma ListedIs(c: Config, k: string, f: Fs)
    ensures k in First(c) <==> IsListed(c, k)
    ensures Has(First(c), k, f) <==> Listed(c, k, f)
  {
    hide WithExtras, WithPartitions, FromExtras, FromPartitions, InExtras, InPartitions;
    var start := WithSetting(c.setting, c.rootMount);
    ExtrasAre(start, c.extras, k, f);
    PartitionsAre(WithExtras(start, c.extras), !c.setting.Nowhere?, c.partitions, k, f);
  }

  lemma MountedIs(c: Config, mount: string)
    ensures mount in Mounts(First(c)) <==> IsMounted(c, mount)
  {
    hide First, Listed;
    if mount in Mounts(First(c)) {
      var k :| k in First(c) && First(c)[k].mount == mount;
      ListedIs(c, k, First(c)[k]);
    }
    if IsMounted(c, mount) {
      var k, f :| Listed(c, k, f) && f.mount == mount;
      ListedIs(c, k, f);
    }
  }

  lemma LeadIff(c: Config, i: int, k: string)
    ensures LeadsOutside(c.folders, Mounts(First(c)), i, k) <==> FolderLeads(c, i, k)
  {
    hide First, Mounts, IsMounted;
    forall j | 0 <= j < |c.folders| ensures c.folders[j].mount in Mounts(First(c)) <==> IsMounted(c, c.folders[j].mount)
    {
      MountedIs(c, c.folders[j].mount);
    }
  }

  lemma UnrootedIff(c: Config)
    ensures Unrooted(c)
            <==> !WithPartitions(WithExtras(WithSetting(c.setting, c.rootMount), c.extras), !c.setting.Nowhere?,
                                 c.partitions).1
  {
    hide WithExtras;
    RootIsTaken(WithExtras(WithSetting(c.setting, c.rootMount), c.extras), !c.setting.Nowhere?, c.partitions);
  }

  function AllRegistered(c: Config): FsStats {
    Registered(c.setting, c.rootMount, c.extras, c.partitions, c.folders, c.lastResort)
  }

  /**
  Exact: each key is registered with the entry that the first to name it gives it, in the order setting, extra
  filesystems, partitions and folders; only the first partition that can be is taken for root, and only without a
  setting; folders on mountpoints that have an entry are passed over; and the last resort, if there is still no root,
  replaces what is there.
   */
  lemma RegisteredIs(c: Config, k: string, f: Fs)
    ensures Has(AllRegistered(c), k, f) <==> Expected(c, k, f)
  {
    hide WithExtras, WithPartitions, WithFolders, Mounts, Listed, IsListed, FolderLeads, LeadsOutside, Unrooted;
    var fs := First(c);
    ListedIs(c, k, f);
    UnrootedIff(c);
    FoldersAre(fs, c.folders, Mounts(fs), k, f);
    forall i ensures LeadsOutside(c.folders, Mounts(fs), i, k) <==> FolderLeads(c, i, k) {
      LeadIff(c, i, k);
    }
    RangeOf(c, Mounts(fs), k);
  }

  lemma RangeOf(c: Config, mounts: set<string>, k: string)
    ensures forall i :: LeadsOutside(c.folders, mounts, i, k) ==> 0 <= i < |c.folders|
    ensures forall i :: FolderLeads(c, i, k) ==> 0 <= i < |c.folders|
  {
  }

  // ---------------------------------------------------------------- duplicates of root

  /** The filesystem has root's size and usage, to within 16 MiB. */
  predicate IsDuplicate(root: Option<Usage>, u: Option<Usage>) {
    && root.Some? && u.Some? && root.value.total > 0 && u.value.total > 0
    && -16 * 1024 * 1024 <= root.value.total - u.value.total <= 16 * 1024 * 1024
    && -16 * 1024 * 1024 <= root.value.used - u.value.used <= 16 * 1024 * 1024
  }

  predicate HasMountedRoot(fs: FsStats) {
    exists k <- fs :: fs[k].root && fs[k].mount != ""
  }

  /**
  Exact: of what is registered, discovery drops the filesystems other than root that have root's usage, if root's
  mountpoint is known, and nothing else.
   */
  lemma DiscoveredIs(c: Config, usages: Usages, k: string, f: Fs)
    ensures var fs := AllRegistered(c);
            Has(Discovered(c.setting, c.rootMount, c.extras, c.partitions, c.folders, c.lastResort, usages), k, f)
            <==> && Expected(c, k, f)
                 && !(HasMountedRoot(fs) && !f.root
                      && IsDuplicate(usages.root, if k in usages.entries then Some(usages.entries[k]) else None))
  {
    hide Registered, Expected;
    RegisteredIs(c, k, f);
  }
}
