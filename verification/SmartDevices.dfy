/**
mergeDeviceLists as it runs (agent/smart.go): index maps of records, fresh copies updated in place. It is proved to give
the list SmartMerge defines, made of new records only, and to leave every record it was given as it was.
 */
module SmartDevices {
  import opened Basics
  import opened SmartMerge

  class Device {
    var name: string
    var typ: string
    var infoName: string
    var protocol: string
    var verified: bool
    var parser: string

    function Value(): Info
      reads this
    {
      Info(name, typ, infoName, protocol, verified, parser)
    }

    constructor Copy(d: Device)
      ensures Value() == d.Value()
    {
      name, typ, infoName, protocol, verified, parser := d.name, d.typ, d.infoName, d.protocol, d.verified, d.parser;
    }

    /** preserveVerifiedType */
    method Preserve(prev: Device)
      modifies this
      ensures Value() == Preserved(old(Value()), Some(old(prev.Value())))
    {
      if prev.verified {
        typ, verified, parser := prev.typ, true, prev.parser;
      }
    }

    /** applyConfiguredMetadata */
    method Override(c: Device)
      modifies this
      ensures Value() == Overridden(old(Value()), old(c.Value()))
    {
      var info, proto := c.infoName, c.protocol;
      if c.typ != "" && !verified {
        var newType := Trim(c.typ);
        typ, verified, parser := newType, false, NormalizeParserType(newType);
      }
      if info != "" {
        infoName := info;
      }
      if proto != "" {
        protocol := proto;
      }
    }
  }

  function ValueOf(d: Device?): Option<Info>
    reads d
  {
    if d == null then None else Some(d.Value())
  }

  function Values(devices: seq<Device?>): (r: seq<Option<Info>>)
    reads devices
    ensures |r| == |devices| && forall i :: 0 <= i < |devices| ==> r[i] == ValueOf(devices[i])
  {
    if devices == [] then [] else Values(devices[..|devices| - 1]) + [ValueOf(devices[|devices| - 1])]
  }

  ghost function SlotsOf(devices: seq<Device?>): seq<Slot>
    reads devices
  {
    Slots(Named(Values(devices)))
  }

  lemma SlotsOfNext(devices: seq<Device?>, i: nat)
    requires i < |devices|
    ensures SlotsOf(devices[..i + 1]) == SlotsOf(devices[..i])
            + if devices[i] != null && devices[i].name != "" then [SlotOf(devices[i].Value())] else []
  {
    assert devices[..i + 1][..i] == devices[..i];
    var vs := Values(devices[..i + 1]);
    assert vs[..i] == Values(devices[..i]);
    if devices[i] != null && devices[i].name != "" {
      var ns := Named(vs);
      assert ns[..|ns| - 1] == Named(vs[..i]) && ns[|ns| - 1] == devices[i].Value();
    } else {
      assert Named(vs) == Named(vs[..i]);
      assert SlotsOf(devices[..i]) + [] == SlotsOf(devices[..i]);
    }
  }

  lemma LookupAppend(slots: seq<Slot>, s: Slot)
    ensures forall key: Key :: LastWith(slots + [s], key) == if s.key == key then Some(|slots|)
            else LastWith(slots, key)
    ensures forall name: string ::
              NameCount(slots + [s], name) == NameCount(slots, name) + if s.key.0 == name then 1 else 0
    ensures forall name: string :: LastNamed(slots + [s], name) == if s.key.0 == name then Some(|slots|)
            else LastNamed(slots, name)
  {
    assert (slots + [s])[..|slots|] == slots;
  }

  /** The index by name and type. */
  method IndexByKey(devices: seq<Device?>) returns (index: map<Key, Device>)
    ensures KeyIndex(index, SlotsOf(devices))
  {
    hide Named, Slots, SlotsOf;
    index := map[];
    ghost var slots: seq<Slot> := [];
    NoSlots();
    for i := 0 to |devices|
      invariant slots == SlotsOf(devices[..i])
      invariant forall key: Key :: key in index <==> LastWith(slots, key).Some?
      invariant forall key <- index :: index[key].Value() == slots[LastWith(slots, key).value].info
    {
      var dev := devices[i];
      SlotsOfNext(devices, i);
      if dev == null || dev.name == "" {
        assert slots + [] == slots;
        continue;
      }
      LookupAppend(slots, SlotOf(dev.Value()));
      index := index[(dev.name, dev.typ) := dev];
      slots := slots + [SlotOf(dev.Value())];
    }
    assert devices[..|devices|] == devices;
  }

  lemma NoneCounted()
    ensures forall name: string :: NameCount([], name) == 0 && LastNamed([], name) == None
  {
  }

  lemma NoSlots()
    ensures SlotsOf([]) == []
  {
  }

  /** buildUniqueNameIndex: count the names, then keep the devices whose name was counted once. */
  method UniqueByName(devices: seq<Device?>) returns (unique: map<string, Device>)
    ensures NameIndex(unique, SlotsOf(devices))
    ensures forall name <- unique :: unique[name] in devices && unique[name].name == name
  {
    hide Named, Values, Slots, SlotsOf, NameCount, LastNamed;
    NoneCounted();
    var counts: map<string, nat> := map[];
    ghost var slots: seq<Slot> := [];
    NoSlots();
    for i := 0 to |devices|
      invariant slots == SlotsOf(devices[..i])
      invariant forall name: string :: (if name in counts then counts[name] else 0) == NameCount(slots, name)
    {
      var dev := devices[i];
      SlotsOfNext(devices, i);
      if dev == null || dev.name == "" {
        assert slots + [] == slots;
        continue;
      }
      LookupAppend(slots, SlotOf(dev.Value()));
      counts := counts[dev.name := (if dev.name in counts then counts[dev.name] else 0) + 1];
      slots := slots + [SlotOf(dev.Value())];
    }
    assert devices[..|devices|] == devices;
    ghost var all := slots;
    unique := map[];
    slots := [];
    for i := 0 to |devices|
      invariant slots == SlotsOf(devices[..i])
      invariant forall name: string :: name in unique <==> LastNamed(slots, name).Some? && NameCount(all, name) == 1
      invariant forall name <- unique :: unique[name] in devices && unique[name].name == name
      invariant forall name <- unique :: unique[name].Value() == slots[LastNamed(slots, name).value].info
    {
      var dev := devices[i];
      SlotsOfNext(devices, i);
      if dev == null || dev.name == "" {
        assert slots + [] == slots;
        continue;
      }
      LookupAppend(slots, SlotOf(dev.Value()));
      if (if dev.name in counts then counts[dev.name] else 0) == 1 {
        unique := unique[dev.name := dev];
      }
      slots := slots + [SlotOf(dev.Value())];
    }
    assert devices[..|devices|] == devices;
  }

  /** The records of a list under construction are new, distinct and hold the slots' values. */
  ghost predicate Holds(final: seq<Device>, slots: seq<Slot>)
    reads final
  {
    && |final| == |slots|
    && (forall i :: 0 <= i < |final| ==> final[i].Value() == slots[i].info)
    && (forall i, j :: 0 <= i < j < |final| ==> final[i] != final[j])
  }

  /** The index leads from a key to its last record. */
  ghost predicate Indexes(index: map<Key, Device>, final: seq<Device>, slots: seq<Slot>)
    requires |final| == |slots|
  {
    && (forall key: Key :: key in index <==> LastWith(slots, key).Some?)
    && (forall key <- index :: index[key] == final[LastWith(slots, key).value])
  }

  lemma IndexesAppend(index: map<Key, Device>, final: seq<Device>, slots: seq<Slot>, d: Device, s: Slot)
    requires |final| == |slots| && Indexes(index, final, slots)
    ensures Indexes(index[s.key := d], final + [d], slots + [s])
  {
    LookupAppend(slots, s);
  }

  ghost predicate KeyIndex(byKey: map<Key, Device>, existing: seq<Slot>)
    reads byKey.Values
  {
    && (forall key: Key :: key in byKey <==> LastWith(existing, key).Some?)
    && (forall key <- byKey :: byKey[key].Value() == existing[LastWith(existing, key).value].info)
  }

  ghost predicate NameIndex(byName: map<string, Device>, existing: seq<Slot>)
    reads byName.Values
  {
    && (forall name: string :: name in byName <==> OnlyNamed(existing, name).Some?)
    && (forall name <- byName :: byName[name].Value() == existing[OnlyNamed(existing, name).value].info)
  }

  lemma NamedNext(devices: seq<Device?>, i: nat)
    requires i < |devices|
    ensures Named(Values(devices[..i + 1])) == Named(Values(devices[..i]))
            + if devices[i] != null && devices[i].name != "" then [devices[i].Value()] else []
  {
    assert devices[..i + 1][..i] == devices[..i];
    assert Values(devices[..i + 1])[..i] == Values(devices[..i]);
  }

  lemma ScannedNext(existing: seq<Slot>, scanned: seq<Info>, d: Info)
    ensures Scanned(existing, scanned + [d])
            == Scanned(existing, scanned) + [SlotOf(Preserved(d, Earlier(existing, d)))]
  {
    assert (scanned + [d])[..|scanned|] == scanned;
  }

  lemma ConfiguredNext(existing: seq<Slot>, slots: seq<Slot>, n: nat, configured: seq<Info>, c: Info)
    requires n <= |slots|
    ensures Configured(existing, slots, n, configured + [c])
         == ConfiguredOne(existing, Configured(existing, slots, n, configured), n, c)
  {
    assert (configured + [c])[..|configured|] == configured;
  }

  lemma HoldsAppend(final: seq<Device>, slots: seq<Slot>, d: Device, s: Slot)
    requires Holds(final, slots) && d !in final && d.Value() == s.info
    ensures Holds(final + [d], slots + [s])
  {
  }

  /** A copy of a device, with what its earlier record had verified: found by key, else by unique name. */
  method CopyPreserved(d: Device, byKey: map<Key, Device>, byName: map<string, Device>, ghost existing: seq<Slot>)
    returns (copy: Device, found: bool)
    requires KeyIndex(byKey, existing) && NameIndex(byName, existing)
    ensures fresh(copy) && copy.Value() == Preserved(d.Value(), Earlier(existing, d.Value()))
    ensures found <==> Earlier(existing, d.Value()).Some?
  {
    hide LastWith, OnlyNamed;
    found := true;
    copy := new Device.Copy(d);
    var key := (copy.name, copy.typ);
    if key in byKey {
      copy.Preserve(byKey[key]);
    } else if copy.name in byName {
      copy.Preserve(byName[copy.name]);
    } else {
      found := false;
    }
  }

  /** The first loop: fresh copies of the scanned devices, in order. */
  method CopyScanned(scanned: seq<Device?>, byKey: map<Key, Device>, byName: map<string, Device>,
                     ghost existing: seq<Slot>)
    returns (final: seq<Device>, index: map<Key, Device>)
    requires KeyIndex(byKey, existing) && NameIndex(byName, existing)
    ensures var slots := Scanned(existing, Named(Values(scanned))); Holds(final, slots) && Indexes(index, final, slots)
    ensures fresh(final)
  {
    hide Named, Values, Scanned, Earlier, Preserved, KeyIndex, NameIndex, Indexes;
    final, index := [], map[];
    ghost var done: seq<Info> := [];
    ghost var slots: seq<Slot> := [];
    NothingScanned(existing);
    assert scanned[..0] == [];
    for i := 0 to |scanned|
      invariant done == Named(Values(scanned[..i])) && slots == Scanned(existing, done)
      invariant fresh(final) && Holds(final, slots) && Indexes(index, final, slots)
    {
      var dev := scanned[i];
      NamedNext(scanned, i);
      if dev == null || dev.name == "" {
        assert done + [] == done;
        continue;
      }
      var copy, _ := CopyPreserved(dev, byKey, byName, existing);
      ScannedNext(existing, done, dev.Value());
      IndexesAppend(index, final, slots, copy, SlotOf(copy.Value()));
      HoldsAppend(final, slots, copy, SlotOf(copy.Value()));
      final := final + [copy];
      index := index[(copy.name, copy.typ) := copy];
      done := done + [dev.Value()];
      slots := slots + [SlotOf(copy.Value())];
    }
    assert scanned[..|scanned|] == scanned;
  }

  lemma NothingScanned(existing: seq<Slot>)
    ensures Named(Values([])) == [] && Scanned(existing, []) == [] && Indexes(map[], [], [])
  {
  }

  /** The index by unique name is built once, from the scanned devices. */
  ghost predicate OnlyIndex(only: map<string, Device>, final: seq<Device>, first: seq<Slot>)
    requires |first| <= |final|
  {
    && (forall name: string :: name in only <==> OnlyNamed(first, name).Some?)
    && (forall name <- only :: only[name] == final[OnlyNamed(first, name).value])
  }

  /** `slots` starts with the records of `first`, whatever has been overridden in them. */
  predicate Extends(first: seq<Slot>, slots: seq<Slot>) {
    |first| <= |slots| && forall i :: 0 <= i < |first| ==> slots[i].key == first[i].key
  }

  lemma {:induction false} SameKeys(a: seq<Slot>, b: seq<Slot>, key: Key)
    requires |a| == |b| && forall i :: 0 <= i < |a| ==> a[i].key == b[i].key
    ensures LastWith(a, key) == LastWith(b, key)
  {
    if a != [] {
      SameKeys(a[..|a| - 1], b[..|b| - 1], key);
    }
  }

  /** The two indexes find the record the configured device overrides. */
  lemma IndexesFindTarget(index: map<Key, Device>, only: map<string, Device>, final: seq<Device>, slots: seq<Slot>,
                          first: seq<Slot>, c: Info)
    requires |final| == |slots| && Extends(first, slots) && Indexes(index, final, slots)
             && OnlyIndex(only, final, first)
    ensures var target := Target(slots, |first|, c);
            if KeyOf(c) in index then target.Some? && index[KeyOf(c)] == final[target.value]
            else if c.name in only then target.Some? && only[c.name] == final[target.value]
            else target.None?
  {
    SameNames(slots[..|first|], first, c.name);
  }

  lemma HoldsUpdate(final: seq<Device>, slots: seq<Slot>, k: nat, info: Info)
    requires |final| == |slots| && k < |final| && final[k].Value() == info
    requires forall i, j :: 0 <= i < j < |final| ==> final[i] != final[j]
    requires forall i :: 0 <= i < |final| && i != k ==> final[i].Value() == slots[i].info
    ensures Holds(final, slots[k := slots[k].(info := info)])
  {
  }

  lemma IndexesUpdate(index: map<Key, Device>, final: seq<Device>, slots: seq<Slot>, k: nat, info: Info)
    requires |final| == |slots| && k < |slots| && Indexes(index, final, slots)
    ensures Indexes(index, final, slots[k := slots[k].(info := info)])
  {
    forall key: Key ensures LastWith(slots[k := slots[k].(info := info)], key) == LastWith(slots, key) {
      SameKeys(slots, slots[k := slots[k].(info := info)], key);
    }
  }

  /** Overriding one record leaves the others alone. */
  method OverrideAt(final: seq<Device>, dev: Device, c: Device, ghost k: nat, ghost slots: seq<Slot>)
    requires Holds(final, slots) && k < |final| && dev == final[k] && c !in final
    modifies dev
    ensures Holds(final, slots[k := slots[k].(info := Overridden(slots[k].info, c.Value()))])
  {
    hide Overridden;
    dev.Override(c);
    HoldsUpdate(final, slots, k, dev.Value());
  }

  /** A configured device nothing answers to becomes a new record. */
  method CopyConfigured(c: Device, byKey: map<Key, Device>, byName: map<string, Device>, ghost existing: seq<Slot>)
    returns (copy: Device)
    requires KeyIndex(byKey, existing) && NameIndex(byName, existing)
    ensures fresh(copy) && copy.Value() == Added(existing, c.Value())
  {
    hide Earlier, Preserved, Added, KeyIndex, NameIndex;
    AddedIs(existing, c.Value());
    var found;
    copy, found := CopyPreserved(c, byKey, byName, existing);
    if !found {
      NotFound(existing, c.Value());
      if copy.typ != "" {
        copy.parser := NormalizeParserType(copy.typ);
      }
    }
  }

  lemma OverriddenState(index: map<Key, Device>, final: seq<Device>, slots: seq<Slot>, first: seq<Slot>,
                        existing: seq<Slot>, c: Info)
    requires |final| == |slots| && Extends(first, slots) && Indexes(index, final, slots)
             && Target(slots, |first|, c).Some?
    ensures var k, r := Target(slots, |first|, c).value, ConfiguredOne(existing, slots, |first|, c);
            r == slots[k := slots[k].(info := Overridden(slots[k].info, c))] && Extends(first, r)
                && Indexes(index, final, r)
  {
    var k := Target(slots, |first|, c).value;
    IndexesUpdate(index, final, slots, k, Overridden(slots[k].info, c));
  }

  lemma AppendedState(index: map<Key, Device>, only: map<string, Device>, final: seq<Device>, slots: seq<Slot>,
                      first: seq<Slot>, existing: seq<Slot>, c: Info, d: Device)
    requires |final| == |slots| && Extends(first, slots) && Indexes(index, final, slots)
             && OnlyIndex(only, final, first)
    requires Target(slots, |first|, c).None?
    ensures var s := SlotOf(Added(existing, c));
            && ConfiguredOne(existing, slots, |first|, c) == slots + [s] && Extends(first, slots + [s])
            && Indexes(index[s.key := d], final + [d], slots + [s]) && OnlyIndex(only, final + [d], first)
  {
    IndexesAppend(index, final, slots, d, SlotOf(Added(existing, c)));
  }

  /** The body of the second loop: override the record found, or append a copy. */
  method ConfigureOne(c: Device, final: seq<Device>, index: map<Key, Device>, only: map<string, Device>,
                      byKey: map<Key, Device>, byName: map<string, Device>, ghost existing: seq<Slot>,
                      ghost first: seq<Slot>, ghost slots: seq<Slot>)
    returns (longer: seq<Device>, newIndex: map<Key, Device>)
    requires KeyIndex(byKey, existing) && NameIndex(byName, existing)
    requires c !in final && Holds(final, slots) && Extends(first, slots)
    requires Indexes(index, final, slots) && OnlyIndex(only, final, first)
    modifies final
    ensures final <= longer && forall k :: |final| <= k < |longer| ==> fresh(longer[k])
    ensures var r := ConfiguredOne(existing, slots, |first|, c.Value());
            Holds(longer, r) && Extends(first, r) && Indexes(newIndex, longer, r) && OnlyIndex(only, longer, first)
  {
    hide ConfiguredOne, Added, Target, KeyIndex, NameIndex, Overridden, Indexes, OnlyIndex, Holds, Extends;
    HoldsLength(final, slots);
    ghost var info := c.Value();
    IndexesFindTarget(index, only, final, slots, first, info);
    if (c.name, c.typ) in index || c.name in only {
      var dev := if (c.name, c.typ) in index then index[(c.name, c.typ)] else only[c.name];
      OverriddenState(index, final, slots, first, existing, info);
      OverrideAt(final, dev, c, Target(slots, |first|, info).value, slots);
      return final, index;
    }
    var copy := CopyConfigured(c, byKey, byName, existing);
    AppendedState(index, only, final, slots, first, existing, info, copy);
    HoldsAppend(final, slots, copy, SlotOf(copy.Value()));
    longer := final + [copy];
    newIndex := index[(copy.name, copy.typ) := copy];
  }

  lemma HoldsLength(final: seq<Device>, slots: seq<Slot>)
    requires Holds(final, slots)
    ensures |final| == |slots|
  {
  }

  lemma NotFound(existing: seq<Slot>, c: Info)
    requires Earlier(existing, c).None?
    ensures Preserved(c, Earlier(existing, c)) == c
  {
  }

  lemma AddedIs(existing: seq<Slot>, c: Info)
    ensures Added(existing, c) == if Earlier(existing, c).None? && c.typ != ""
            then c.(parser := NormalizeParserType(c.typ))
                                  else Preserved(c, Earlier(existing, c))
  {
  }

  lemma {:induction false} ValuesOfHeld(final: seq<Device>, slots: seq<Slot>)
    requires Holds(final, slots)
    ensures Values(final) == Infos(slots)
  {
  }

  lemma {:induction false} ReindexedScanned(existing: seq<Slot>, scanned: seq<Info>, final: seq<Device>)
    requires AllNamed(scanned) && Holds(final, Scanned(existing, scanned))
    ensures SlotsOf(final) == Scanned(existing, scanned)
  {
    var slots := Scanned(existing, scanned);
    ScannedInOrder(existing, scanned);
    ValuesOfHeld(final, slots);
    NamedInfos(slots);
    SlotsAt(Named(Infos(slots)));
  }

  lemma OnlyIndexOf(only: map<string, Device>, final: seq<Device>, first: seq<Slot>)
    requires Holds(final, first) && NamesFixed(first) && NameIndex(only, first)
    requires forall name <- only :: only[name] in final && only[name].name == name
    ensures OnlyIndex(only, final, first)
  {
    forall name <- only ensures only[name] == final[OnlyNamed(first, name).value] {
      var k :| 0 <= k < |final| && final[k] == only[name];
      assert final[k].Value() == first[k].info;
      OnlyOne(first, name, k, OnlyNamed(first, name).value);
    }
  }

  lemma NamedValuesNext(vs: seq<Option<Info>>, i: nat)
    requires i < |vs|
    ensures Named(vs[..i + 1]) == Named(vs[..i]) + if vs[i].Some? && vs[i].value.name != "" then [vs[i].value] else []
  {
    assert vs[..i + 1][..i] == vs[..i];
  }

  /** Records that are not among those given. */
  ghost predicate Apart(final: seq<Device>, configured: seq<Device?>, byKey: map<Key, Device>,
                        byName: map<string, Device>)
  {
    forall d <- final :: d !in configured && d !in byKey.Values && d !in byName.Values
  }

  /** The second loop. */
  method ConfigureAll(configured: seq<Device?>, scanned: seq<Device>, index0: map<Key, Device>,
                      only: map<string, Device>, byKey: map<Key, Device>, byName: map<string, Device>,
                      ghost existing: seq<Slot>, ghost first: seq<Slot>)
    returns (final: seq<Device>)
    requires KeyIndex(byKey, existing) && NameIndex(byName, existing)
    requires Holds(scanned, first) && Indexes(index0, scanned, first) && OnlyIndex(only, scanned, first)
    requires Apart(scanned, configured, byKey, byName)
    modifies scanned
    ensures forall d <- final :: d in scanned || fresh(d)
    ensures Holds(final, Configured(existing, first, |first|, Named(old(Values(configured)))))
  {
    hide Named, Values, Configured, ConfiguredOne, KeyIndex, NameIndex, Indexes, OnlyIndex, Holds, Extends;
    HoldsLength(scanned, first);
    final := scanned;
    var index := index0;
    ghost var vs := Values(configured);
    ghost var done: seq<Info> := [];
    ghost var slots := first;
    NothingConfigured(existing, first);
    assert vs[..0] == [];
    for i := 0 to |configured|
      invariant forall k :: 0 <= k < |final| ==> final[k] in scanned || fresh(final[k])
      invariant Apart(final, configured, byKey, byName)
      invariant KeyIndex(byKey, existing) && NameIndex(byName, existing)
      invariant Values(configured) == vs
      invariant done == Named(vs[..i]) && slots == Configured(existing, first, |first|, done)
      invariant |final| == |slots| && Extends(first, slots)
      invariant Holds(final, slots) && Indexes(index, final, slots) && OnlyIndex(only, final, first)
    {
      var dev := configured[i];
      NamedValuesNext(vs, i);
      assert vs[i] == ValueOf(dev);
      if dev == null || dev.name == "" {
        assert done + [] == done;
        continue;
      }
      ghost var info := dev.Value();
      ConfiguredNext(existing, first, |first|, done, info);
      ghost var before := final;
      assert forall d <- configured :: d !in before;
      final, index := ConfigureOne(dev, final, index, only, byKey, byName, existing, first, slots);
      assert forall k :: 0 <= k < |configured| ==> ValueOf(configured[k]) == vs[k];
      done := done + [info];
      slots := ConfiguredOne(existing, slots, |first|, info);
      HoldsLength(final, slots);
    }
    assert vs[..|configured|] == vs;
  }

  lemma NothingConfigured(existing: seq<Slot>, first: seq<Slot>)
    ensures Named([]) == [] && Configured(existing, first, |first|, []) == first && Extends(first, first)
  {
  }

  /** mergeDeviceLists when there is something to merge. */
  method MergeLists(existing: seq<Device?>, scanned: seq<Device?>, configured: seq<Device?>)
    returns (final: seq<Device>)
    ensures Holds(final, MergedSlots(old(Values(existing)), old(Values(scanned)), old(Values(configured))))
    ensures forall d <- final :: fresh(d)
  {
    hide Named, Values, Configured, Scanned, KeyIndex, NameIndex, Indexes, OnlyIndex, Holds, NamesFixed, AllNamed;
    ghost var known, found := SlotsOf(existing), Named(Values(scanned));
    var byKey := IndexByKey(existing);
    var byName := UniqueByName(existing);
    var copies, index := CopyScanned(scanned, byKey, byName, known);
    ghost var first := Scanned(known, found);
    NamedAllNamed(Values(scanned));
    ScannedInOrder(known, found);
    ReindexedScanned(known, found, copies);
    var only := UniqueByName(copies);
    OnlyIndexOf(only, copies, first);
    final := ConfigureAll(configured, copies, index, only, byKey, byName, known, first);
  }

  /** mergeDeviceLists: nothing it was given is changed, and unless there is nothing to merge every record is new. */
  method MergeDeviceLists(existing: seq<Device?>, scanned: seq<Device?>, configured: seq<Device?>)
    returns (final: seq<Device?>)
    ensures Values(final) == Merged(old(Values(existing)), old(Values(scanned)), old(Values(configured)))
    ensures scanned == [] && configured == [] ==> final == existing
    ensures scanned != [] || configured != [] ==> forall d <- final :: d != null && fresh(d)
  {
    hide MergedSlots, Holds, Values;
    if scanned == [] && configured == [] {
      return existing;
    }
    var merged := MergeLists(existing, scanned, configured);
    ValuesOfHeld(merged, MergedSlots(old(Values(existing)), old(Values(scanned)), old(Values(configured))));
    final := merged;
  }
}
