/**
Merging the SMART devices that were known, scanned and configured (agent/smart.go). Records are matched by name and
type, or else by name alone when it is the only one. What has been verified about a device is kept as long as each
refresh leaves one record of its name, and can be lost otherwise.
 */
module SmartMerge {
  import opened Basics

  datatype Info = Info(name: string, typ: string, infoName: string, protocol: string, verified: bool, parser: string)

  type Key = (string, string)

  /** A record in a list, with the key it was indexed under; later changes of its type do not move it. */
  datatype Slot = Slot(key: Key, info: Info)

  function KeyOf(d: Info): Key {
    (d.name, d.typ)
  }

  function SlotOf(d: Info): Slot {
    Slot(KeyOf(d), d)
  }

  // ---------------------------------------------------------------- text

  predicate IsSpace(c: char) {
    c == ' ' || '\t' <= c <= '\r'
  }

  function Trim(s: string): string {
    if s == "" then ""
    else if IsSpace(s[0]) then Trim(s[1..])
    else if IsSpace(s[|s| - 1]) then Trim(s[..|s| - 1])
    else s
  }

  function Lower(s: string): string {
    if s == "" then "" else [if 'A' <= s[0] <= 'Z' then s[0] - 'A' + 'a' else s[0]] + Lower(s[1..])
  }

  function NormalizeParserType(value: string): string {
    var v := Lower(Trim(value));
    if v == "nvme" || v == "sntasmedia" || v == "sntrealtek" then "nvme"
    else if v == "sat" || v == "ata" then "sat"
    else v
  }

  predicate IsTrimmed(s: string) {
    s == "" || (!IsSpace(s[0]) && !IsSpace(s[|s| - 1]))
  }

  predicate IsLower(s: string) {
    forall i :: 0 <= i < |s| ==> !('A' <= s[i] <= 'Z')
  }

  /** There is only space around s[i..j]. */
  predicate IsCore(s: string, i: int, j: int) {
    0 <= i <= j <= |s| && forall k :: 0 <= k < |s| && !(i <= k < j) ==> IsSpace(s[k])
  }

  lemma {:induction false} TrimTrims(s: string)
    ensures IsTrimmed(Trim(s)) && (IsTrimmed(s) ==> Trim(s) == s)
    ensures exists i, j :: IsCore(s, i, j) && Trim(s) == s[i..j]
    decreases |s|
  {
    if s != "" && IsSpace(s[0]) {
      TrimTrims(s[1..]);
      var i, j :| IsCore(s[1..], i, j) && Trim(s[1..]) == s[1..][i..j];
      assert s[1..][i..j] == s[i + 1..j + 1];
      forall k | 0 <= k < |s| && !(i + 1 <= k < j + 1) ensures IsSpace(s[k]) {
        assert k > 0 ==> s[k] == s[1..][k - 1];
      }
      assert IsCore(s, i + 1, j + 1);
    } else if s != "" && IsSpace(s[|s| - 1]) {
      var n := |s| - 1;
      TrimTrims(s[..n]);
      var i, j :| IsCore(s[..n], i, j) && Trim(s[..n]) == s[..n][i..j];
      assert s[..n][i..j] == s[i..j];
      forall k | 0 <= k < |s| && !(i <= k < j) ensures IsSpace(s[k]) {
        assert k < n ==> s[k] == s[..n][k];
      }
      assert IsCore(s, i, j);
    } else {
      assert s[0..|s|] == s && IsCore(s, 0, |s|);
    }
  }

  lemma {:induction false} LowerLowers(s: string)
    ensures |Lower(s)| == |s| && IsLower(Lower(s)) && (IsLower(s) ==> Lower(s) == s)
    ensures forall i :: 0 <= i < |s| ==> Lower(s)[i] == if 'A' <= s[i] <= 'Z' then s[i] - 'A' + 'a' else s[i]
  {
    if s != "" {
      LowerLowers(s[1..]);
    }
  }

  predicate IsLowerOf(v: string, s: string) {
    |v| == |s| && forall k :: 0 <= k < |s| ==> v[k] == if 'A' <= s[k] <= 'Z' then s[k] - 'A' + 'a' else s[k]
  }

  /** v is the value without space around it and in lower case. */
  ghost predicate IsPlain(value: string, v: string) {
    IsTrimmed(v) && exists i, j :: IsCore(value, i, j) && IsLowerOf(v, value[i..j])
  }

  lemma LowerTrimIsPlain(value: string)
    ensures IsPlain(value, Lower(Trim(value))) && IsTrimmed(Lower(Trim(value))) && IsLower(Lower(Trim(value)))
  {
    TrimTrims(value);
    LowerLowers(Trim(value));
    var i, j :| IsCore(value, i, j) && Trim(value) == value[i..j];
    assert IsLowerOf(Lower(Trim(value)), value[i..j]);
  }

  /**
  Parser types: what matters of a value is its plain form. NVMe and its two bridges are "nvme", SAT and ATA are "sat",
  anything else is itself, and a parser type is its own parser type.
   */
  lemma ParserTypes(value: string)
    ensures exists v :: IsPlain(value, v)
              && NormalizeParserType(value) == if v in {"nvme", "sntasmedia", "sntrealtek"} then "nvme"
                                               else if v in {"sat", "ata"} then "sat" else v
    ensures NormalizeParserType(NormalizeParserType(value)) == NormalizeParserType(value)
  {
    hide IsPlain, Trim, Lower;
    LowerTrimIsPlain(value);
    PlainIsOwn(NormalizeParserType(value));
  }

  lemma PlainIsOwn(w: string)
    requires IsTrimmed(w) && IsLower(w)
    ensures Lower(Trim(w)) == w
  {
    TrimTrims(w);
    LowerLowers(w);
  }

  // ---------------------------------------------------------------- looking records up

  /** The indexes skip missing records and records without a name. */
  function Named(devices: seq<Option<Info>>): seq<Info> {
    if devices == [] then []
    else
      var d := devices[|devices| - 1];
      Named(devices[..|devices| - 1]) + if d.Some? && d.value.name != "" then [d.value] else []
  }

  function Slots(devices: seq<Info>): seq<Slot> {
    if devices == [] then [] else Slots(devices[..|devices| - 1]) + [SlotOf(devices[|devices| - 1])]
  }

  /** A key's last record: later ones replace earlier ones in the index. */
  function LastWith(slots: seq<Slot>, key: Key): (r: Option<nat>)
    ensures r.Some? ==> r.value < |slots| && slots[r.value].key == key
  {
    if slots == [] then None
    else if slots[|slots| - 1].key == key then Some(|slots| - 1)
    else LastWith(slots[..|slots| - 1], key)
  }

  function NameCount(slots: seq<Slot>, name: string): nat {
    if slots == [] then 0
    else NameCount(slots[..|slots| - 1], name) + if slots[|slots| - 1].key.0 == name then 1 else 0
  }

  function LastNamed(slots: seq<Slot>, name: string): (r: Option<nat>)
    ensures r.Some? ==> r.value < |slots| && slots[r.value].key.0 == name
    ensures r.Some? <==> NameCount(slots, name) > 0
  {
    if slots == [] then None
    else if slots[|slots| - 1].key.0 == name then Some(|slots| - 1)
    else LastNamed(slots[..|slots| - 1], name)
  }

  /** buildUniqueNameIndex */
  function OnlyNamed(slots: seq<Slot>, name: string): (r: Option<nat>)
    ensures r.Some? ==> r.value < |slots| && slots[r.value].key.0 == name
    ensures r.Some? <==> NameCount(slots, name) == 1
  {
    if NameCount(slots, name) == 1 then LastNamed(slots, name) else None
  }

  /** The earlier record a device is matched to. */
  function Earlier(existing: seq<Slot>, d: Info): Option<Info> {
    var byKey := LastWith(existing, KeyOf(d));
    if byKey.Some? then Some(existing[byKey.value].info)
    else
      var byName := OnlyNamed(existing, d.name);
      if byName.Some? then Some(existing[byName.value].info) else None
  }

  // ---------------------------------------------------------------- merging

  /** preserveVerifiedType */
  function Preserved(d: Info, prev: Option<Info>): Info {
    if prev.Some? && prev.value.verified
    then d.(typ := prev.value.typ, verified := true, parser := prev.value.parser) else d
  }

  /** applyConfiguredMetadata */
  function Overridden(d: Info, c: Info): Info {
    var typed := if c.typ != "" && !d.verified
                 then d.(typ := Trim(c.typ), parser := NormalizeParserType(Trim(c.typ))) else d;
    typed.(infoName := if c.infoName != "" then c.infoName else d.infoName,
           protocol := if c.protocol != "" then c.protocol else d.protocol)
  }

  /** A configured device that no scanned device answers to. */
  function Added(existing: seq<Slot>, c: Info): Info {
    var prev := Earlier(existing, c);
    if prev.Some? then Preserved(c, prev)
    else if c.typ != "" then c.(parser := NormalizeParserType(c.typ)) else c
  }

  function Scanned(existing: seq<Slot>, scanned: seq<Info>): (slots: seq<Slot>)
    ensures |slots| == |scanned|
  {
    if scanned == [] then []
    else
      var d := scanned[|scanned| - 1];
      Scanned(existing, scanned[..|scanned| - 1]) + [SlotOf(Preserved(d, Earlier(existing, d)))]
  }

  /** The record a configured device overrides: by key among all, or by unique name among the first `n`. */
  function Target(slots: seq<Slot>, n: nat, c: Info): (r: Option<nat>)
    requires n <= |slots|
    ensures r.Some? ==> r.value < |slots| && slots[r.value].key.0 == c.name
  {
    var byKey := LastWith(slots, KeyOf(c));
    if byKey.Some? then byKey else OnlyNamed(slots[..n], c.name)
  }

  function ConfiguredOne(existing: seq<Slot>, slots: seq<Slot>, n: nat, c: Info): (r: seq<Slot>)
    requires n <= |slots|
    ensures n <= |r|
  {
    var target := Target(slots, n, c);
    if target.Some?
    then slots[target.value := slots[target.value].(info := Overridden(slots[target.value].info, c))]
    else slots + [SlotOf(Added(existing, c))]
  }

  function Configured(existing: seq<Slot>, slots: seq<Slot>, n: nat, configured: seq<Info>): (r: seq<Slot>)
    requires n <= |slots|
    ensures n <= |r|
  {
    if configured == [] then slots
    else ConfiguredOne(existing, Configured(existing, slots, n, configured[..|configured| - 1]), n,
                       configured[|configured| - 1])
  }

  function Infos(slots: seq<Slot>): (r: seq<Option<Info>>)
    ensures |r| == |slots|
  {
    seq(|slots|, i requires 0 <= i < |slots| => Some(slots[i].info))
  }

  function MergedSlots(existing: seq<Option<Info>>, scanned: seq<Option<Info>>,
                       configured: seq<Option<Info>>): seq<Slot> {
    var known, found := Slots(Named(existing)), Named(scanned);
    Configured(known, Scanned(known, found), |found|, Named(configured))
  }

  /** mergeDeviceLists */
  function Merged(existing: seq<Option<Info>>, scanned: seq<Option<Info>>,
                  configured: seq<Option<Info>>): seq<Option<Info>> {
    if scanned == [] && configured == [] then existing else Infos(MergedSlots(existing, scanned, configured))
  }

  // ---------------------------------------------------------------- names

  /** A record's name is the one it was indexed under. */
  predicate NamesFixed(slots: seq<Slot>) {
    forall i :: 0 <= i < |slots| ==> slots[i].key.0 == slots[i].info.name != ""
  }

  predicate HasName(slots: seq<Slot>, name: string) {
    exists i :: 0 <= i < |slots| && slots[i].info.name == name
  }

  predicate Mentions(devices: seq<Info>, name: string) {
    exists i :: 0 <= i < |devices| && devices[i].name == name
  }

  predicate AllNamed(devices: seq<Info>) {
    forall i :: 0 <= i < |devices| ==> devices[i].name != ""
  }

  lemma {:induction false} NamedAllNamed(devices: seq<Option<Info>>)
    ensures AllNamed(Named(devices))
  {
    if devices != [] {
      NamedAllNamed(devices[..|devices| - 1]);
    }
  }

  /** The scanned devices come out in order. */
  lemma {:induction false} ScannedInOrder(existing: seq<Slot>, scanned: seq<Info>)
    requires AllNamed(scanned)
    ensures forall i :: 0 <= i < |scanned| ==>
              Scanned(existing, scanned)[i] == SlotOf(Preserved(scanned[i], Earlier(existing, scanned[i])))
    ensures NamesFixed(Scanned(existing, scanned))
  {
    if scanned != [] {
      var init := scanned[..|scanned| - 1];
      ScannedInOrder(existing, init);
      forall i | 0 <= i < |scanned|
        ensures Scanned(existing, scanned)[i] == SlotOf(Preserved(scanned[i], Earlier(existing, scanned[i])))
      {
        if i < |init| {
          assert Scanned(existing, scanned)[i] == Scanned(existing, init)[i] && init[i] == scanned[i];
        }
      }
    }
  }

  /** One configured device: names stay put, its own is there, and no other is added. */
  lemma ConfiguredOneNames(existing: seq<Slot>, slots: seq<Slot>, n: nat, c: Info, name: string)
    requires n <= |slots| && NamesFixed(slots) && c.name != ""
    ensures var r := ConfiguredOne(existing, slots, n, c);
            && NamesFixed(r) && |slots| <= |r|
            && (forall i :: 0 <= i < |slots| ==> r[i].key == slots[i].key)
            && (HasName(r, name) <==> HasName(slots, name) || c.name == name)
  {
    var r, target := ConfiguredOne(existing, slots, n, c), Target(slots, n, c);
    forall i | 0 <= i < |slots| ensures r[i].key == slots[i].key && r[i].info.name == slots[i].info.name {
    }
    if target.Some? {
      assert r[target.value].info.name == c.name;
    } else {
      assert r[|slots|].info.name == c.name;
    }
    if HasName(slots, name) {
      var i :| 0 <= i < |slots| && slots[i].info.name == name;
      assert r[i].info.name == name;
    }
  }

  lemma MentionsLast(devices: seq<Info>, name: string)
    requires devices != []
    ensures Mentions(devices, name) <==> Mentions(devices[..|devices| - 1], name) || devices[|devices| - 1].name == name
  {
    var init := devices[..|devices| - 1];
    if Mentions(init, name) {
      var i :| 0 <= i < |init| && init[i].name == name;
      assert devices[i].name == name;
    }
  }

  lemma {:induction false} ConfiguredNames(existing: seq<Slot>, slots: seq<Slot>, n: nat, configured: seq<Info>,
                                           name: string)
    requires n <= |slots| && NamesFixed(slots) && AllNamed(configured)
    ensures var r := Configured(existing, slots, n, configured);
            && NamesFixed(r) && |slots| <= |r|
            && (forall i :: 0 <= i < |slots| ==> r[i].key == slots[i].key)
            && (HasName(r, name) <==> HasName(slots, name) || Mentions(configured, name))
  {
    hide ConfiguredOne, HasName, NamesFixed;
    if configured != [] {
      var init, c := configured[..|configured| - 1], configured[|configured| - 1];
      ConfiguredNames(existing, slots, n, init, name);
      ConfiguredOneNames(existing, Configured(existing, slots, n, init), n, c, name);
      MentionsLast(configured, name);
    }
  }

  lemma ScannedNames(existing: seq<Slot>, scanned: seq<Info>, name: string)
    requires AllNamed(scanned)
    ensures HasName(Scanned(existing, scanned), name) <==> Mentions(scanned, name)
  {
    ScannedInOrder(existing, scanned);
    var slots := Scanned(existing, scanned);
    assert forall i :: 0 <= i < |scanned| ==> slots[i].info.name == scanned[i].name;
    if Mentions(scanned, name) {
      var i :| 0 <= i < |scanned| && scanned[i].name == name;
      assert slots[i].info.name == name;
    }
  }

  /**
  A name is in the result exactly when some scanned or configured device has it, and the scanned ones come first, in
  order.
   */
  lemma EveryDeviceRepresented(existing: seq<Option<Info>>, scanned: seq<Option<Info>>, configured: seq<Option<Info>>,
                               name: string)
    requires scanned != [] || configured != []
    ensures var r, found := MergedSlots(existing, scanned, configured), Named(scanned);
            && Merged(existing, scanned, configured) == Infos(r)
            && (HasName(r, name) <==> Mentions(found, name) || Mentions(Named(configured), name))
            && |found| <= |r| && forall i :: 0 <= i < |found| ==> r[i].info.name == found[i].name
  {
    var known, found := Slots(Named(existing)), Named(scanned);
    NamedAllNamed(scanned);
    NamedAllNamed(configured);
    ScannedInOrder(known, found);
    ScannedNames(known, found, name);
    ConfiguredNames(known, Scanned(known, found), |found|, Named(configured), name);
  }

  // ---------------------------------------------------------------- what is verified stays verified

  predicate SameVerified(d: Info, e: Info) {
    d.verified && e.verified && d.typ == e.typ && d.parser == e.parser
  }

  /** No configured device touches the verified type and parser of a record already in the list. */
  lemma {:induction false} ConfiguredKeepsVerified(existing: seq<Slot>, slots: seq<Slot>, n: nat, configured: seq<Info>,
                                                   i: nat)
    requires n <= |slots| && i < |slots| && slots[i].info.verified
    ensures var r := Configured(existing, slots, n, configured); i < |r| && SameVerified(slots[i].info, r[i].info)
  {
    if configured != [] {
      ConfiguredKeepsVerified(existing, slots, n, configured[..|configured| - 1], i);
    }
  }

  /** A scanned device matched to a verified record keeps that record's type and parser, whatever is configured. */
  lemma VerifiedKept(existing: seq<Option<Info>>, scanned: seq<Option<Info>>, configured: seq<Option<Info>>, i: nat)
    requires i < |Named(scanned)|
    requires var prev := Earlier(Slots(Named(existing)), Named(scanned)[i]); prev.Some? && prev.value.verified
    ensures var r := MergedSlots(existing, scanned, configured);
            i < |r| && r[i].info.name == Named(scanned)[i].name
            && SameVerified(Earlier(Slots(Named(existing)), Named(scanned)[i]).value, r[i].info)
  {
    var known, found := Slots(Named(existing)), Named(scanned);
    NamedAllNamed(scanned);
    ScannedInOrder(known, found);
    ConfiguredKeepsVerified(known, Scanned(known, found), |found|, Named(configured), i);
    NamedAllNamed(configured);
    ConfiguredNames(known, Scanned(known, found), |found|, Named(configured), found[i].name);
  }

  lemma {:induction false} ConfiguredSplit(existing: seq<Slot>, slots: seq<Slot>, n: nat, a: seq<Info>, b: seq<Info>)
    requires n <= |slots|
    ensures Configured(existing, slots, n, a + b) == Configured(existing, Configured(existing, slots, n, a), n, b)
  {
    if b == [] {
      assert a + b == a;
    } else {
      var init := b[..|b| - 1];
      assert (a + b)[..|a + b| - 1] == a + init && (a + b)[|a + b| - 1] == b[|b| - 1];
      ConfiguredSplit(existing, slots, n, a, init);
    }
  }

  /** So does a configured device that nothing scanned answers to: it is appended and stays as it was verified. */
  lemma ConfiguredVerifiedKept(existing: seq<Slot>, slots: seq<Slot>, n: nat, a: seq<Info>, c: Info, b: seq<Info>)
    requires n <= |slots| && Earlier(existing, c).Some? && Earlier(existing, c).value.verified
    requires Target(Configured(existing, slots, n, a), n, c).None?
    ensures var i, r := |Configured(existing, slots, n, a)|, Configured(existing, slots, n, a + [c] + b);
            i < |r| && SameVerified(Earlier(existing, c).value, r[i].info)
  {
    var before := Configured(existing, slots, n, a);
    ConfiguredSplit(existing, slots, n, a, [c]);
    assert [c][..0] == [];
    var now := Configured(existing, before, n, [c]);
    assert now == before + [SlotOf(Added(existing, c))];
    ConfiguredSplit(existing, slots, n, a + [c], b);
    ConfiguredKeepsVerified(existing, now, n, b, |before|);
  }

  // ---------------------------------------------------------------- what configuration overrides

  /** The configured devices that override record `i`, in order. */
  function Hits(existing: seq<Slot>, slots: seq<Slot>, n: nat, configured: seq<Info>, i: nat): seq<Info>
    requires n <= |slots|
  {
    if configured == [] then []
    else
      var init, c := configured[..|configured| - 1], configured[|configured| - 1];
      Hits(existing, slots, n, init, i)
      + if Target(Configured(existing, slots, n, init), n, c) == Some(i) then [c] else []
  }

  function OverriddenBy(d: Info, hits: seq<Info>): Info {
    if hits == [] then d else Overridden(OverriddenBy(d, hits[..|hits| - 1]), hits[|hits| - 1])
  }

  lemma {:induction false} RecordIsOverridden(existing: seq<Slot>, slots: seq<Slot>, n: nat, configured: seq<Info>,
                                              i: nat)
    requires n <= |slots| && i < |slots|
    ensures var r := Configured(existing, slots, n, configured);
            i < |r| && r[i].info == OverriddenBy(slots[i].info, Hits(existing, slots, n, configured, i))
  {
    if configured != [] {
      var init, c := configured[..|configured| - 1], configured[|configured| - 1];
      RecordIsOverridden(existing, slots, n, init, i);
      var before, hits := Configured(existing, slots, n, init), Hits(existing, slots, n, init, i);
      if Target(before, n, c) == Some(i) {
        assert (hits + [c])[..|hits|] == hits;
      } else {
        assert hits + [] == hits;
      }
    }
  }

  /** The last value that says something, or the value there was. */
  function LastSaid(values: seq<string>, otherwise: string): string {
    if values == [] then otherwise
    else if values[|values| - 1] != "" then values[|values| - 1]
    else LastSaid(values[..|values| - 1], otherwise)
  }

  function Types(ds: seq<Info>): (r: seq<string>)
    ensures |r| == |ds|
  {
    if ds == [] then [] else Types(ds[..|ds| - 1]) + [ds[|ds| - 1].typ]
  }

  function InfoNames(ds: seq<Info>): (r: seq<string>)
    ensures |r| == |ds|
  {
    if ds == [] then [] else InfoNames(ds[..|ds| - 1]) + [ds[|ds| - 1].infoName]
  }

  function Protocols(ds: seq<Info>): (r: seq<string>)
    ensures |r| == |ds|
  {
    if ds == [] then [] else Protocols(ds[..|ds| - 1]) + [ds[|ds| - 1].protocol]
  }

  /** Configured fields win, the last non-empty one of each; the type only while it is not verified. */
  lemma {:induction false} LastOverrideWins(d: Info, hits: seq<Info>)
    ensures var r := OverriddenBy(d, hits);
            && r.name == d.name && r.verified == d.verified
            && r.infoName == LastSaid(InfoNames(hits), d.infoName)
            && r.protocol == LastSaid(Protocols(hits), d.protocol)
            && (d.verified ==> r.typ == d.typ && r.parser == d.parser)
            && (!d.verified ==> if LastSaid(Types(hits), "") == "" then r.typ == d.typ && r.parser == d.parser
                                else r.typ == Trim(LastSaid(Types(hits), "")) && r.parser == NormalizeParserType(r.typ))
  {
    if hits != [] {
      var init := hits[..|hits| - 1];
      LastOverrideWins(d, init);
      assert InfoNames(hits)[..|init|] == InfoNames(init);
      assert Protocols(hits)[..|init|] == Protocols(init);
      assert Types(hits)[..|init|] == Types(init);
    }
  }

  // ---------------------------------------------------------------- over any number of refreshes

  /** The list has one record of the name, and it is verified with this type and parser. */
  ghost predicate Settled(slots: seq<Slot>, name: string, typ: string, parser: string) {
    NameCount(slots, name) == 1
    && exists i :: 0 <= i < |slots| && slots[i].key.0 == name && IsVerified(slots[i].info, typ, parser)
  }

  predicate IsVerified(d: Info, typ: string, parser: string) {
    d.verified && d.typ == typ && d.parser == parser
  }

  lemma {:induction false} CountPositive(slots: seq<Slot>, name: string, i: nat)
    requires i < |slots| && slots[i].key.0 == name
    ensures NameCount(slots, name) > 0
  {
    if i < |slots| - 1 {
      CountPositive(slots[..|slots| - 1], name, i);
    }
  }

  lemma {:induction false} OnlyOne(slots: seq<Slot>, name: string, i: nat, j: nat)
    requires i < |slots| && j < |slots| && slots[i].key.0 == name && slots[j].key.0 == name
             && NameCount(slots, name) <= 1
    ensures i == j
  {
    var init := slots[..|slots| - 1];
    if i < |init| && j < |init| {
      OnlyOne(init, name, i, j);
    } else if i < |init| {
      CountPositive(init, name, i);
    } else if j < |init| {
      CountPositive(init, name, j);
    }
  }

  lemma {:induction false} SameNames(a: seq<Slot>, b: seq<Slot>, name: string)
    requires |a| == |b| && forall i :: 0 <= i < |a| ==> a[i].key.0 == b[i].key.0
    ensures NameCount(a, name) == NameCount(b, name) && LastNamed(a, name) == LastNamed(b, name)
  {
    if a != [] {
      SameNames(a[..|a| - 1], b[..|b| - 1], name);
    }
  }

  /** A device of a settled name is matched to the settled record, by key or by name. */
  lemma EarlierSettled(existing: seq<Slot>, d: Info, typ: string, parser: string)
    requires Settled(existing, d.name, typ, parser)
    ensures Earlier(existing, d).Some? && IsVerified(Earlier(existing, d).value, typ, parser)
  {
    var i :| 0 <= i < |existing| && existing[i].key.0 == d.name && IsVerified(existing[i].info, typ, parser);
    var byKey := LastWith(existing, KeyOf(d));
    if byKey.Some? {
      OnlyOne(existing, d.name, i, byKey.value);
    } else {
      OnlyOne(existing, d.name, i, OnlyNamed(existing, d.name).value);
    }
  }

  lemma SettledAppend(slots: seq<Slot>, s: Slot, name: string, typ: string, parser: string)
    requires Settled(slots, name, typ, parser) && s.key.0 != name
    ensures Settled(slots + [s], name, typ, parser)
  {
    assert (slots + [s])[..|slots|] == slots;
    var i :| 0 <= i < |slots| && slots[i].key.0 == name && IsVerified(slots[i].info, typ, parser);
    assert (slots + [s])[i] == slots[i];
  }

  /** Settling by a new record of a name the list did not have. */
  lemma SettledFirst(slots: seq<Slot>, s: Slot, name: string, typ: string, parser: string)
    requires NameCount(slots, name) == 0 && s.key.0 == name && IsVerified(s.info, typ, parser)
    ensures Settled(slots + [s], name, typ, parser)
  {
    assert (slots + [s])[..|slots|] == slots;
    assert (slots + [s])[|slots|] == s;
  }

  function Count(devices: seq<Info>, name: string): nat {
    if devices == [] then 0
    else Count(devices[..|devices| - 1], name) + if devices[|devices| - 1].name == name then 1 else 0
  }

  lemma CountAppend(slots: seq<Slot>, s: Slot, name: string)
    ensures NameCount(slots + [s], name) == NameCount(slots, name) + if s.key.0 == name then 1 else 0
  {
    assert (slots + [s])[..|slots|] == slots;
  }

  lemma {:induction false} ScannedSettled(existing: seq<Slot>, scanned: seq<Info>, name: string, typ: string,
                                          parser: string)
    requires Settled(existing, name, typ, parser) && Count(scanned, name) <= 1
    ensures NameCount(Scanned(existing, scanned), name) == Count(scanned, name)
    ensures Count(scanned, name) == 1 ==> Settled(Scanned(existing, scanned), name, typ, parser)
  {
    if scanned != [] {
      var init, d := scanned[..|scanned| - 1], scanned[|scanned| - 1];
      ScannedSettled(existing, init, name, typ, parser);
      var before, s := Scanned(existing, init), SlotOf(Preserved(d, Earlier(existing, d)));
      CountAppend(before, s, name);
      if d.name == name {
        EarlierSettled(existing, d, typ, parser);
        SettledFirst(before, s, name, typ, parser);
      } else if Count(init, name) == 1 {
        SettledAppend(before, s, name, typ, parser);
      }
    }
  }

  /** One configured device leaves a settled name settled. */
  lemma ConfiguredOneSettled(existing: seq<Slot>, slots: seq<Slot>, n: nat, c: Info, name: string, typ: string,
                             parser: string)
    requires n <= |slots| && Settled(slots, name, typ, parser)
    requires c.name == name ==> Target(slots, n, c).Some?
    ensures Settled(ConfiguredOne(existing, slots, n, c), name, typ, parser)
  {
    var r, target := ConfiguredOne(existing, slots, n, c), Target(slots, n, c);
    var i :| 0 <= i < |slots| && slots[i].key.0 == name && IsVerified(slots[i].info, typ, parser);
    if target.Some? {
      SameNames(slots, r, name);
      assert r[i].key.0 == name && IsVerified(r[i].info, typ, parser);
    } else {
      SettledAppend(slots, SlotOf(Added(existing, c)), name, typ, parser);
    }
  }

  /** The name is scanned once: whatever is configured under it is an override. */
  lemma {:induction false} ConfiguredSettled(existing: seq<Slot>, slots: seq<Slot>, n: nat, configured: seq<Info>,
                                             name: string, typ: string, parser: string)
    requires n == |slots| && NamesFixed(slots) && AllNamed(configured) && Settled(slots, name, typ, parser)
    ensures Settled(Configured(existing, slots, n, configured), name, typ, parser)
  {
    if configured != [] {
      var init, c := configured[..|configured| - 1], configured[|configured| - 1];
      ConfiguredSettled(existing, slots, n, init, name, typ, parser);
      var before := Configured(existing, slots, n, init);
      ConfiguredNames(existing, slots, n, init, name);
      SameNames(slots, before[..n], name);
      ConfiguredOneSettled(existing, before, n, c, name, typ, parser);
    }
  }

  /** The configured devices of a name, in order. */
  function Mine(devices: seq<Info>, name: string): seq<Info> {
    if devices == [] then []
    else
      var d := devices[|devices| - 1];
      Mine(devices[..|devices| - 1], name) + if d.name == name then [d] else []
  }

  /** How many records they make when the name is not scanned: the first one, and each later one of another type. */
  function Records(mine: seq<Info>, typ: string): nat {
    if |mine| <= 1 then |mine| else Records(mine[..|mine| - 1], typ) + if mine[|mine| - 1].typ == typ then 0 else 1
  }

  /** There is at least one, and all but the first have the type. */
  predicate OneRecord(mine: seq<Info>, typ: string) {
    mine != [] && forall i :: 1 <= i < |mine| ==> mine[i].typ == typ
  }

  lemma {:induction false} RecordsOneIff(mine: seq<Info>, typ: string)
    ensures Records(mine, typ) == 1 <==> OneRecord(mine, typ)
    ensures Records(mine, typ) == 0 <==> mine == []
  {
    if |mine| > 1 {
      var init := mine[..|mine| - 1];
      RecordsOneIff(init, typ);
      assert forall i :: 1 <= i < |init| ==> init[i] == mine[i];
    }
  }

  /** Every record of the name is verified as the settled one was, and indexed under its type. */
  predicate AllVerified(slots: seq<Slot>, name: string, typ: string, parser: string) {
    forall i :: 0 <= i < |slots| && slots[i].key.0 == name ==>
        slots[i].key == (name, typ) && IsVerified(slots[i].info, typ, parser)
  }

  /** The records of the name beyond the scanned ones are found by their type, if at all. */
  lemma TargetByType(slots: seq<Slot>, n: nat, c: Info, typ: string, parser: string)
    requires n <= |slots| && AllVerified(slots, c.name, typ, parser) && NameCount(slots[..n], c.name) == 0
    ensures Target(slots, n, c).Some? <==> NameCount(slots, c.name) > 0 && c.typ == typ
  {
    var byKey := LastWith(slots, KeyOf(c));
    if byKey.Some? {
      CountPositive(slots, c.name, byKey.value);
    } else if NameCount(slots, c.name) > 0 && c.typ == typ {
      var i := LastNamed(slots, c.name).value;
      LastWithFinds(slots, KeyOf(c), i);
    }
  }

  lemma {:induction false} LastWithFinds(slots: seq<Slot>, key: Key, i: nat)
    requires i < |slots| && slots[i].key == key
    ensures LastWith(slots, key).Some?
  {
    if i < |slots| - 1 {
      LastWithFinds(slots[..|slots| - 1], key, i);
    }
  }

  lemma AllVerifiedOne(existing: seq<Slot>, slots: seq<Slot>, n: nat, c: Info, name: string, typ: string,
                       parser: string)
    requires n <= |slots| && AllVerified(slots, name, typ, parser) && Settled(existing, name, typ, parser)
    ensures AllVerified(ConfiguredOne(existing, slots, n, c), name, typ, parser)
  {
    if c.name == name {
      EarlierSettled(existing, c, typ, parser);
    }
  }

  /** The name is not scanned: the configured devices take the record over, and count as `Records` says. */
  lemma {:induction false} ConfiguredTakesOver(existing: seq<Slot>, slots: seq<Slot>, n: nat, configured: seq<Info>,
                                               name: string, typ: string, parser: string)
    requires n == |slots| && NameCount(slots, name) == 0 && Settled(existing, name, typ, parser)
    requires NamesFixed(slots) && AllNamed(configured) && AllVerified(slots, name, typ, parser)
    ensures var r := Configured(existing, slots, n, configured);
            AllVerified(r, name, typ, parser) && NameCount(r, name) == Records(Mine(configured, name), typ)
  {
    hide ConfiguredOne, NameCount, AllVerified, Target;
    if configured != [] {
      var init, c := configured[..|configured| - 1], configured[|configured| - 1];
      ConfiguredTakesOver(existing, slots, n, init, name, typ, parser);
      var before := Configured(existing, slots, n, init);
      AllVerifiedOne(existing, before, n, c, name, typ, parser);
      var target, mine := Target(before, n, c), Mine(init, name);
      assert (mine + [c])[..|mine|] == mine && mine + [] == mine;
      RecordsOneIff(mine, typ);
      if c.name == name {
        ConfiguredNames(existing, slots, n, init, name);
        SameNames(slots, before[..n], name);
        TargetByType(before, n, c, typ, parser);
      }
      CountOne(existing, before, n, c, name);
    }
  }

  lemma CountOne(existing: seq<Slot>, slots: seq<Slot>, n: nat, c: Info, name: string)
    requires n <= |slots|
    ensures NameCount(ConfiguredOne(existing, slots, n, c), name)
         == NameCount(slots, name) + if Target(slots, n, c).None? && c.name == name then 1 else 0
  {
    if Target(slots, n, c).Some? {
      SameNames(slots, ConfiguredOne(existing, slots, n, c), name);
    } else {
      CountAppend(slots, SlotOf(Added(existing, c)), name);
    }
  }

  lemma {:induction false} ScannedCount(existing: seq<Slot>, scanned: seq<Info>, name: string)
    ensures NameCount(Scanned(existing, scanned), name) == Count(scanned, name)
  {
    if scanned != [] {
      var init, d := scanned[..|scanned| - 1], scanned[|scanned| - 1];
      ScannedCount(existing, init, name);
      CountAppend(Scanned(existing, init), SlotOf(Preserved(d, Earlier(existing, d))), name);
    }
  }

  /** Configuration adds records and removes none. */
  lemma {:induction false} ConfiguredCount(existing: seq<Slot>, slots: seq<Slot>, n: nat, configured: seq<Info>,
                                           name: string)
    requires n <= |slots|
    ensures NameCount(Configured(existing, slots, n, configured), name) >= NameCount(slots, name)
  {
    if configured != [] {
      var init, c := configured[..|configured| - 1], configured[|configured| - 1];
      ConfiguredCount(existing, slots, n, init, name);
      CountOne(existing, Configured(existing, slots, n, init), n, c, name);
    }
  }

  datatype Refresh = Refresh(scanned: seq<Option<Info>>, configured: seq<Option<Info>>)

  /**
  The refresh leaves one record of a name known with this type: the name is scanned once; or it is not scanned, is
  configured, and every configured device of the name after the first has that type; or the refresh reports nothing at
  all.
   */
  predicate LeavesOne(r: Refresh, name: string, typ: string) {
    var found := Count(Named(r.scanned), name);
    found == 1 || (found == 0 && OneRecord(Mine(Named(r.configured), name), typ))
        || (r.scanned == [] && r.configured == [])
  }

  function Refreshed(existing: seq<Option<Info>>, refreshes: seq<Refresh>): seq<Option<Info>> {
    if refreshes == [] then existing
    else
      var last := refreshes[|refreshes| - 1];
      Merged(Refreshed(existing, refreshes[..|refreshes| - 1]), last.scanned, last.configured)
  }

  ghost predicate KnownAs(devices: seq<Option<Info>>, name: string, typ: string, parser: string) {
    Settled(Slots(Named(devices)), name, typ, parser)
  }

  lemma {:induction false} NamedInfos(slots: seq<Slot>)
    requires NamesFixed(slots)
    ensures |Named(Infos(slots))| == |slots|
    ensures forall i :: 0 <= i < |slots| ==> Named(Infos(slots))[i] == slots[i].info
  {
    if slots != [] {
      var init := slots[..|slots| - 1];
      NamedInfos(init);
      assert Infos(slots)[..|slots| - 1] == Infos(init);
    }
  }

  lemma {:induction false} SlotsAt(devices: seq<Info>)
    ensures |Slots(devices)| == |devices| && forall i :: 0 <= i < |devices| ==> Slots(devices)[i] == SlotOf(devices[i])
  {
    if devices != [] {
      SlotsAt(devices[..|devices| - 1]);
    }
  }

  /** Indexing the result again by its new types changes nothing about names. */
  lemma KnownFromSlots(slots: seq<Slot>, name: string, typ: string, parser: string)
    requires NamesFixed(slots)
    ensures NameCount(Slots(Named(Infos(slots))), name) == NameCount(slots, name)
    ensures Settled(slots, name, typ, parser) ==> KnownAs(Infos(slots), name, typ, parser)
  {
    NamedInfos(slots);
    SlotsAt(Named(Infos(slots)));
    var again := Slots(Named(Infos(slots)));
    SameNames(slots, again, name);
    if Settled(slots, name, typ, parser) {
      var i :| 0 <= i < |slots| && slots[i].key.0 == name && IsVerified(slots[i].info, typ, parser);
      assert again[i].key.0 == name && IsVerified(again[i].info, typ, parser);
    }
  }

  lemma SettledOnce(slots: seq<Slot>, name: string, typ: string, parser: string)
    requires AllVerified(slots, name, typ, parser) && NameCount(slots, name) == 1
    ensures Settled(slots, name, typ, parser)
  {
    var i := LastNamed(slots, name).value;
    assert slots[i].key.0 == name && IsVerified(slots[i].info, typ, parser);
  }

  lemma NoneVerified(slots: seq<Slot>, name: string, typ: string, parser: string)
    requires NameCount(slots, name) == 0
    ensures AllVerified(slots, name, typ, parser)
  {
    forall i | 0 <= i < |slots| ensures slots[i].key.0 != name {
      if slots[i].key.0 == name {
        CountPositive(slots, name, i);
      }
    }
  }

  /** The slots a merge leaves are settled for the name if and only if the refresh leaves one record of it. */
  lemma MergedSettledIff(existing: seq<Option<Info>>, scanned: seq<Option<Info>>, configured: seq<Option<Info>>,
                         name: string, typ: string, parser: string)
    requires KnownAs(existing, name, typ, parser) && (scanned != [] || configured != [])
    ensures var r := MergedSlots(existing, scanned, configured);
            && NamesFixed(r)
            && (LeavesOne(Refresh(scanned, configured), name, typ) ==> Settled(r, name, typ, parser))
            && (!LeavesOne(Refresh(scanned, configured), name, typ) ==> NameCount(r, name) != 1)
  {
    var known, found, listed := Slots(Named(existing)), Named(scanned), Named(configured);
    var slots := Scanned(known, found);
    NamedAllNamed(scanned);
    NamedAllNamed(configured);
    ScannedInOrder(known, found);
    ScannedCount(known, found, name);
    ConfiguredNames(known, slots, |found|, listed, name);
    if Count(found, name) == 1 {
      ScannedSettled(known, found, name, typ, parser);
      ConfiguredSettled(known, slots, |found|, listed, name, typ, parser);
    } else if Count(found, name) == 0 {
      NoneVerified(slots, name, typ, parser);
      ConfiguredTakesOver(known, slots, |found|, listed, name, typ, parser);
      RecordsOneIff(Mine(listed, name), typ);
      if OneRecord(Mine(listed, name), typ) {
        SettledOnce(MergedSlots(existing, scanned, configured), name, typ, parser);
      }
    } else {
      ConfiguredCount(known, slots, |found|, listed, name);
    }
  }

  /**
  Exact: one merge keeps a drive known, alone under its name and with its verified type and parser, if and only if it
  leaves one record of it.
   */
  lemma MergeKeepsKnownIff(existing: seq<Option<Info>>, scanned: seq<Option<Info>>, configured: seq<Option<Info>>,
                           name: string, typ: string, parser: string)
    requires KnownAs(existing, name, typ, parser)
    ensures KnownAs(Merged(existing, scanned, configured), name, typ, parser)
            <==> LeavesOne(Refresh(scanned, configured), name, typ)
  {
    if scanned != [] || configured != [] {
      MergedSettledIff(existing, scanned, configured, name, typ, parser);
      KnownFromSlots(MergedSlots(existing, scanned, configured), name, typ, parser);
    }
  }

  /** Over any number of refreshes that leave one record of it, a drive verified once keeps its type and parser. */
  lemma {:induction false} VerifiedForever(existing: seq<Option<Info>>, refreshes: seq<Refresh>, name: string,
                                           typ: string, parser: string)
    requires KnownAs(existing, name, typ, parser)
    requires forall i :: 0 <= i < |refreshes| ==> LeavesOne(refreshes[i], name, typ)
    ensures KnownAs(Refreshed(existing, refreshes), name, typ, parser)
  {
    if refreshes != [] {
      var init, last := refreshes[..|refreshes| - 1], refreshes[|refreshes| - 1];
      VerifiedForever(existing, init, name, typ, parser);
      MergeKeepsKnownIff(Refreshed(existing, init), last.scanned, last.configured, name, typ, parser);
    }
  }

  function Plain(name: string, typ: string): Info {
    Info(name, typ, "", "", false, "")
  }

  function Verified(name: string, typ: string, parser: string): Info {
    Info(name, typ, "", "", true, parser)
  }

  lemma NamedOf(a: Info)
    requires a.name != ""
    ensures Named([Some(a)]) == [a] && Slots([a]) == [SlotOf(a)] && Named([]) == []
  {
    assert [Some(a)][..0] == [] && [a][..0] == [];
  }

  lemma NamedPair(a: Info, b: Info)
    requires a.name != "" && b.name != ""
    ensures Named([Some(a), Some(b)]) == [a, b] && Slots([a, b]) == [SlotOf(a), SlotOf(b)]
  {
    NamedOf(a);
    assert [Some(a), Some(b)][..1] == [Some(a)] && [a, b][..1] == [a];
  }

  /** A scan that lists the drive twice under other types makes two verified records of it. */
  lemma ScannedTwice(name: string, typ: string, parser: string, a: string, b: string)
    requires name != "" && a != typ && b != typ
    ensures Merged([Some(Verified(name, typ, parser))], [Some(Plain(name, a)), Some(Plain(name, b))], [])
         == [Some(Verified(name, typ, parser)), Some(Verified(name, typ, parser))]
  {
    var v, x, y := Verified(name, typ, parser), Plain(name, a), Plain(name, b);
    NamedOf(v);
    NamedPair(x, y);
    var known := [SlotOf(v)];
    assert known[..0] == [] && NameCount(known, name) == 1 && OnlyNamed(known, name) == Some(0);
    assert LastWith(known, (name, a)) == None && LastWith(known, (name, b)) == None;
    assert [x, y][..1] == [x] && [x][..0] == [];
    assert Scanned(known, [x]) == [SlotOf(v)];
    assert Scanned(known, [x, y]) == [SlotOf(v), SlotOf(v)];
    assert Infos([SlotOf(v), SlotOf(v)]) == [Some(v), Some(v)];
  }

  /** And a later scan that lists it once, under another type, is matched to neither. */
  lemma ScannedOnceAfter(name: string, typ: string, parser: string, a: string)
    requires name != "" && a != typ
    ensures Merged([Some(Verified(name, typ, parser)), Some(Verified(name, typ, parser))], [Some(Plain(name, a))], [])
            == [Some(Plain(name, a))]
  {
    var v, x := Verified(name, typ, parser), Plain(name, a);
    NamedPair(v, v);
    NamedOf(x);
    var known := [SlotOf(v), SlotOf(v)];
    assert known[..1] == [SlotOf(v)] && [SlotOf(v)][..0] == [];
    assert NameCount([SlotOf(v)], name) == 1 && NameCount(known, name) == 2;
    assert LastWith([SlotOf(v)], (name, a)) == None && LastWith(known, (name, a)) == None;
    assert [x][..0] == [];
    assert Scanned(known, [x]) == [SlotOf(x)];
    assert Infos([SlotOf(x)]) == [Some(x)];
  }

  /** So verified metadata can be lost: one refresh scans a drive twice, the next scans it once under another type. */
  lemma VerifiedLost(name: string, typ: string, parser: string, a: string, b: string)
    requires name != "" && a != typ && b != typ
    ensures Refreshed([Some(Verified(name, typ, parser))],
                      [Refresh([Some(Plain(name, a)), Some(Plain(name, b))], []), Refresh([Some(Plain(name, a))], [])])
         == [Some(Plain(name, a))]
  {
    hide Merged;
    var v := Some(Verified(name, typ, parser));
    var first, second := Refresh([Some(Plain(name, a)), Some(Plain(name, b))], []), Refresh([Some(Plain(name, a))], []);
    ScannedTwice(name, typ, parser, a, b);
    ScannedOnceAfter(name, typ, parser, a);
    assert [first, second][..1] == [first] && [first][..0] == [];
    assert Refreshed([v], [first]) == [v, v];
  }
}
