/**
What the merge of SMART devices (agent/smart.go) does with one record: which earlier record it is matched to, which
record a configured device overrides, and what it comes out as.
 */
module SmartLaws {
  import opened Basics
  import opened SmartMerge

  // ---------------------------------------------------------------- lookups

  /** Slot i is the last under its key. */
  predicate IsLast(slots: seq<Slot>, i: nat, name: string, typ: string) {
    i < |slots| && slots[i].key == (name, typ) && forall j :: i < j < |slots| ==> slots[j].key != (name, typ)
  }

  /** Slot i is the only one of its name among the first n. */
  predicate IsOnly(slots: seq<Slot>, n: nat, i: nat, name: string)
    requires n <= |slots|
  {
    i < n && slots[i].key.0 == name && forall j :: 0 <= j < n && j != i ==> slots[j].key.0 != name
  }

  predicate HasKey(slots: seq<Slot>, name: string, typ: string) {
    exists i :: 0 <= i < |slots| && slots[i].key == (name, typ)
  }

  lemma {:induction false} LastIs(slots: seq<Slot>, name: string, typ: string)
    ensures LastWith(slots, (name, typ)).Some? <==> HasKey(slots, name, typ)
    ensures LastWith(slots, (name, typ)).Some? ==> IsLast(slots, LastWith(slots, (name, typ)).value, name, typ)
  {
    if slots != [] {
      var n := |slots| - 1;
      LastIs(slots[..n], name, typ);
      assert forall i :: 0 <= i < n ==> slots[..n][i] == slots[i];
      if HasKey(slots[..n], name, typ) {
        var i :| 0 <= i < n && slots[..n][i].key == (name, typ);
        assert slots[i].key == (name, typ);
      }
    }
  }

  lemma OnlyIs(slots: seq<Slot>, name: string)
    ensures OnlyNamed(slots, name).Some? ==> IsOnly(slots, |slots|, OnlyNamed(slots, name).value, name)
  {
    if OnlyNamed(slots, name).Some? {
      var i := OnlyNamed(slots, name).value;
      forall j | 0 <= j < |slots| && j != i ensures slots[j].key.0 != name {
        if slots[j].key.0 == name {
          OnlyOne(slots, name, i, j);
        }
      }
    }
  }

  lemma OnlyIsFound(slots: seq<Slot>, i: nat, name: string)
    requires IsOnly(slots, |slots|, i, name)
    ensures OnlyNamed(slots, name) == Some(i)
  {
    OneCounted(slots, i, name);
    OnlyIs(slots, name);
  }

  lemma {:induction false} NoneCounted(slots: seq<Slot>, name: string)
    requires forall j :: 0 <= j < |slots| ==> slots[j].key.0 != name
    ensures NameCount(slots, name) == 0
  {
    if slots != [] {
      NoneCounted(slots[..|slots| - 1], name);
    }
  }

  lemma {:induction false} OneCounted(slots: seq<Slot>, i: nat, name: string)
    requires IsOnly(slots, |slots|, i, name)
    ensures NameCount(slots, name) == 1
  {
    var n := |slots| - 1;
    var init := slots[..n];
    assert forall j :: 0 <= j < n ==> init[j] == slots[j];
    if i == n {
      NoneCounted(init, name);
    } else {
      assert IsOnly(init, n, i, name);
      OneCounted(init, i, name);
    }
  }

  // ---------------------------------------------------------------- the earlier record

  /** Record i is the one a device is matched to: the last with its name and type, or without one its only namesake. */
  predicate IsMatch(slots: seq<Slot>, n: nat, d: Info, i: nat)
    requires n <= |slots|
  {
    IsLast(slots, i, d.name, d.typ) || (!HasKey(slots, d.name, d.typ) && IsOnly(slots, n, i, d.name))
  }

  /** Exact: a configured device overrides the record it is matched to, its only namesake being a scanned one. */
  lemma TargetIff(slots: seq<Slot>, n: nat, c: Info, i: nat)
    requires n <= |slots|
    ensures Target(slots, n, c) == Some(i) <==> IsMatch(slots, n, c, i)
  {
    hide LastWith, OnlyNamed;
    LastIs(slots, c.name, c.typ);
    var first := slots[..n];
    OnlyIs(first, c.name);
    assert forall j :: 0 <= j < n ==> first[j] == slots[j];
    if IsOnly(slots, n, i, c.name) {
      assert IsOnly(first, |first|, i, c.name);
      OnlyIsFound(first, i, c.name);
    }
  }

  lemma EarlierIff(slots: seq<Slot>, d: Info)
    ensures Earlier(slots, d).Some? <==> exists i: nat :: IsMatch(slots, |slots|, d, i)
    ensures forall i: nat :: IsMatch(slots, |slots|, d, i) ==> Earlier(slots, d) == Some(slots[i].info)
  {
    hide LastWith, OnlyNamed;
    assert slots[..|slots|] == slots;
    var target := Target(slots, |slots|, d);
    assert Earlier(slots, d) == if target.Some? then Some(slots[target.value].info) else None;
    forall i: nat ensures IsMatch(slots, |slots|, d, i) <==> target == Some(i) {
      TargetIff(slots, |slots|, d, i);
    }
  }

  // ---------------------------------------------------------------- what records come out as

  predicate IsVerifiedMatch(known: seq<Slot>, d: Info, i: nat) {
    IsMatch(known, |known|, d, i) && known[i].info.verified
  }

  /** A scanned device takes over the type and parser of the record it is matched to if they were verified. */
  lemma ScannedIs(known: seq<Slot>, scanned: seq<Info>, i: nat)
    requires AllNamed(scanned) && i < |scanned|
    ensures var r, d := Scanned(known, scanned)[i], scanned[i];
            && r.key == KeyOf(r.info)
            && (forall j: nat :: IsVerifiedMatch(known, d, j) ==>
                  r.info == Info(d.name, known[j].info.typ, d.infoName, d.protocol, true, known[j].info.parser))
            && ((forall j: nat :: !IsVerifiedMatch(known, d, j)) ==> r.info == d)
  {
    hide Earlier, IsVerifiedMatch;
    ScannedInOrder(known, scanned);
    KeptIs(known, scanned[i]);
    InRange(known, scanned[i]);
  }

  lemma InRange(known: seq<Slot>, d: Info)
    ensures forall j: nat :: IsVerifiedMatch(known, d, j) ==> j < |known|
  {
  }

  lemma KeptIs(known: seq<Slot>, d: Info)
    ensures var r := Preserved(d, Earlier(known, d));
            && (forall j: nat :: IsVerifiedMatch(known, d, j) ==>
                  r == Info(d.name, known[j].info.typ, d.infoName, d.protocol, true, known[j].info.parser))
            && ((forall j: nat :: !IsVerifiedMatch(known, d, j)) ==> r == d)
  {
    hide Earlier;
    EarlierIff(known, d);
    if j: nat :| IsMatch(known, |known|, d, j) {
      assert known[j].info.verified ==> IsVerifiedMatch(known, d, j);
    }
  }

  /**
  A configured device that overrides no record becomes one, with what had been verified of an earlier record of it; a
  device seen for the first time has its parser from its type, if it is given one.
   */
  lemma AddedIs(known: seq<Slot>, c: Info)
    ensures var r := Added(known, c);
            && (forall j: nat :: IsVerifiedMatch(known, c, j) ==>
                  r == Info(c.name, known[j].info.typ, c.infoName, c.protocol, true, known[j].info.parser))
            && ((exists j: nat :: IsMatch(known, |known|, c, j)) && (forall j: nat :: !IsVerifiedMatch(known, c, j)) ==>
                r == c)
            && ((forall j: nat :: !IsMatch(known, |known|, c, j)) ==>
                r == c.(parser := if |c.typ| > 0 then NormalizeParserType(c.typ) else c.parser))
  {
    hide Earlier, NormalizeParserType;
    EarlierIff(known, c);
    KeptIs(known, c);
  }
}
