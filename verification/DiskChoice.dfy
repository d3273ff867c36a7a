/**
Choosing a disk (agent/disk.go): a device is picked from an unordered map of I/O counters by a total order, so the order
of iteration does not show; and discovery marks at most one filesystem as root. Names are normalised by a given
function.
 */
module DiskChoice {
  import opened Basics
  import opened Counters

  datatype Device = Device(name: string, alias: string, readBytes: Word, writeBytes: Word, readCount: Word,
                           writeCount: Word)

  datatype Candidate = Candidate(name: string, bytes: Word, ops: Word)

  type Devices = map<string, Device>

  // ---------------------------------------------------------------- order

  /** Strings compare character by character. */
  predicate Less(a: string, b: string) {
    if b == "" then false
    else if a == "" then true
    else a[0] < b[0] || (a[0] == b[0] && Less(a[1..], b[1..]))
  }

  lemma {:induction false} LessTotal(a: string, b: string)
    ensures Less(a, b) || Less(b, a) || a == b
    ensures !(Less(a, b) && Less(b, a)) && !Less(a, a)
  {
    if a != "" && b != "" {
      LessTotal(a[1..], b[1..]);
      if a[0] == b[0] && a[1..] == b[1..] {
        assert a == [a[0]] + a[1..] && b == [b[0]] + b[1..];
      }
    }
    if a != "" && b == "" {
      LessTotal(a[1..], a[1..]);
    }
  }

  lemma {:induction false} LessTransitive(a: string, b: string, c: string)
    requires Less(a, b) && Less(b, c)
    ensures Less(a, c)
  {
    if a != "" && a[0] == b[0] == c[0] {
      LessTransitive(a[1..], b[1..], c[1..]);
    }
  }

  /** More bytes, then more operations, then the smaller name. */
  predicate Beats(c: Candidate, d: Candidate) {
    || c.bytes > d.bytes
    || (c.bytes == d.bytes && c.ops > d.ops)
    || (c.bytes == d.bytes && c.ops == d.ops && Less(c.name, d.name))
  }

  lemma BeatsTotal(c: Candidate, d: Candidate)
    ensures Beats(c, d) || Beats(d, c) || c == d
    ensures !(Beats(c, d) && Beats(d, c))
  {
    LessTotal(c.name, d.name);
  }

  lemma BeatsTransitive(a: Candidate, b: Candidate, c: Candidate)
    requires Beats(a, b) && Beats(b, c)
    ensures Beats(a, c)
  {
    if Less(a.name, b.name) && Less(b.name, c.name) {
      LessTransitive(a.name, b.name, c.name);
    }
  }

  ghost predicate IsBest(cs: set<Candidate>, c: Candidate) {
    c in cs && forall d <- cs :: d == c || Beats(c, d)
  }

  /** A set has at most one best candidate: whatever order finds it finds the same one. */
  lemma BestIsUnique(cs: set<Candidate>, c: Candidate, d: Candidate)
    requires IsBest(cs, c) && IsBest(cs, d)
    ensures c == d
  {
    BeatsTotal(c, d);
  }

  lemma BestOneMore(cs: set<Candidate>, best: Candidate, c: Candidate)
    requires IsBest(cs, best)
    ensures IsBest(cs + {c}, if Beats(c, best) then c else best)
  {
    BeatsTotal(c, best);
    if Beats(c, best) {
      forall d <- cs + {c} ensures d == c || Beats(c, d) {
        if d != c && d != best {
          BeatsTransitive(c, best, d);
        }
      }
    }
  }

  function Members(cs: seq<Candidate>): set<Candidate> {
    set c | c in cs
  }

  // ---------------------------------------------------------------- choosing

  function CandidateOf(d: Device): Candidate {
    Candidate(d.name, (d.readBytes + d.writeBytes) % WORD, (d.readCount + d.writeCount) % WORD)
  }

  function Candidates(devices: Devices, keys: set<string>): set<Candidate>
    requires keys <= devices.Keys
  {
    set k | k in keys :: CandidateOf(devices[k])
  }

  predicate PrefixRelated(a: string, b: string) {
    a != "" && b != "" && a != b && (a <= b || b <= a)
  }

  predicate Exact(d: Device, wanted: string, norm: string -> string) {
    norm(d.name) == wanted || (d.alias != "" && norm(d.alias) == wanted)
  }

  predicate Related(d: Device, wanted: string, norm: string -> string) {
    PrefixRelated(norm(d.name), wanted) || (d.alias != "" && PrefixRelated(norm(d.alias), wanted))
  }

  /** The keys of the devices a name leads to when none answers to it exactly. */
  function RelatedKeys(devices: Devices, keys: set<string>, wanted: string, norm: string -> string): set<string>
    requires keys <= devices.Keys
  {
    set k | k in keys && Related(devices[k], wanted, norm)
  }

  /** The answer to a search: an exact match if there is one, or else the best of the related devices. */
  ghost predicate Answers(devices: Devices, wanted: string, norm: string -> string, r: Option<string>) {
    var related := Candidates(devices, RelatedKeys(devices, devices.Keys, wanted, norm));
    if wanted == "" then r == None
    else if exists k <- devices :: Exact(devices[k], wanted, norm) then
      r.Some? && exists k <- devices :: Exact(devices[k], wanted, norm) && devices[k].name == r.value
    else if related == {} then r == None
    else r.Some? && exists c <- related :: IsBest(related, c) && c.name == r.value
  }

  predicate OneExactName(devices: Devices, wanted: string, norm: string -> string) {
    forall j <- devices, k <- devices | Exact(devices[j], wanted, norm)
        && Exact(devices[k], wanted, norm) :: devices[j].name == devices[k].name
  }

  /** Two answers are the same when the exact matches have one name. */
  lemma AnswersAgree(devices: Devices, wanted: string, norm: string -> string, r: Option<string>, s: Option<string>)
    requires wanted == "" || OneExactName(devices, wanted, norm)
    requires Answers(devices, wanted, norm, r) && Answers(devices, wanted, norm, s)
    ensures r == s
  {
    var related := Candidates(devices, RelatedKeys(devices, devices.Keys, wanted, norm));
    if wanted != "" && !(exists k <- devices :: Exact(devices[k], wanted, norm)) && related != {} {
      var c :| c in related && IsBest(related, c) && c.name == r.value;
      var d :| d in related && IsBest(related, d) && d.name == s.value;
      BestIsUnique(related, c, d);
    }
  }

  // ---------------------------------------------------------------- iteration orders

  /** The order in which a loop over the map visits it. */
  predicate IsOrder(order: seq<string>, keys: set<string>) {
    && (forall k <- order :: k in keys) && (forall k <- keys :: k in order)
    && forall i, j :: 0 <= i < j < |order| ==> order[i] != order[j]
  }

  predicate Within(order: seq<string>, devices: Devices) {
    forall k <- order :: k in devices
  }

  /** Every map has an order. */
  lemma SomeOrder(keys: set<string>) returns (order: seq<string>)
    ensures IsOrder(order, keys)
    decreases |keys|
  {
    if keys == {} {
      order := [];
    } else {
      var k :| k in keys;
      var rest := SomeOrder(keys - {k});
      order := rest + [k];
    }
  }

  /** Any visits made so far can be completed to an order. */
  lemma Completion(seen: seq<string>, keys: set<string>) returns (rest: seq<string>)
    requires (forall k <- seen :: k in keys) && forall i, j :: 0 <= i < j < |seen| ==> seen[i] != seen[j]
    ensures IsOrder(seen + rest, keys)
  {
    var done := set k | k in seen;
    rest := SomeOrder(keys - done);
    assert forall k <- rest :: k !in done;
    forall k <- seen + rest ensures k in keys {
    }
    var all := seen + rest;
    forall i, j | 0 <= i < j < |all| ensures all[i] != all[j] {
      if i < |seen| <= j {
        assert seen[i] in done && rest[j - |seen|] in rest;
      } else if |seen| <= i {
        assert rest[i - |seen|] != rest[j - |seen|];
      }
    }
  }

  /** The exact match the loop returns: the first it meets. */
  function FirstExact(order: seq<string>, devices: Devices, wanted: string, norm: string -> string): Option<string>
    requires Within(order, devices)
  {
    if order == [] then None
    else
      var earlier, d := FirstExact(order[..|order| - 1], devices, wanted, norm), devices[order[|order| - 1]];
      if earlier.Some? then earlier else if Exact(d, wanted, norm) then Some(d.name) else None
  }

  /** The candidates the loop collects. */
  function Found(order: seq<string>, devices: Devices, wanted: string, norm: string -> string): seq<Candidate>
    requires Within(order, devices)
  {
    if order == [] then []
    else
      var d := devices[order[|order| - 1]];
      Found(order[..|order| - 1], devices, wanted, norm) + if Related(d, wanted, norm) then [CandidateOf(d)] else []
  }

  /** The second loop: a candidate replaces the best so far when it beats it. */
  function BestOf(found: seq<Candidate>): Candidate
    requires found != []
  {
    if |found| == 1 then found[0]
    else
      var best, c := BestOf(found[..|found| - 1]), found[|found| - 1];
      if Beats(c, best) then c else best
  }

  /** findIoDevice, with the map visited in the given order. */
  function Search(order: seq<string>, devices: Devices, wanted: string, norm: string -> string): Option<string>
    requires Within(order, devices)
  {
    if wanted == "" then None
    else if FirstExact(order, devices, wanted, norm).Some? then FirstExact(order, devices, wanted, norm)
    else
      var found := Found(order, devices, wanted, norm);
      if found == [] then None else Some(BestOf(found).name)
  }

  lemma {:induction false} FirstExactIs(order: seq<string>, devices: Devices, wanted: string, norm: string -> string)
    requires Within(order, devices)
    ensures var r := FirstExact(order, devices, wanted, norm);
            if r.Some? then exists k <- order :: Exact(devices[k], wanted, norm) && devices[k].name == r.value
            else forall k <- order :: !Exact(devices[k], wanted, norm)
  {
    if order != [] {
      var init, last := order[..|order| - 1], order[|order| - 1];
      FirstExactIs(init, devices, wanted, norm);
      assert order == init + [last];
      if FirstExact(init, devices, wanted, norm).Some? {
        var k :| k in init && Exact(devices[k], wanted, norm)
            && devices[k].name == FirstExact(init, devices, wanted, norm).value;
        assert k in order;
      } else {
        assert last in order;
      }
    }
  }

  lemma {:induction false} FirstExactPrefix(seen: seq<string>, rest: seq<string>, devices: Devices, wanted: string,
                                            norm: string -> string)
    requires Within(seen + rest, devices) && Within(seen, devices) && FirstExact(seen, devices, wanted, norm).Some?
    ensures FirstExact(seen + rest, devices, wanted, norm) == FirstExact(seen, devices, wanted, norm)
  {
    if rest == [] {
      assert seen + rest == seen;
    } else {
      var init := rest[..|rest| - 1];
      assert (seen + rest)[..|seen + rest| - 1] == seen + init;
      FirstExactPrefix(seen, init, devices, wanted, norm);
    }
  }

  lemma {:induction false} FoundMembers(order: seq<string>, devices: Devices, wanted: string, norm: string -> string,
                                        c: Candidate)
    requires Within(order, devices)
    ensures c in Found(order, devices, wanted, norm)
            <==> exists k <- order :: Related(devices[k], wanted, norm) && CandidateOf(devices[k]) == c
  {
    if order != [] {
      var init, last := order[..|order| - 1], order[|order| - 1];
      FoundMembers(init, devices, wanted, norm, c);
      assert order == init + [last];
      if c in Found(init, devices, wanted, norm) {
        var k :| k in init && Related(devices[k], wanted, norm) && CandidateOf(devices[k]) == c;
        assert k in order;
      } else if c in Found(order, devices, wanted, norm) {
        assert last in order;
      }
    }
  }

  lemma {:induction false} BestOfIsBest(found: seq<Candidate>)
    requires found != []
    ensures IsBest(Members(found), BestOf(found))
  {
    if |found| == 1 {
      assert Members(found) == {found[0]};
    } else {
      var init, c := found[..|found| - 1], found[|found| - 1];
      BestOfIsBest(init);
      BestOneMore(Members(init), BestOf(init), c);
      assert Members(found) == Members(init) + {c};
    }
  }

  lemma FoundIsRelated(order: seq<string>, devices: Devices, wanted: string, norm: string -> string)
    requires IsOrder(order, devices.Keys)
    ensures Members(Found(order, devices, wanted, norm))
            == Candidates(devices, RelatedKeys(devices, devices.Keys, wanted, norm))
  {
    var found, related := Found(order, devices, wanted, norm),
        Candidates(devices, RelatedKeys(devices, devices.Keys, wanted, norm));
    forall c ensures c in Members(found) <==> c in related {
      FoundMembers(order, devices, wanted, norm, c);
    }
  }

  /** Whatever the order, the search answers. */
  lemma SearchAnswers(order: seq<string>, devices: Devices, wanted: string, norm: string -> string)
    requires IsOrder(order, devices.Keys)
    ensures Answers(devices, wanted, norm, Search(order, devices, wanted, norm))
  {
    var found := Found(order, devices, wanted, norm);
    FirstExactIs(order, devices, wanted, norm);
    FoundIsRelated(order, devices, wanted, norm);
    if found != [] {
      BestOfIsBest(found);
    }
  }

  /** Every exact match is the answer for some order: the one that visits it first. */
  lemma ExactIsAnswered(devices: Devices, wanted: string, norm: string -> string, k: string)
    returns (order: seq<string>)
    requires wanted != "" && k in devices && Exact(devices[k], wanted, norm)
    ensures IsOrder(order, devices.Keys) && Search(order, devices, wanted, norm) == Some(devices[k].name)
  {
    var rest := Completion([k], devices.Keys);
    order := [k] + rest;
    assert [k][..0] == [];
    FirstExactPrefix([k], rest, devices, wanted, norm);
  }

  /** The search gives the same result for all orders of the map if and only if the exact matches have one name. */
  lemma SearchDeterminedIff(devices: Devices, wanted: string, norm: string -> string)
    ensures (forall o, p :: IsOrder(o, devices.Keys) && IsOrder(p, devices.Keys) ==>
               Search(o, devices, wanted, norm) == Search(p, devices, wanted, norm))
            <==> wanted == "" || OneExactName(devices, wanted, norm)
  {
    if wanted == "" || OneExactName(devices, wanted, norm) {
      forall o, p | IsOrder(o, devices.Keys) && IsOrder(p, devices.Keys)
        ensures Search(o, devices, wanted, norm) == Search(p, devices, wanted, norm)
      {
        SearchAnswers(o, devices, wanted, norm);
        SearchAnswers(p, devices, wanted, norm);
        AnswersAgree(devices, wanted, norm, Search(o, devices, wanted, norm), Search(p, devices, wanted, norm));
      }
    } else {
      var j, k :| j in devices && k in devices && Exact(devices[j], wanted, norm) && Exact(devices[k], wanted, norm)
                  && devices[j].name != devices[k].name;
      var o := ExactIsAnswered(devices, wanted, norm, j);
      var p := ExactIsAnswered(devices, wanted, norm, k);
      assert Search(o, devices, wanted, norm) != Search(p, devices, wanted, norm);
    }
  }

  lemma FoundNext(seen: seq<string>, k: string, devices: Devices, wanted: string, norm: string -> string)
    requires Within(seen, devices) && k in devices
    ensures Within(seen + [k], devices)
    ensures Found(seen + [k], devices, wanted, norm)
         == Found(seen, devices, wanted, norm)
            + if Related(devices[k], wanted, norm) then [CandidateOf(devices[k])] else []
    ensures FirstExact(seen, devices, wanted, norm).None? ==>
              FirstExact(seen + [k], devices, wanted, norm) == if Exact(devices[k], wanted, norm)
                  then Some(devices[k].name) else None
  {
    assert (seen + [k])[..|seen|] == seen;
  }

  /** findIoDevice: the result is that of the order in which the map happens to be visited. */
  method FindIoDevice(filesystem: string, devices: Devices, norm: string -> string)
    returns (r: Option<string>, ghost order: seq<string>)
    ensures IsOrder(order, devices.Keys) && r == Search(order, devices, norm(filesystem), norm)
    ensures Answers(devices, norm(filesystem), norm, r)
  {
    hide FirstExact, Found, Answers, Exact, Related;
    var wanted := norm(filesystem);
    if wanted == "" {
      order := SomeOrder(devices.Keys);
      SearchAnswers(order, devices, wanted, norm);
      return None, order;
    }
    var found: seq<Candidate> := [];
    var rest := devices.Keys;
    order := [];
    NothingSeen(devices, wanted, norm);
    while rest != {}
      invariant rest <= devices.Keys && IsOrder(order, devices.Keys - rest)
      invariant FirstExact(order, devices, wanted, norm).None? && found == Found(order, devices, wanted, norm)
    {
      var k :| k in rest;
      var d := devices[k];
      FoundNext(order, k, devices, wanted, norm);
      if Exact(d, wanted, norm) {
        ghost var more := Completion(order + [k], devices.Keys);
        FirstExactPrefix(order + [k], more, devices, wanted, norm);
        order := order + [k] + more;
        SearchAnswers(order, devices, wanted, norm);
        return Some(d.name), order;
      }
      if Related(d, wanted, norm) {
        found := found + [CandidateOf(d)];
      }
      rest := rest - {k};
      order := order + [k];
    }
    assert devices.Keys - {} == devices.Keys;
    SearchAnswers(order, devices, wanted, norm);
    if |found| == 0 {
      return None, order;
    }
    var best := PickBest(found);
    r := Some(best.name);
  }

  lemma NothingSeen(devices: Devices, wanted: string, norm: string -> string)
    ensures FirstExact([], devices, wanted, norm) == None && Found([], devices, wanted, norm) == []
  {
  }

  /** The loop over the candidates found. */
  method PickBest(found: seq<Candidate>) returns (best: Candidate)
    requires found != []
    ensures best == BestOf(found) && IsBest(Members(found), best)
  {
    best := found[0];
    assert found[..1] == [found[0]];
    for i := 1 to |found|
      invariant best == BestOf(found[..i])
    {
      assert found[..i + 1][..i] == found[..i];
      if Beats(found[i], best) {
        best := found[i];
      }
    }
    assert found[..|found|] == found;
    BestOfIsBest(found);
  }

  // ---------------------------------------------------------------- the most active device

  /** mostActiveIoDevice's loop, with the map visited in the given order; a best without a name is always replaced. */
  function MostActiveIn(order: seq<string>, devices: Devices): Candidate
    requires Within(order, devices)
  {
    if order == [] then Candidate("", 0, 0)
    else
      var best, c := MostActiveIn(order[..|order| - 1], devices), CandidateOf(devices[order[|order| - 1]]);
      if best.name == "" || Beats(c, best) then c else best
  }

  function Named(devices: Devices): set<Candidate> {
    set c | c in Candidates(devices, devices.Keys) && c.name != ""
  }

  function Nameless(devices: Devices): set<Candidate> {
    set c | c in Candidates(devices, devices.Keys) && c.name == ""
  }

  lemma NamedBest(cs: set<Candidate>) returns (b: Candidate)
    requires cs != {}
    ensures IsBest(cs, b)
    decreases |cs|
  {
    var c :| c in cs;
    var rest := cs - {c};
    assert cs == rest + {c};
    if rest == {} {
      b := c;
    } else {
      b := NamedBest(rest);
      BestOneMore(rest, b, c);
      assert rest + {c} == cs;
      b := if Beats(c, b) then c else b;
    }
  }

  lemma {:induction false} VisitedCandidates(order: seq<string>, devices: Devices)
    requires Within(order, devices)
    ensures MostActiveIn(order, devices) == Candidate("", 0, 0)
            || MostActiveIn(order, devices) in Candidates(devices, devices.Keys)
    ensures order == [] || MostActiveIn(order, devices) in Candidates(devices, devices.Keys)
  {
    if order != [] {
      var k := order[|order| - 1];
      VisitedCandidates(order[..|order| - 1], devices);
      assert k in devices.Keys;
      assert CandidateOf(devices[k]) in Candidates(devices, devices.Keys);
    }
  }

  /** Once the best named device has been visited it stays, if no device without a name beats it. */
  lemma {:induction false} BestStays(order: seq<string>, devices: Devices, b: Candidate, k: string)
    requires Within(order, devices) && IsBest(Named(devices), b) && forall e <- Nameless(devices) :: !Beats(e, b)
    requires k in order && CandidateOf(devices[k]) == b
    ensures MostActiveIn(order, devices) == b
  {
    var init, last := order[..|order| - 1], order[|order| - 1];
    var before, c := MostActiveIn(init, devices), CandidateOf(devices[last]);
    assert order == init + [last];
    VisitedCandidates(init, devices);
    assert c in Candidates(devices, devices.Keys);
    if k in init {
      BestStays(init, devices, b, k);
      assert c.name == "" ==> c in Nameless(devices);
      assert c.name != "" ==> c in Named(devices);
      BeatsTotal(b, c);
    } else if before.name != "" {
      assert before in Named(devices);
      BeatsTotal(b, before);
    }
  }

  /** Some named device is beaten by no device without a name; or there are no named devices. */
  ghost predicate NamesWin(devices: Devices) {
    Named(devices) == {} || exists c <- Named(devices) :: forall e <- Nameless(devices) :: !Beats(e, c)
  }

  lemma BestNamedWins(devices: Devices, b: Candidate)
    requires IsBest(Named(devices), b) && NamesWin(devices)
    ensures forall e <- Nameless(devices) :: !Beats(e, b)
  {
    var c :| c in Named(devices) && forall e <- Nameless(devices) :: !Beats(e, c);
    forall e <- Nameless(devices) ensures !Beats(e, b) {
      if Beats(e, b) && c != b {
        BeatsTransitive(e, b, c);
      }
    }
  }

  lemma NoNames(order: seq<string>, devices: Devices)
    requires IsOrder(order, devices.Keys) && Named(devices) == {}
    ensures MostActiveIn(order, devices).name == ""
  {
    VisitedCandidates(order, devices);
    var c := MostActiveIn(order, devices);
    assert c in Candidates(devices, devices.Keys) && c.name != "" ==> c in Named(devices);
  }

  /** When names win, the result is the best named device, whatever the order. */
  lemma MostActiveIsBest(order: seq<string>, devices: Devices, b: Candidate)
    requires IsOrder(order, devices.Keys) && IsBest(Named(devices), b) && NamesWin(devices)
    ensures MostActiveIn(order, devices) == b
  {
    BestNamedWins(devices, b);
    var k :| k in devices && CandidateOf(devices[k]) == b;
    BestStays(order, devices, b, k);
  }

  lemma KeyLast(devices: Devices, k: string) returns (order: seq<string>)
    requires k in devices
    ensures IsOrder(order, devices.Keys) && order != [] && order[|order| - 1] == k
  {
    var rest := SomeOrder(devices.Keys - {k});
    order := rest + [k];
  }

  /** A device without a name that beats all named ones wins when it is visited last, and loses when it is not. */
  lemma NamelessUndecided(devices: Devices, b: Candidate, e: Candidate) returns (o: seq<string>, p: seq<string>)
    requires IsBest(Named(devices), b) && e in Nameless(devices) && Beats(e, b)
    ensures IsOrder(o, devices.Keys) && IsOrder(p, devices.Keys)
    ensures MostActiveIn(o, devices).name == "" && MostActiveIn(p, devices).name == b.name != ""
  {
    var j :| j in devices && CandidateOf(devices[j]) == e;
    var k :| k in devices && CandidateOf(devices[k]) == b;
    o := KeyLast(devices, j);
    p := KeyLast(devices, k);
    var x, y := MostActiveIn(o[..|o| - 1], devices), MostActiveIn(p[..|p| - 1], devices);
    VisitedCandidates(o[..|o| - 1], devices);
    VisitedCandidates(p[..|p| - 1], devices);
    if x.name != "" {
      assert x in Named(devices);
      if x != b {
        BeatsTransitive(e, b, x);
      }
    }
    if y.name != "" {
      assert y in Named(devices);
    }
  }

  /** The most active device is the same for all orders if and only if no device without a name beats all named ones. */
  lemma MostActiveDeterminedIff(devices: Devices)
    ensures (forall o, p :: IsOrder(o, devices.Keys) && IsOrder(p, devices.Keys) ==>
               MostActiveIn(o, devices).name == MostActiveIn(p, devices).name)
            <==> NamesWin(devices)
  {
    if Named(devices) == {} {
      forall o, p | IsOrder(o, devices.Keys) && IsOrder(p, devices.Keys)
        ensures MostActiveIn(o, devices).name == MostActiveIn(p, devices).name
      {
        NoNames(o, devices);
        NoNames(p, devices);
      }
    } else {
      var b := NamedBest(Named(devices));
      if NamesWin(devices) {
        forall o, p | IsOrder(o, devices.Keys) && IsOrder(p, devices.Keys)
          ensures MostActiveIn(o, devices).name == MostActiveIn(p, devices).name
        {
          MostActiveIsBest(o, devices, b);
          MostActiveIsBest(p, devices, b);
        }
      } else {
        var e :| e in Nameless(devices) && Beats(e, b);
        var o, p := NamelessUndecided(devices, b, e);
        assert MostActiveIn(o, devices).name != MostActiveIn(p, devices).name;
      }
    }
  }

  /** mostActiveIoDevice */
  method MostActive(devices: Devices) returns (name: string, ghost order: seq<string>)
    ensures IsOrder(order, devices.Keys) && name == MostActiveIn(order, devices).name
    ensures (forall k <- devices :: devices[k].name != "") && devices != map[] ==>
              exists c <- Candidates(devices, devices.Keys) :: IsBest(Candidates(devices, devices.Keys), c)
                  && c.name == name
  {
    var best := Candidate("", 0, 0);
    var rest := devices.Keys;
    order := [];
    while rest != {}
      invariant rest <= devices.Keys && IsOrder(order, devices.Keys - rest)
      invariant best == MostActiveIn(order, devices)
    {
      var k :| k in rest;
      var c := CandidateOf(devices[k]);
      assert (order + [k])[..|order|] == order;
      if best.name == "" || Beats(c, best) {
        best := c;
      }
      rest := rest - {k};
      order := order + [k];
    }
    assert devices.Keys - {} == devices.Keys;
    name := best.name;
    AllNamed(devices, order);
  }

  lemma AllNamed(devices: Devices, order: seq<string>)
    requires IsOrder(order, devices.Keys)
    ensures (forall k <- devices :: devices[k].name != "") && devices != map[] ==>
              var all := Candidates(devices, devices.Keys);
              MostActiveIn(order, devices) in all && IsBest(all, MostActiveIn(order, devices))
  {
    if (forall k <- devices :: devices[k].name != "") && devices != map[] {
      var all := Candidates(devices, devices.Keys);
      var k :| k in devices;
      assert CandidateOf(devices[k]) in all;
      assert Named(devices) == all && Nameless(devices) == {};
      var b := NamedBest(all);
      MostActiveIsBest(order, devices, b);
    }
  }

  // ---------------------------------------------------------------- discovery

  datatype Fs = Fs(root: bool, mount: string)

  type FsStats = map<string, Fs>

  /** A filesystem to register: the key its device resolves to, and where it is mounted. */
  datatype Entry = Entry(key: string, mount: string)

  /** What FILESYSTEM leads to: a partition, an I/O device that is not a partition, or nothing. */
  datatype RootSetting = ByPartition(entry: Entry) | ByDevice(key: string) | Nowhere

  /**
  A partition: whether it looks like root, the I/O key that root would get, and its extra filesystem if it is one.
   */
  datatype Partition = Partition(looksLikeRoot: bool, rootKey: Option<string>, extra: Option<string>, mount: string)

  predicate BecomesRoot(p: Partition) {
    p.looksLikeRoot && p.rootKey.Some?
  }

  function ExtraKey(p: Partition): set<string> {
    if p.extra.Some? then {p.extra.value} else {}
  }

  function Keys(entries: seq<Entry>): set<string> {
    set i | 0 <= i < |entries| :: entries[i].key
  }

  /** The first partition that becomes root finds its key taken by an extra filesystem. */
  predicate Shadowed(taken: set<string>, partitions: seq<Partition>)
    decreases |partitions|
  {
    if partitions == [] then false
    else if BecomesRoot(partitions[0]) then partitions[0].rootKey.value in taken
    else Shadowed(taken + ExtraKey(partitions[0]), partitions[1..])
  }

  predicate NoRoot(fs: FsStats) {
    forall k <- fs :: !fs[k].root
  }

  predicate IsRoot(fs: FsStats, key: string) {
    key in fs && fs[key].root && forall k <- fs :: fs[k].root ==> k == key
  }

  ghost predicate OneRoot(fs: FsStats) {
    exists key :: IsRoot(fs, key)
  }

  // ---------------------------------------------------------------- what discovery registers

  /** addFsStat, once its key is resolved: a key that is taken stays as it is. */
  function WithFs(fs: FsStats, key: string, mount: string, root: bool): FsStats {
    if key in fs then fs else fs[key := Fs(root, mount)]
  }

  /** addConfiguredRootFs, from an empty map. */
  function WithSetting(setting: RootSetting, rootMount: string): FsStats {
    match setting
    case ByPartition(e) => map[e.key := Fs(true, e.mount)]
    case ByDevice(key) => map[key := Fs(true, rootMount)]
    case Nowhere => map[]
  }

  function WithExtras(fs: FsStats, entries: seq<Entry>): FsStats {
    if entries == [] then fs
    else var e := entries[|entries| - 1]; WithFs(WithExtras(fs, entries[..|entries| - 1]), e.key, e.mount, false)
  }

  /** The map and whether root has been found, after one partition. */
  function WithPartition(fs: FsStats, hasRoot: bool, p: Partition): (FsStats, bool) {
    var becomes := !hasRoot && BecomesRoot(p);
    var rooted := if becomes then WithFs(fs, p.rootKey.value, p.mount, true) else fs;
    (if p.extra.Some? then WithFs(rooted, p.extra.value, p.mount, false) else rooted, hasRoot || becomes)
  }

  function WithPartitions(fs: FsStats, hasRoot: bool, partitions: seq<Partition>): (FsStats, bool) {
    if partitions == [] then (fs, hasRoot)
    else
      var before := WithPartitions(fs, hasRoot, partitions[..|partitions| - 1]);
      WithPartition(before.0, before.1, partitions[|partitions| - 1])
  }

  /** Folders whose mountpoint is registered already are passed over. */
  function WithFolders(fs: FsStats, folders: seq<Entry>, mounts: set<string>): FsStats {
    if folders == [] then fs
    else
      var before, e := WithFolders(fs, folders[..|folders| - 1], mounts), folders[|folders| - 1];
      if e.mount in mounts then before else WithFs(before, e.key, e.mount, false)
  }

  function Mounts(fs: FsStats): set<string> {
    set k | k in fs :: fs[k].mount
  }

  datatype Usage = Usage(total: Word, used: Word)

  /** What disk.Usage gives for root, and for the mountpoint of each entry; a failed call gives nothing. */
  datatype Usages = Usages(root: Option<Usage>, entries: map<string, Usage>)

  /** withinUsageTolerance, of 16 MiB */
  predicate IsClose(a: Word, b: Word) {
    if a >= b then a - b <= 0x100_0000 else b - a <= 0x100_0000
  }

  /** hasSameDiskUsage */
  predicate SameUsage(a: Usage, b: Usage) {
    a.total != 0 && b.total != 0 && IsClose(a.total, b.total) && IsClose(a.used, b.used)
  }

  predicate Mirrors(key: string, usages: Usages) {
    usages.root.Some? && key in usages.entries && SameUsage(usages.root.value, usages.entries[key])
  }

  /** Extra filesystems with root's usage are dropped, if there is a root with a mountpoint. */
  function Deduplicated(fs: FsStats, usages: Usages): FsStats {
    if forall k <- fs :: fs[k].root ==> fs[k].mount == "" then fs
    else map k | k in fs && (fs[k].root || !Mirrors(k, usages)) :: fs[k]
  }

  /** What the phases before the pruning register. */
  function Registered(setting: RootSetting, rootMount: string, extras: seq<Entry>, partitions: seq<Partition>,
                      folders: seq<Entry>, lastResort: string): FsStats
  {
    var start := WithExtras(WithSetting(setting, rootMount), extras);
    var (fs, hasRoot) := WithPartitions(start, !setting.Nowhere?, partitions);
    var more := WithFolders(fs, folders, Mounts(fs));
    if hasRoot then more else more[lastResort := Fs(true, rootMount)]
  }

  /** initializeDiskInfo */
  function Discovered(setting: RootSetting, rootMount: string, extras: seq<Entry>, partitions: seq<Partition>,
                      folders: seq<Entry>, lastResort: string, usages: Usages): FsStats
  {
    Deduplicated(Registered(setting, rootMount, extras, partitions, folders, lastResort), usages)
  }

  // ---------------------------------------------------------------- root

  lemma WithFsRoot(fs: FsStats, key: string, mount: string)
    ensures NoRoot(fs) ==> NoRoot(WithFs(fs, key, mount, false))
    ensures OneRoot(fs) ==> OneRoot(WithFs(fs, key, mount, false))
  {
    if r :| IsRoot(fs, r) {
      assert IsRoot(WithFs(fs, key, mount, false), r);
    }
  }

  lemma {:induction false} WithExtrasRoot(fs: FsStats, entries: seq<Entry>)
    ensures NoRoot(fs) ==> NoRoot(WithExtras(fs, entries))
    ensures OneRoot(fs) ==> OneRoot(WithExtras(fs, entries))
    ensures WithExtras(fs, entries).Keys == fs.Keys + Keys(entries)
  {
    hide OneRoot, NoRoot;
    if entries != [] {
      var n := |entries| - 1;
      WithExtrasRoot(fs, entries[..n]);
      WithFsRoot(WithExtras(fs, entries[..n]), entries[n].key, entries[n].mount);
      KeysNext(entries, n);
      assert entries[..n + 1] == entries;
    }
  }

  lemma {:induction false} WithFoldersRoot(fs: FsStats, folders: seq<Entry>, mounts: set<string>)
    ensures NoRoot(fs) ==> NoRoot(WithFolders(fs, folders, mounts))
    ensures OneRoot(fs) ==> OneRoot(WithFolders(fs, folders, mounts))
  {
    hide OneRoot, NoRoot;
    if folders != [] {
      var n := |folders| - 1;
      WithFoldersRoot(fs, folders[..n], mounts);
      WithFsRoot(WithFolders(fs, folders[..n], mounts), folders[n].key, folders[n].mount);
    }
  }

  lemma DeduplicatedRoot(fs: FsStats, usages: Usages)
    ensures NoRoot(fs) ==> Deduplicated(fs, usages) == fs
    ensures OneRoot(fs) ==> OneRoot(Deduplicated(fs, usages))
  {
    if r :| IsRoot(fs, r) {
      assert IsRoot(Deduplicated(fs, usages), r);
    }
  }

  lemma PartitionRoot(fs: FsStats, hasRoot: bool, p: Partition)
    ensures var (after, found) := WithPartition(fs, hasRoot, p);
            && (OneRoot(fs) && hasRoot ==> OneRoot(after) && found)
            && (NoRoot(fs) && hasRoot ==> NoRoot(after) && found)
            && (NoRoot(fs) && !hasRoot && !BecomesRoot(p) ==>
                NoRoot(after) && !found && after.Keys == fs.Keys + ExtraKey(p))
            && (NoRoot(fs) && !hasRoot && BecomesRoot(p) ==>
                  found && if p.rootKey.value in fs then NoRoot(after) else OneRoot(after))
  {
    var becomes := !hasRoot && BecomesRoot(p);
    var rooted := if becomes then WithFs(fs, p.rootKey.value, p.mount, true) else fs;
    if becomes && NoRoot(fs) && p.rootKey.value !in fs {
      assert IsRoot(rooted, p.rootKey.value);
    }
    if p.extra.Some? {
      WithFsRoot(rooted, p.extra.value, p.mount);
    }
  }

  /** Once root has been looked for and found, or found taken, partitions change nothing about it. */
  lemma {:induction false} PartitionsFirst(fs: FsStats, hasRoot: bool, partitions: seq<Partition>)
    requires partitions != []
    ensures var (after, found) := WithPartition(fs, hasRoot, partitions[0]);
            WithPartitions(fs, hasRoot, partitions) == WithPartitions(after, found, partitions[1..])
  {
    var n := |partitions| - 1;
    if n == 0 {
      assert partitions[..0] == [] && partitions[1..] == [];
    } else {
      PartitionsFirst(fs, hasRoot, partitions[..n]);
      assert partitions[..n][1..] == partitions[1..][..n - 1];
    }
  }

  lemma {:induction false} PartitionsRoot(fs: FsStats, hasRoot: bool, partitions: seq<Partition>)
    ensures var (after, found) := WithPartitions(fs, hasRoot, partitions);
            && (OneRoot(fs) && hasRoot ==> OneRoot(after) && found)
            && (NoRoot(fs) && hasRoot ==> NoRoot(after) && found)
            && (NoRoot(fs) && !hasRoot ==> if !found then NoRoot(after) && !Shadowed(fs.Keys, partitions)
                                           else if Shadowed(fs.Keys, partitions) then NoRoot(after) else OneRoot(after))
    decreases |partitions|
  {
    hide OneRoot, NoRoot, WithPartition;
    if partitions != [] {
      var (next, found) := WithPartition(fs, hasRoot, partitions[0]);
      PartitionRoot(fs, hasRoot, partitions[0]);
      PartitionsFirst(fs, hasRoot, partitions);
      PartitionsRoot(next, found, partitions[1..]);
    }
  }

  lemma NothingIsRoot()
    ensures NoRoot(map[])
  {
  }

  lemma LastResortRoot(fs: FsStats, key: string, mount: string)
    ensures NoRoot(fs) ==> OneRoot(fs[key := Fs(true, mount)])
  {
    if NoRoot(fs) {
      assert IsRoot(fs[key := Fs(true, mount)], key);
    }
  }

  lemma RegisteredRoot(setting: RootSetting, rootMount: string, extras: seq<Entry>, partitions: seq<Partition>,
                       folders: seq<Entry>, lastResort: string)
    ensures var fs := Registered(setting, rootMount, extras, partitions, folders, lastResort);
            if setting.Nowhere? && Shadowed(Keys(extras), partitions) then NoRoot(fs) else OneRoot(fs)
  {
    var start := WithSetting(setting, rootMount);
    if !setting.Nowhere? {
      assert IsRoot(start, if setting.ByPartition? then setting.entry.key else setting.key);
    }
    hide OneRoot, NoRoot, WithExtras, WithFolders, WithPartitions;
    NothingIsRoot();
    WithExtrasRoot(start, extras);
    assert setting.Nowhere? ==> WithExtras(start, extras).Keys == Keys(extras);
    PartitionsRoot(WithExtras(start, extras), !setting.Nowhere?, partitions);
    var fs := WithPartitions(WithExtras(start, extras), !setting.Nowhere?, partitions).0;
    WithFoldersRoot(fs, folders, Mounts(fs));
    LastResortRoot(WithFolders(fs, folders, Mounts(fs)), lastResort, rootMount);
  }

  /**
  Exact: discovery ends with one root entry, unless no setting named it and the partition taken for root had its key
  registered already, and then with none.
   */
  lemma RootIff(setting: RootSetting, rootMount: string, extras: seq<Entry>, partitions: seq<Partition>,
                folders: seq<Entry>, lastResort: string, usages: Usages)
    ensures var fs := Discovered(setting, rootMount, extras, partitions, folders, lastResort, usages);
            if setting.Nowhere? && Shadowed(Keys(extras), partitions) then NoRoot(fs) else OneRoot(fs)
  {
    hide Deduplicated, Registered, OneRoot, NoRoot;
    RegisteredRoot(setting, rootMount, extras, partitions, folders, lastResort);
    DeduplicatedRoot(Registered(setting, rootMount, extras, partitions, folders, lastResort), usages);
  }

  /** The root partition is also configured as an extra filesystem, and nothing is marked root. */
  lemma RootlessHappens(usages: Usages)
    ensures Discovered(Nowhere, "/", [Entry("sda1", "/")], [Partition(true, Some("sda1"), None, "/")], [], "sdb",
                       usages)
         == map["sda1" := Fs(false, "/")]
  {
    var extras, parts, only := [Entry("sda1", "/")], [Partition(true, Some("sda1"), None, "/")],
        map["sda1" := Fs(false, "/")];
    assert extras[..0] == [] && parts[..0] == [];
    assert WithExtras(map[], extras) == only;
    assert WithPartitions(only, false, parts) == (only, true);
  }

  class Discovery {
    var fsStats: FsStats

    constructor ()
      ensures fsStats == map[]
    {
      fsStats := map[];
    }

    /** addFsStat */
    method AddFsStat(key: string, mount: string, root: bool)
      modifies this
      ensures fsStats == WithFs(old(fsStats), key, mount, root)
    {
      if key !in fsStats {
        fsStats := fsStats[key := Fs(root, mount)];
      }
    }

    /** addConfiguredRootFs */
    method AddConfiguredRoot(setting: RootSetting, rootMount: string) returns (hasRoot: bool)
      requires fsStats == map[]
      modifies this
      ensures hasRoot <==> !setting.Nowhere?
      ensures fsStats == WithSetting(setting, rootMount)
    {
      match setting
      case ByPartition(e) =>
        AddFsStat(e.key, e.mount, true);
        return true;
      case ByDevice(key) =>
        fsStats := fsStats[key := Fs(true, rootMount)];
        return true;
      case Nowhere => return false;
    }

    /** addConfiguredExtraFilesystems */
    method AddExtras(entries: seq<Entry>)
      modifies this
      ensures fsStats == WithExtras(old(fsStats), entries)
    {
      for i := 0 to |entries|
        invariant fsStats == WithExtras(old(fsStats), entries[..i])
      {
        assert entries[..i + 1][..i] == entries[..i];
        AddFsStat(entries[i].key, entries[i].mount, false);
      }
      assert entries[..|entries|] == entries;
    }

    /** The loop over the partitions: the first that becomes root ends the search for it. */
    method AddPartitions(partitions: seq<Partition>, known: bool) returns (hasRoot: bool)
      modifies this
      ensures (fsStats, hasRoot) == WithPartitions(old(fsStats), known, partitions)
    {
      hasRoot := known;
      for i := 0 to |partitions|
        invariant (fsStats, hasRoot) == WithPartitions(old(fsStats), known, partitions[..i])
      {
        assert partitions[..i + 1][..i] == partitions[..i];
        var p := partitions[i];
        if !hasRoot && p.looksLikeRoot {
          if p.rootKey.Some? {
            AddFsStat(p.rootKey.value, p.mount, true);
            hasRoot := true;
          }
        }
        if p.extra.Some? {
          AddFsStat(p.extra.value, p.mount, false);
        }
      }
      assert partitions[..|partitions|] == partitions;
    }

    /** addExtraFilesystemFolders */
    method AddFolders(folders: seq<Entry>)
      modifies this
      ensures fsStats == WithFolders(old(fsStats), folders, Mounts(old(fsStats)))
    {
      var mounts := set k | k in fsStats :: fsStats[k].mount;
      for i := 0 to |folders|
        invariant fsStats == WithFolders(old(fsStats), folders[..i], mounts)
      {
        assert folders[..i + 1][..i] == folders[..i];
        if folders[i].mount in mounts {
          continue;
        }
        AddFsStat(folders[i].key, folders[i].mount, false);
      }
      assert folders[..|folders|] == folders;
    }

    /** The mountpoint of a root entry, or nothing; which entry, if there are several, is up to the map. */
    method RootMountpoint() returns (mount: string)
      ensures mount == "" ==> NoRoot(fsStats) || exists j <- fsStats :: fsStats[j].root && fsStats[j].mount == ""
      ensures mount != "" ==> exists k <- fsStats :: fsStats[k].root && fsStats[k].mount == mount
    {
      var rest := fsStats.Keys;
      while rest != {}
        invariant rest <= fsStats.Keys && forall k <- fsStats :: fsStats[k].root ==> k in rest
      {
        var k :| k in rest;
        if fsStats[k].root {
          return fsStats[k].mount;
        }
        rest := rest - {k};
      }
      return "";
    }

    /** pruneDuplicateRootExtraFilesystems, given what the usages are. */
    method PruneDuplicates(usages: Usages)
      requires NoRoot(fsStats) || OneRoot(fsStats)
      modifies this
      ensures fsStats == Deduplicated(old(fsStats), usages)
    {
      var mount := RootMountpoint();
      if mount == "" {
        return;
      }
      var rest := fsStats.Keys;
      while rest != {}
        invariant rest <= old(fsStats).Keys
        invariant forall k <- rest :: k in fsStats
        invariant fsStats
               == map k | k in old(fsStats) && (old(fsStats)[k].root || !Mirrors(k, usages)
                                                || k in rest) :: old(fsStats)[k]
      {
        var k :| k in rest;
        if !fsStats[k].root && Mirrors(k, usages) {
          fsStats := fsStats - {k};
        }
        rest := rest - {k};
      }
    }

    /** initializeDiskInfo */
    method Initialize(setting: RootSetting, rootMount: string, extras: seq<Entry>, partitions: seq<Partition>,
                      folders: seq<Entry>, lastResort: string, usages: Usages)
      requires fsStats == map[]
      modifies this
      ensures fsStats == Discovered(setting, rootMount, extras, partitions, folders, lastResort, usages)
      ensures if setting.Nowhere? && Shadowed(Keys(extras), partitions) then NoRoot(fsStats) else OneRoot(fsStats)
    {
      hide WithExtras, WithPartitions, WithFolders, Deduplicated, Mounts, NoRoot, OneRoot;
      RegisteredRoot(setting, rootMount, extras, partitions, folders, lastResort);
      RootIff(setting, rootMount, extras, partitions, folders, lastResort, usages);
      var hasRoot := AddConfiguredRoot(setting, rootMount);
      AddExtras(extras);
      hasRoot := AddPartitions(partitions, hasRoot);
      AddFolders(folders);
      if !hasRoot {
        fsStats := fsStats[lastResort := Fs(true, rootMount)];
      }
      PruneDuplicates(usages);
    }
  }

  lemma KeysNext(entries: seq<Entry>, i: nat)
    requires i < |entries|
    ensures Keys(entries[..i + 1]) == Keys(entries[..i]) + {entries[i].key}
  {
    var more := entries[..i + 1];
    assert forall j :: 0 <= j < i ==> more[j] == entries[..i][j];
    assert more[i] == entries[i];
    forall k <- Keys(entries[..i]) ensures k in Keys(more) {
      var j :| 0 <= j < i && entries[..i][j].key == k;
      assert more[j].key == k;
    }
    assert more[i].key in Keys(more);
  }
}
