/**
Replacing the agent's binary (agent/handler_push_binary.go): a file is written beside the installed one and promoted by
two renames. Every system call may fail, and a backup pruner may remove the .bak file between any two of them. A failing
rename, removal or stat changes nothing; a failing write leaves a partial file.
 */
module InstallBinary {

  /**
  What a path holds: the binary that was installed, the one being installed, an earlier one, or an incomplete one.
   */
  datatype File = Absent | Partial | Old | New | Earlier

  datatype Files = Files(path: File, bak: File, tmp: File)

  /** The system call installBinary makes next. */
  datatype Call =
    | MkdirAll | Open | Write | Sync | Close | DropTmp
    | RemoveBak | StatPath | Rotate | Promote | StatBak | Restore
    | Succeeded | Failed

  datatype Install = Install(next: Call, files: Files)

  predicate Over(c: Call) {
    c == Succeeded || c == Failed
  }

  /** Calls left on the longest way out. */
  function Rank(c: Call): nat {
    match c
    case MkdirAll => 10
    case Open => 9
    case Write => 8
    case Sync => 7
    case Close => 6
    case RemoveBak => 5
    case StatPath => 4
    case Rotate => 3
    case Promote => 2
    case StatBak => 1
    case Restore => 0
    case DropTmp => 0
    case Succeeded => 0
    case Failed => 0
  }

  /** Removing or renaming a missing file, or asking about one, fails whatever the system. */
  predicate Works(file: File, ok: bool) {
    ok && file != Absent
  }

  function Called(s: Install, ok: bool): Install {
    var f := s.files;
    match s.next
    case MkdirAll => s.(next := if ok then Open else Failed)
    case Open => if ok then Install(Write, f.(tmp := Partial)) else s.(next := Failed)
    case Write => if ok then Install(Sync, f.(tmp := New)) else Install(DropTmp, f.(tmp := Partial))
    case Sync => s.(next := if ok then Close else DropTmp)
    case Close => s.(next := if ok then RemoveBak else DropTmp)
    case DropTmp => Install(Failed, if Works(f.tmp, ok) then f.(tmp := Absent) else f)
    case RemoveBak => Install(StatPath, if Works(f.bak, ok) then f.(bak := Absent) else f)
    case StatPath => s.(next := if Works(f.path, ok) then Rotate else Promote)
    case Rotate => if Works(f.path, ok) then Install(Promote, f.(path := Absent, bak := f.path))
        else s.(next := DropTmp)
    case Promote => if Works(f.tmp, ok) then Install(Succeeded, f.(path := f.tmp, tmp := Absent))
        else s.(next := StatBak)
    case StatBak => s.(next := if Works(f.bak, ok) then Restore else Failed)
    case Restore => Install(Failed, if Works(f.bak, ok) then f.(path := f.bak, bak := Absent) else f)
    case Succeeded => s
    case Failed => s
  }

  /** schedulePruneOldBackup's removal. */
  function Pruned(s: Install, ok: bool): Install {
    if Works(s.files.bak, ok) then s.(files := s.files.(bak := Absent)) else s
  }

  datatype Step = Step(prune: bool, ok: bool)

  function Stepped(s: Install, step: Step): Install {
    if step.prune then Pruned(s, step.ok) else Called(s, step.ok)
  }

  /** The state after any interleaving, stopped anywhere. */
  function After(s: Install, steps: seq<Step>): Install {
    if steps == [] then s else Stepped(After(s, steps[..|steps| - 1]), steps[|steps| - 1])
  }

  function Start(files: Files): Install {
    Install(MkdirAll, files)
  }

  // ---------------------------------------------------------------- some complete binary is always there

  predicate Complete(f: File) {
    f == Old || f == New
  }

  /** The data being installed is complete once it has been written, and stays so until it is promoted. */
  predicate Written(c: Call) {
    c == Sync || c == Close || c == RemoveBak || c == StatPath || c == Rotate || c == Promote || c == StatBak
        || c == Restore
  }

  predicate Safe(s: Install) {
    var f := s.files;
    && f.path != Partial && f.bak != Partial
    && (Written(s.next) ==> f.tmp == New)
    && (s.next == Succeeded ==> f.path == New)
    && (f.path == Old || f.path == New || f.tmp == New)
    && (!Written(s.next) && s.next != Failed && s.next != Succeeded ==> f.path == Old)
    && (s.next == RemoveBak || s.next == StatPath || s.next == Rotate || s.next == Sync || s.next == Close ==>
        f.path == Old)
  }

  lemma {:induction false} AlwaysSafe(files: Files, steps: seq<Step>)
    requires files.path == Old && files.bak != Partial
    ensures Safe(After(Start(files), steps))
  {
    if steps != [] {
      AlwaysSafe(files, steps[..|steps| - 1]);
    }
  }

  /**
  Wherever the installer is stopped, whatever failed and whatever the pruner removed, one of the three paths holds the
  whole old or new binary, and the installed path never holds part of one.
   */
  lemma NeverLosesTheAgent(files: Files, steps: seq<Step>)
    requires files.path == Old && files.bak != Partial
    ensures var f := After(Start(files), steps).files;
            f.path != Partial && (Complete(f.path) || Complete(f.bak) || Complete(f.tmp))
  {
    AlwaysSafe(files, steps);
  }

  // ---------------------------------------------------------------- success

  predicate WrittenOk(s: Install) {
    (Written(s.next) ==> s.files.tmp == New) && (s.next == Succeeded ==> s.files.path == New)
  }

  /** Success means the new binary is installed, whatever was there before. */
  lemma {:induction false} SuccessInstalls(files: Files, steps: seq<Step>)
    ensures WrittenOk(After(Start(files), steps))
    ensures var s := After(Start(files), steps); s.next == Succeeded ==> s.files.path == New
  {
    if steps != [] {
      SuccessInstalls(files, steps[..|steps| - 1]);
    }
  }

  // ---------------------------------------------------------------- errors keep the old binary

  predicate NoPruning(steps: seq<Step>) {
    forall i :: 0 <= i < |steps| ==> !steps[i].prune
  }

  predicate KeepsOld(f: Files) {
    f.path == Old || f.bak == Old
  }

  predicate OldKept(s: Install) {
    || s.next == Succeeded
    || (s.files.path == Old && (s.next == StatBak || s.next == Restore ==> s.files.bak == Absent || s.files.bak == Old))
    || (s.files.bak == Old && s.files.path == Absent
        && (s.next == Promote || s.next == StatBak || s.next == Restore || s.next == Failed))
  }

  lemma {:induction false} OldKeptThroughout(files: Files, steps: seq<Step>)
    requires files.path == Old && (files.bak == Absent || files.bak == Old) && NoPruning(steps)
    ensures var s := After(Start(files), steps);
            OldKept(s) && (s.next != Failed && s.next != Succeeded && s.files.path == Old ==>
                           s.files.bak == Absent || s.files.bak == Old)
  {
    if steps != [] {
      OldKeptThroughout(files, steps[..|steps| - 1]);
    }
  }

  /** The failures that bring an earlier backup over the installed binary. */
  const MISHAP := [
    // the new file is written
    Step(false, true), Step(false, true), Step(false, true), Step(false, true), Step(false, true),
    // the backup is not removed, the installed binary is not seen, the promotion fails
    Step(false, false), Step(false, false), Step(false, false),
    // the backup is put in place
    Step(false, true), Step(false, true)]

  lemma MishapWrites(files: Files)
    requires files.path == Old
    ensures After(Start(files), MISHAP[..5]) == Install(RemoveBak, files.(tmp := New))
  {
    assert MISHAP[..5][..4] == MISHAP[..4] && MISHAP[..4][..3] == MISHAP[..3] && MISHAP[..3][..2] == MISHAP[..2];
    assert MISHAP[..2][..1] == MISHAP[..1] && MISHAP[..1][..0] == [];
    assert After(Start(files), []) == Start(files);
    assert After(Start(files), MISHAP[..1]) == Install(Open, files);
    assert After(Start(files), MISHAP[..2]) == Install(Write, files.(tmp := Partial));
    assert After(Start(files), MISHAP[..3]) == Install(Sync, files.(tmp := New));
    assert After(Start(files), MISHAP[..4]) == Install(Close, files.(tmp := New));
  }

  lemma MishapLosesOld(files: Files)
    requires files.path == Old && files.bak != Absent
    ensures NoPruning(MISHAP)
    ensures var s := After(Start(files), MISHAP); s.next == Failed && s.files == Files(files.bak, Absent, New)
  {
    var written := Install(RemoveBak, files.(tmp := New));
    MishapWrites(files);
    assert MISHAP[..6][..5] == MISHAP[..5] && MISHAP[..7][..6] == MISHAP[..6] && MISHAP[..8][..7] == MISHAP[..7];
    assert MISHAP[..9][..8] == MISHAP[..8] && MISHAP[..10][..9] == MISHAP[..9] && MISHAP[..10] == MISHAP;
    assert After(Start(files), MISHAP[..6]) == written.(next := StatPath);
    assert After(Start(files), MISHAP[..7]) == written.(next := Promote);
    assert After(Start(files), MISHAP[..8]) == written.(next := StatBak);
    assert After(Start(files), MISHAP[..9]) == written.(next := Restore);
  }

  /**
  Without pruning, every failed install leaves the old binary at the path or in .bak, for every pattern of failures,
  exactly when no other binary was in .bak to begin with.
   */
  lemma ErrorsKeepOldIff(files: Files)
    requires files.path == Old
    ensures (forall steps: seq<Step> :: NoPruning(steps) && After(Start(files), steps).next == Failed
                                        ==> KeepsOld(After(Start(files), steps).files))
            <==> files.bak == Absent || files.bak == Old
  {
    if files.bak != Absent && files.bak != Old {
      MishapLosesOld(files);
    } else {
      forall steps: seq<Step> | NoPruning(steps) && After(Start(files), steps).next == Failed
        ensures KeepsOld(After(Start(files), steps).files)
      {
        OldKeptThroughout(files, steps);
      }
    }
  }

  // ---------------------------------------------------------------- the procedure

  /** Call number i and the ones after it succeed or fail as the oracle says. */
  function Finish(s: Install, oracle: nat -> bool, i: nat): (r: Install)
    ensures Over(r.next)
    decreases if Over(s.next) then 0 else Rank(s.next) + 1
  {
    if Over(s.next) then s else Finish(Called(s, oracle(i)), oracle, i + 1)
  }

  class Disk {
    var files: Files
    var calls: nat
    const oracle: nat -> bool

    constructor (files: Files, oracle: nat -> bool)
      ensures this.files == files && this.calls == 0 && this.oracle == oracle
    {
      this.files, this.calls, this.oracle := files, 0, oracle;
    }

    /** How the machine would end from here. */
    ghost function Ends(next: Call): Install
      reads this
    {
      Finish(Install(next, files), oracle, calls)
    }

    /** The outcome of the next system call. */
    method Outcome() returns (ok: bool)
      modifies this`calls
      ensures ok == oracle(old(calls)) && calls == old(calls) + 1
    {
      ok := oracle(calls);
      calls := calls + 1;
    }

    method Rename(toBak: bool, fromBak: bool) returns (ok: bool)
      requires !(toBak && fromBak)
      modifies this
      ensures calls == old(calls) + 1
      ensures toBak ==> ok == Works(old(files).path, oracle(old(calls)))
                        && files == if ok then old(files).(path := Absent, bak := old(files).path) else old(files)
      ensures fromBak ==> ok == Works(old(files).bak, oracle(old(calls)))
                          && files == if ok then old(files).(path := old(files).bak, bak := Absent) else old(files)
      ensures !toBak && !fromBak ==> ok == Works(old(files).tmp, oracle(old(calls)))
                                     && files == if ok then old(files).(path := old(files).tmp, tmp := Absent)
                                         else old(files)
    {
      ok := Outcome();
      var source := if toBak then files.path else if fromBak then files.bak else files.tmp;
      ok := ok && source != Absent;
      if ok {
        files := if toBak then files.(path := Absent, bak := source)
                 else if fromBak then files.(path := source, bak := Absent)
                 else files.(path := source, tmp := Absent);
      }
    }

    method RemoveTmp()
      modifies this
      ensures calls == old(calls) + 1
      ensures files == if Works(old(files).tmp, oracle(old(calls))) then old(files).(tmp := Absent) else old(files)
    {
      var ok := Outcome();
      if Works(files.tmp, ok) {
        files := files.(tmp := Absent);
      }
    }

    method RemoveBackup()
      modifies this
      ensures calls == old(calls) + 1
      ensures files == if Works(old(files).bak, oracle(old(calls))) then old(files).(bak := Absent) else old(files)
    {
      var ok := Outcome();
      if Works(files.bak, ok) {
        files := files.(bak := Absent);
      }
    }

    method Stat(file: File) returns (found: bool)
      modifies this`calls
      ensures calls == old(calls) + 1 && found == Works(file, oracle(old(calls)))
    {
      var ok := Outcome();
      found := Works(file, ok);
    }

    /** The first half of installBinary: the new file is written, synced and closed. */
    method WriteNew() returns (ok: bool)
      modifies this
      ensures ok ==> Ends(RemoveBak) == old(Ends(MkdirAll))
      ensures !ok ==> Install(Failed, files) == old(Ends(MkdirAll))
    {
      hide Finish;
      Unfold(Install(MkdirAll, files), oracle, calls);
      ok := Outcome();
      Unfold(Install(if ok then Open else Failed, files), oracle, calls);
      if !ok {
        return;
      }
      ok := Outcome();
      if !ok {
        Unfold(Install(Failed, files), oracle, calls);
        return;
      }
      files := files.(tmp := Partial);
      Unfold(Install(Write, files), oracle, calls);
      ok := Outcome();
      if !ok {
        Clean();
        return;
      }
      files := files.(tmp := New);
      Unfold(Install(Sync, files), oracle, calls);
      ok := Outcome();
      if !ok {
        Clean();
        return;
      }
      Unfold(Install(Close, files), oracle, calls);
      ok := Outcome();
      if !ok {
        Clean();
      }
    }

    /** Removing the new file on an error exit. */
    method Clean()
      modifies this
      ensures Install(Failed, files) == old(Ends(DropTmp))
    {
      hide Finish;
      Unfold(Install(DropTmp, files), oracle, calls);
      RemoveTmp();
      Unfold(Install(Failed, files), oracle, calls);
    }

    /** The second half: the old binary is moved aside and the new one put in its place, or the old one put back. */
    method Swap() returns (ok: bool)
      modifies this
      ensures Install(if ok then Succeeded else Failed, files) == old(Ends(RemoveBak))
    {
      hide Finish;
      Unfold(Install(RemoveBak, files), oracle, calls);
      RemoveBackup();
      Unfold(Install(StatPath, files), oracle, calls);
      var found := Stat(files.path);
      if found {
        Unfold(Install(Rotate, files), oracle, calls);
        var rotated := Rename(true, false);
        if !rotated {
          Clean();
          return false;
        }
      }
      ok := Place();
    }

    method Place() returns (ok: bool)
      modifies this
      ensures Install(if ok then Succeeded else Failed, files) == old(Ends(Promote))
    {
      hide Finish;
      Unfold(Install(Promote, files), oracle, calls);
      ok := Rename(false, false);
      if ok {
        Unfold(Install(Succeeded, files), oracle, calls);
        return;
      }
      Unfold(Install(StatBak, files), oracle, calls);
      var found := Stat(files.bak);
      if found {
        Unfold(Install(Restore, files), oracle, calls);
        var _ := Rename(false, true);
      }
      Unfold(Install(Failed, files), oracle, calls);
    }

    /** installBinary */
    method InstallNew() returns (ok: bool)
      modifies this
      ensures Install(if ok then Succeeded else Failed, files) == old(Ends(MkdirAll))
    {
      hide Finish;
      ok := WriteNew();
      if ok {
        ok := Swap();
      }
    }
  }

  lemma Unfold(s: Install, oracle: nat -> bool, i: nat)
    ensures Finish(s, oracle, i) == if Over(s.next) then s else Finish(Called(s, oracle(i)), oracle, i + 1)
  {
  }

  /** The outcomes a procedure run meets, as steps of the machine. */
  ghost function Steps(s: Install, oracle: nat -> bool, i: nat): seq<Step>
    decreases if Over(s.next) then 0 else Rank(s.next) + 1
  {
    if Over(s.next) then [] else [Step(false, oracle(i))] + Steps(Called(s, oracle(i)), oracle, i + 1)
  }

  lemma {:induction false} AfterFirst(s: Install, step: Step, rest: seq<Step>)
    ensures After(s, [step] + rest) == After(Stepped(s, step), rest)
  {
    if rest == [] {
      assert [step] + rest == [step] && [step][..0] == [];
    } else {
      var all, init := [step] + rest, rest[..|rest| - 1];
      assert all[..|all| - 1] == [step] + init;
      AfterFirst(s, step, init);
    }
  }

  /** Each run of the procedure is one of the interleavings, without pruning: all of the above holds of it. */
  lemma {:induction false} ProcedureIsARun(s: Install, oracle: nat -> bool, i: nat)
    ensures NoPruning(Steps(s, oracle, i)) && After(s, Steps(s, oracle, i)) == Finish(s, oracle, i)
    decreases if Over(s.next) then 0 else Rank(s.next) + 1
  {
    if !Over(s.next) {
      var t := Called(s, oracle(i));
      ProcedureIsARun(t, oracle, i + 1);
      AfterFirst(s, Step(false, oracle(i)), Steps(t, oracle, i + 1));
    }
  }

  // ---------------------------------------------------------------- what the procedure leaves

  /** The new file is opened, written, synced and closed. */
  predicate WritesAll(oracle: nat -> bool) {
    oracle(0) && oracle(1) && oracle(2) && oracle(3) && oracle(4)
  }

  /** What is left in .bak before the renames. */
  function BackupLeft(files: Files, oracle: nat -> bool): File {
    if oracle(5) then Absent else files.bak
  }

  lemma WrittenThen(files: Files, oracle: nat -> bool)
    requires WritesAll(oracle)
    ensures Finish(Start(files), oracle, 0)
            == Finish(Install(StatPath, Files(files.path, BackupLeft(files, oracle), New)), oracle, 6)
  {
    hide Finish;
    Unfold(Start(files), oracle, 0);
    Unfold(Install(Open, files), oracle, 1);
    Unfold(Install(Write, files.(tmp := Partial)), oracle, 2);
    Unfold(Install(Sync, files.(tmp := New)), oracle, 3);
    Unfold(Install(Close, files.(tmp := New)), oracle, 4);
    Unfold(Install(RemoveBak, files.(tmp := New)), oracle, 5);
  }

  lemma NotWrittenThen(files: Files, oracle: nat -> bool)
    requires !WritesAll(oracle)
    ensures var r := Finish(Start(files), oracle, 0);
            r.next == Failed && r.files.path == files.path && r.files.bak == files.bak
  {
    hide Finish;
    Unfold(Start(files), oracle, 0);
    Unfold(Install(Failed, files), oracle, 1);
    if oracle(0) {
      Unfold(Install(Open, files), oracle, 1);
      Unfold(Install(Failed, files), oracle, 2);
      if oracle(1) {
        Unfold(Install(Write, files.(tmp := Partial)), oracle, 2);
        Unfold(Install(Sync, files.(tmp := New)), oracle, 3);
        Unfold(Install(Close, files.(tmp := New)), oracle, 4);
        DroppedThen(files.(tmp := Partial), oracle, 3);
        DroppedThen(files.(tmp := New), oracle, 4);
        DroppedThen(files.(tmp := New), oracle, 5);
      }
    }
  }

  lemma DroppedThen(files: Files, oracle: nat -> bool, i: nat)
    requires files.tmp != Absent
    ensures Finish(Install(DropTmp, files), oracle, i)
            == Install(Failed, if oracle(i) then files.(tmp := Absent) else files)
  {
  }

  /** The renames, from the promotion on. */
  lemma PlacedThen(path: File, bak: File, oracle: nat -> bool, i: nat)
    ensures Finish(Install(Promote, Files(path, bak, New)), oracle, i)
            == if oracle(i) then Install(Succeeded, Files(New, bak, Absent))
               else if bak != Absent && oracle(i + 1) && oracle(i + 2) then Install(Failed, Files(bak, Absent, New))
               else Install(Failed, Files(path, bak, New))
  {
    hide Finish;
    var f := Files(path, bak, New);
    Unfold(Install(Promote, f), oracle, i);
    Unfold(Install(Succeeded, Files(New, bak, Absent)), oracle, i + 1);
    Unfold(Install(StatBak, f), oracle, i + 1);
    Unfold(Install(Failed, f), oracle, i + 2);
    Unfold(Install(Restore, f), oracle, i + 2);
    Unfold(Install(Failed, f), oracle, i + 3);
    Unfold(Install(Failed, Files(bak, Absent, New)), oracle, i + 3);
  }

  lemma RotatedThen(path: File, bak: File, oracle: nat -> bool)
    ensures Finish(Install(StatPath, Files(path, bak, New)), oracle, 6)
            == if path == Absent || !oracle(6) then Finish(Install(Promote, Files(path, bak, New)), oracle, 7)
               else if oracle(7) then Finish(Install(Promote, Files(Absent, path, New)), oracle, 8)
               else Finish(Install(DropTmp, Files(path, bak, New)), oracle, 8)
  {
    hide Finish;
    Unfold(Install(StatPath, Files(path, bak, New)), oracle, 6);
    Unfold(Install(Rotate, Files(path, bak, New)), oracle, 7);
  }

  /**
  Exact: an install succeeds if and only if the new file was written and both renames worked, the first being skipped
  when there is nothing at the path or it is not seen. The new binary is then installed, the old one is the backup if it
  was moved, and nothing else is left over. Before the renames a failure touches neither the installed binary nor the
  backup; after them it puts back what the backup holds if it can.
   */
  lemma InstallLeaves(files: Files, oracle: nat -> bool)
    ensures var r, seen, bak := Finish(Start(files), oracle, 0), files.path != Absent && oracle(6),
                BackupLeft(files, oracle);
            && (r.next == Succeeded
                <==> WritesAll(oracle) && oracle(7) && (seen ==> oracle(8)))
            && (r.next == Succeeded ==> r.files == Files(New, if seen then files.path else bak, Absent))
            && (!WritesAll(oracle) ==> r.files.path == files.path && r.files.bak == files.bak)
            && (WritesAll(oracle) && seen && !oracle(7) ==>
                r.files == Files(files.path, bak, if oracle(8) then Absent else New))
            && (WritesAll(oracle) && seen && oracle(7) && !oracle(8) ==>
                r.files == if oracle(9) && oracle(10) then Files(files.path, Absent, New)
                           else Files(Absent, files.path, New))
            && (WritesAll(oracle) && !seen && !oracle(7) ==>
                r.files == if bak != Absent && oracle(8) && oracle(9) then Files(bak, Absent, New)
                           else Files(files.path, bak, New))
  {
    hide Finish;
    if WritesAll(oracle) {
      var bak := BackupLeft(files, oracle);
      WrittenThen(files, oracle);
      RotatedThen(files.path, bak, oracle);
      PlacedThen(files.path, bak, oracle, 7);
      PlacedThen(Absent, files.path, oracle, 8);
      DroppedThen(Files(files.path, bak, New), oracle, 8);
    } else {
      NotWrittenThen(files, oracle);
    }
  }
}
