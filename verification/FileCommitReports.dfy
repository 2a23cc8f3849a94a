/** What the commit of generator/commit/commit.go reports, told from the schedule of faults: at which
    call a run stopped, which list a target is in after the rollback, and what cleanup could not remove. */
module FileCommitReports {
  import opened FileSystem
  import opened FileCommit
  import opened FileCommitSafety
  import opened FileCommitTheorems

  // ---- Cleanup ----

  function Named(path: string): seq<string> { if path == "" then [] else [path] }

  // The paths cleanup removes, in order: each entry's temporary and backup name, and the lock.
  function ScratchPaths(journal: seq<JournalEntry>): seq<string>
  {
    if journal == [] then [LockName]
    else Named(journal[0].temp) + Named(journal[0].backup) + ScratchPaths(journal[1..])
  }

  // The paths whose removal, one call each from `clock` on, failed.
  function NotRemoved(sch: Schedule, clock: nat, paths: seq<string>): seq<string>
    decreases |paths|
  {
    if paths == [] then []
    else (if sch(clock).Works? then [] else [paths[0]]) + NotRemoved(sch, clock + 1, paths[1..])
  }

  ghost predicate RemovedBy(sch: Schedule, clock: nat, paths: seq<string>, p: string)
  {
    exists i :: 0 <= i < |paths| && paths[i] == p && sch(clock + i).Works?
  }

  // The state after one removal for each path.
  ghost predicate After(sch: Schedule, c: Cleaned, paths: seq<string>, end: Cleaned)
  {
    && end.world.clock == c.world.clock + |paths|
    && end.failures == c.failures + NotRemoved(sch, c.world.clock, paths)
    && (forall p: string :: p in end.world.disk <==>
                              p in c.world.disk && !RemovedBy(sch, c.world.clock, paths, p))
    && (forall p: string :: p in end.world.disk ==> end.world.disk[p] == c.world.disk[p])
  }

  lemma {:induction false} NothingRemoved(sch: Schedule, c: Cleaned)
    ensures After(sch, c, [], c)
  {
  }

  lemma {:induction false} OneRemoved(sch: Schedule, c: Cleaned, path: string)
    ensures After(sch, c, Named(path), if path != "" then Clear(sch, c, path) else c)
  {
    if path != "" {
      assert Named(path)[0] == path && Named(path)[1..] == [];
      assert NotRemoved(sch, c.world.clock, Named(path)) == if sch(c.world.clock).Works? then [] else [path];
      assert sch(c.world.clock + 0).Works? ==> RemovedBy(sch, c.world.clock, Named(path), path);
    }
  }

  lemma {:induction false} BothRemoved(
    sch: Schedule, c: Cleaned, first: seq<string>, middle: Cleaned, later: seq<string>, end: Cleaned)
    requires After(sch, c, first, middle) && After(sch, middle, later, end)
    ensures After(sch, c, first + later, end)
  {
    NotRemovedBoth(sch, c.world.clock, first, later);
    forall p: string
      ensures RemovedBy(sch, c.world.clock, first + later, p) <==>
                RemovedBy(sch, c.world.clock, first, p) || RemovedBy(sch, middle.world.clock, later, p)
    {
      RemovedByBoth(sch, c.world.clock, first, later, p);
    }
  }

  lemma {:induction false} RemovedByBoth(
    sch: Schedule, clock: nat, first: seq<string>, later: seq<string>, p: string)
    ensures RemovedBy(sch, clock, first + later, p) <==>
              RemovedBy(sch, clock, first, p) || RemovedBy(sch, clock + |first|, later, p)
  {
    var all := first + later;
    if RemovedBy(sch, clock, first, p) {
      var i :| 0 <= i < |first| && first[i] == p && sch(clock + i).Works?;
      assert all[i] == p;
    }
    if RemovedBy(sch, clock + |first|, later, p) {
      var i :| 0 <= i < |later| && later[i] == p && sch(clock + |first| + i).Works?;
      assert all[|first| + i] == p && sch(clock + (|first| + i)).Works?;
    }
    if RemovedBy(sch, clock, all, p) {
      var i :| 0 <= i < |all| && all[i] == p && sch(clock + i).Works?;
      if i >= |first| { assert later[i - |first|] == p && sch(clock + |first| + (i - |first|)).Works?; }
    }
  }

  lemma {:induction false} NotRemovedBoth(sch: Schedule, clock: nat, first: seq<string>, later: seq<string>)
    ensures NotRemoved(sch, clock, first + later) ==
            NotRemoved(sch, clock, first) + NotRemoved(sch, clock + |first|, later)
    decreases |first|
  {
    if first == [] {
      assert first + later == later;
    } else {
      assert (first + later)[1..] == first[1..] + later;
      NotRemovedBoth(sch, clock + 1, first[1..], later);
    }
  }

  lemma {:induction false} ClearedFrom(sch: Schedule, c: Cleaned, journal: seq<JournalEntry>)
    ensures After(sch, c, ScratchPaths(journal), Clear(sch, ClearFrom(sch, c, journal), LockName))
    decreases |journal|
  {
    hide Clear, After;
    if journal == [] {
      OneRemoved(sch, c, LockName);
    } else {
      var e := journal[0];
      var c' := if e.temp != "" then Clear(sch, c, e.temp) else c;
      OneRemoved(sch, c, e.temp);
      OneRemoved(sch, c', e.backup);
      BothRemoved(sch, c, Named(e.temp), c', Named(e.backup), ClearEntry(sch, c, e));
      ClearedFrom(sch, ClearEntry(sch, c, e), journal[1..]);
      BothRemoved(sch, c, Named(e.temp) + Named(e.backup), ClearEntry(sch, c, e), ScratchPaths(journal[1..]),
                  Clear(sch, ClearFrom(sch, c, journal), LockName));
    }
  }

  // Whatever fails, cleanup makes one call for each scratch path and the lock, reports exactly the paths
  // whose call failed, and removes exactly the others.
  lemma {:induction false} CleanupReports(sch: Schedule, w: World, journal: seq<JournalEntry>)
    ensures var end, paths := CleanupRun(sch, w, journal), ScratchPaths(journal);
            && end.world.clock == w.clock + |paths|
            && end.failures == NotRemoved(sch, w.clock, paths)
            && (forall p: string :: p in end.world.disk <==> p in w.disk && !RemovedBy(sch, w.clock, paths, p))
            && (forall p: string :: p in end.world.disk ==> end.world.disk[p] == w.disk[p])
  {
    ClearedFrom(sch, Cleaned(w, []), journal);
    assert [] + NotRemoved(sch, w.clock, ScratchPaths(journal)) == NotRemoved(sch, w.clock, ScratchPaths(journal));
  }

  // ---- Rollback ----

  datatype Undoing = IsRestored | IsRemoved | IsFailed

  function UndoingOf(sch: Schedule, clock: nat, e: JournalEntry): Undoing
  {
    if !sch(clock).Works? then IsFailed else if e.existedBefore then IsRestored else IsRemoved
  }

  // The names below `n`, last first, one call each from `clock` on, whose undoing went this way.
  function NamesOf(sch: Schedule, clock: nat, journal: seq<JournalEntry>, n: nat, undoing: Undoing): seq<string>
    requires n <= |journal|
    decreases n
  {
    if n == 0 then []
    else (if UndoingOf(sch, clock, journal[n - 1]) == undoing then [journal[n - 1].name] else [])
         + NamesOf(sch, clock + 1, journal, n - 1, undoing)
  }

  lemma {:induction false} RollbackResults(
    sch: Schedule, targets: seq<Target>, w: World, journal: seq<JournalEntry>, n: nat, result: RollbackResult,
    start: Disk, phases: seq<Phase>)
    requires CanUndo(targets, w, journal, n, start, phases)
    ensures n <= |journal|
    ensures Rollback(sch, w, journal, n, result).result ==
            RollbackResult(result.restored + NamesOf(sch, w.clock, journal, n, IsRestored),
                           result.removed + NamesOf(sch, w.clock, journal, n, IsRemoved),
                           result.failed + NamesOf(sch, w.clock, journal, n, IsFailed))
    decreases n
  {
    hide UndoOne, CanUndo, Sighted;
    assert n <= |journal| && n <= |targets| by { CanUndoBounds(targets, w, journal, n, start, phases); }
    if n > 0 {
      var next := UndoNext(sch, targets, w, journal, n, result, start, phases);
      var u := UndoOne(sch, w, journal[n - 1], result);
      RollbackResults(sch, targets, u.world, journal, n - 1, u.result, start, next);
    }
  }

  // Where target `i` of the undone ones stands when the whole rollback is over.
  ghost predicate UndoneAs(undoing: Undoing, t: Target, end: Disk, start: Disk)
  {
    match undoing
    case IsRestored => t.name in start && Same(end, start, t.name)
    case IsRemoved => t.name !in end
    case IsFailed => t.name in end && end[t.name] == Regular(t.contents)
  }

  // Whatever fails in a rollback, the lists say which targets are as before, which are gone and which
  // still have their new contents: a target is in the third exactly when its call failed.
  lemma {:induction false} RollbackReports(sch: Schedule, targets: seq<Target>, start: Disk, clock: nat)
    requires WellNamed(targets)
    requires !CommitRun(sch, Begin(start, clock), targets).stage.Committed?
    ensures var o, c := CommitRun(sch, Begin(start, clock), targets), RollbackClock(sch, targets, start, clock);
            && 0 < |o.journal| <= |targets|
            && var k := |o.journal| - 1;
            && o.rollback == RollbackResult(NamesOf(sch, c, o.journal, k, IsRestored),
                                            NamesOf(sch, c, o.journal, k, IsRemoved),
                                            NamesOf(sch, c, o.journal, k, IsFailed))
            && forall i :: 0 <= i < k ==>
                 UndoneAs(UndoingOf(sch, c + k - 1 - i, o.journal[i]), targets[i], o.world.disk, start)
  {
    hide CommitRun, CommitFrom, Rollback, Recorded, Stands, UndoneAs, AllSafe, AllWhole, Sighted, JournalRecorded;
    hide Phases, FailurePhases, PhaseUndone, UndoingOf, Managed, NamesOf;
    SameStage(sch, targets, start, clock);
    var p, k := FailureAt(sch, targets, start, clock);
    var failure := FailurePhases(targets, start, p);
    RollbackResults(sch, targets, p.world, p.journal, k, NoRollback, start, failure);
    var phases := RollbackGood(sch, targets, p.world, p.journal, k, NoRollback, start, failure);
    var end := Rollback(sch, p.world, p.journal, k, NoRollback).world.disk;
    forall i | 0 <= i < k
      ensures UndoneAs(UndoingOf(sch, p.world.clock + k - 1 - i, p.journal[i]), targets[i], end, start)
    {
      BelowFailure(targets, start, p, i);
      RecordedBelow(targets, p.journal[..k], start, i);
      StandsUndone(sch, p.world.clock + k - 1 - i, p.journal[i], targets[i], phases[i], end, start);
    }
    assert [] + NamesOf(sch, p.world.clock, p.journal, k, IsRestored)
        == NamesOf(sch, p.world.clock, p.journal, k, IsRestored);
    assert [] + NamesOf(sch, p.world.clock, p.journal, k, IsRemoved)
        == NamesOf(sch, p.world.clock, p.journal, k, IsRemoved);
    assert [] + NamesOf(sch, p.world.clock, p.journal, k, IsFailed)
        == NamesOf(sch, p.world.clock, p.journal, k, IsFailed);
  }

  lemma {:induction false} RecordedBelow(targets: seq<Target>, journal: seq<JournalEntry>, start: Disk, i: nat)
    requires i < |journal| <= |targets| && JournalRecorded(targets, journal, start)
    ensures Recorded(journal[i], targets[i], Committed, targets[i].name in start)
  {
  }

  lemma {:induction false} StandsUndone(
    sch: Schedule, clock: nat, e: JournalEntry, t: Target, phase: Phase, end: Disk, start: Disk)
    requires Recorded(e, t, Committed, t.name in start) && Stands(phase, t, end, start)
    requires phase == if sch(clock).Works? then PhaseUndone(e, t.name in start)
                      else PhaseAfter(e, Committed, t.name in start)
    ensures UndoneAs(UndoingOf(sch, clock, e), t, end, start)
  {
  }

  // ---- Where a run stops ----

  // Which call of an attempt a stage is about: create, write, sync, close, inspect, backup if there is
  // one, replace. After the last call the attempt is committed.
  function CallOf(stage: Stage, backedUp: bool): nat
  {
    match stage
    case AtCreate => 0
    case AtWrite => 1
    case AtSync => 2
    case AtClose => 3
    case AtBackup => 5
    case AtReplace => if backedUp then 6 else 5
    case Committed => if backedUp then 7 else 6
  }

  // The calls made for the entries before `i`, all of them committed.
  function CallsBefore(journal: seq<JournalEntry>, i: nat): nat
    requires i <= |journal|
  {
    if i == 0 then 0 else CallsBefore(journal, i - 1) + CallOf(Committed, journal[i - 1].existedBefore)
  }

  predicate CallWorks(sch: Schedule, s: nat, i: nat) { sch(s + i).Works? }

  // An attempt whose first call is at `s`: every call before the stage's worked, except perhaps the
  // inspection, and the stage's own call failed or found the temporary name taken. A backup is taken
  // exactly for a target that was seen.
  ghost predicate Attempted(
    sch: Schedule, s: nat, t: Target, e: JournalEntry, stage: Stage, start: Disk, end: Disk)
  {
    var n := CallOf(stage, e.existedBefore);
    && (forall i: nat :: i < n && i != 4 ==> CallWorks(sch, s, i))
    && (stage.Committed? || !CallWorks(sch, s, n) || (stage.AtCreate? && TempOf(t.name) in end))
    && (n > 4 ==> (e.existedBefore <==> CallWorks(sch, s, 4) && t.name in start))
  }

  lemma {:induction false} OneAttempt(sch: Schedule, w: World, t: Target, start: Disk)
    requires Same(w.disk, start, t.name) && t.name != TempOf(t.name)
    ensures var a := CommitOne(sch, w, t);
            && Attempted(sch, w.clock, t, a.entry, a.stage, start, a.world.disk)
            && (a.stage.Committed? ==> a.world.clock == w.clock + CallOf(Committed, a.entry.existedBefore))
  {
    hide BackUpAndReplace;
    var a, s := CommitOne(sch, w, t), w.clock;
    var closed := Flush(Flush(Write(sch, Create(sch, w, TempOf(t.name)), TempOf(t.name), t.contents)));
    if CallWorks(sch, s, 0) && TempOf(t.name) !in w.disk && CallWorks(sch, s, 1) && CallWorks(sch, s, 2)
       && CallWorks(sch, s, 3) {
      assert closed.clock == s + 4 && (t.name in closed.disk <==> t.name in start);
      OneSwap(sch, closed, JournalEntry(t.name, false, "", TempOf(t.name), false), s);
      assert a == BackUpAndReplace(sch, closed, JournalEntry(t.name, false, "", TempOf(t.name), false));
    }
  }

  lemma {:induction false} OneSwap(sch: Schedule, w: World, e: JournalEntry, s: nat)
    requires w.clock == s + 4 && !e.existedBefore && e.temp in w.disk && e.name != e.temp
    ensures var a := BackUpAndReplace(sch, w, e);
            var n := CallOf(a.stage, a.entry.existedBefore);
            && (a.stage.Committed? || a.stage.AtBackup? || a.stage.AtReplace?)
            && (a.entry.existedBefore <==> CallWorks(sch, s, 4) && e.name in w.disk)
            && (n > 5 ==> CallWorks(sch, s, 5)) && (n > 6 ==> CallWorks(sch, s, 6))
            && (a.stage.Committed? || !CallWorks(sch, s, n))
            && (a.stage.Committed? ==> a.world.clock == s + n)
  {
  }

  lemma {:induction false} CallsOfPrefix(journal: seq<JournalEntry>, e: JournalEntry, i: nat)
    requires i <= |journal|
    ensures CallsBefore(journal + [e], i) == CallsBefore(journal, i)
  {
    if i > 0 { CallsOfPrefix(journal, e, i - 1); }
  }

  ghost predicate AllAttempted(
    sch: Schedule, clock: nat, targets: seq<Target>, journal: seq<JournalEntry>, last: Stage, start: Disk, end: Disk)
  {
    && |journal| <= |targets|
    && forall i :: 0 <= i < |journal| ==>
         Attempted(sch, clock + CallsBefore(journal, i), targets[i], journal[i],
                   if i < |journal| - 1 then Committed else last, start, end)
  }

  lemma {:induction false} AttemptNext(
    sch: Schedule, clock: nat, targets: seq<Target>, journal: seq<JournalEntry>, e: JournalEntry, stage: Stage,
    start: Disk, disk: Disk, end: Disk)
    requires |journal| < |targets| && AllAttempted(sch, clock, targets, journal, Committed, start, disk)
    requires Attempted(sch, clock + CallsBefore(journal, |journal|), targets[|journal|], e, stage, start, end)
    ensures AllAttempted(sch, clock, targets, journal + [e], stage, start, end)
    ensures CallsBefore(journal + [e], |journal| + 1) ==
            CallsBefore(journal, |journal|) + CallOf(Committed, e.existedBefore)
  {
    hide Attempted, CallsBefore, CallOf;
    var n, all := |journal|, journal + [e];
    forall i | 0 <= i <= n
      ensures Attempted(sch, clock + CallsBefore(all, i), targets[i], all[i], if i < n then Committed else stage,
                        start, end)
    {
      CallsOfPrefix(journal, e, i);
      if i < n {
        CommittedAnywhere(sch, clock + CallsBefore(journal, i), targets[i], journal[i], start, disk, end);
      }
    }
    CallsOfNext(all, n);
    CallsOfPrefix(journal, e, n);
  }

  lemma {:induction false} CallsOfNext(journal: seq<JournalEntry>, i: nat)
    requires i < |journal|
    ensures CallsBefore(journal, i + 1) == CallsBefore(journal, i) + CallOf(Committed, journal[i].existedBefore)
  {
  }

  lemma {:induction false} FromAttempted(
    sch: Schedule, targets: seq<Target>, w: World, journal: seq<JournalEntry>, start: Disk, clock: nat)
    requires JournalRecorded(targets, journal, start) && Good(targets, w, start, Phases(targets, journal, start))
    requires w.clock == clock + CallsBefore(journal, |journal|)
    requires |journal| <= |targets| && AllAttempted(sch, clock, targets, journal, Committed, start, w.disk)
    ensures var p := CommitFrom(sch, w, targets, journal);
            && AllAttempted(sch, clock, targets, p.journal, p.stage, start, p.world.disk)
            && (p.stage.Committed? ==> |p.journal| == |targets|)
    decreases |targets| - |journal|
  {
    hide Good, CommitOne, Recorded, Phases, Attempted, AllAttempted, CallsBefore, Stands, CallOf;
    var n := |journal|;
    if n < |targets| {
      var a := CommitOne(sch, w, targets[n]);
      PhasesNext(targets, journal, a.entry, start);
      StandsAt(targets, w, start, Phases(targets, journal, start), n);
      NameNotTemp(targets, w, start, Phases(targets, journal, start), n);
      assert Same(w.disk, start, targets[n].name) by { UntouchedIsSame(targets[n], w.disk, start); }
      OneAttempt(sch, w, targets[n], start);
      OneGood(sch, targets, w, start, Phases(targets, journal, start), n);
      AttemptNext(sch, clock, targets, journal, a.entry, a.stage, start, w.disk, a.world.disk);
      if a.stage.Committed? { FromAttempted(sch, targets, a.world, journal + [a.entry], start, clock); }
    }
  }

  lemma {:induction false} UntouchedIsSame(t: Target, disk: Disk, start: Disk)
    requires Stands(Untouched, t, disk, start)
    ensures Same(disk, start, t.name)
  {
  }

  lemma {:induction false} CommittedAnywhere(
    sch: Schedule, s: nat, t: Target, e: JournalEntry, start: Disk, disk: Disk, end: Disk)
    requires Attempted(sch, s, t, e, Committed, start, disk)
    ensures Attempted(sch, s, t, e, Committed, start, end)
  {
  }

  // A run stops at the first call that fails, inspections apart, and its stage says which one it was; it
  // commits only if no other call failed.
  lemma {:induction false} RunStopsWhere(sch: Schedule, targets: seq<Target>, start: Disk, clock: nat)
    requires WellNamed(targets)
    ensures var o := CommitRun(sch, Begin(start, clock), targets);
            && AllAttempted(sch, clock, targets, o.journal, o.stage, start,
                            CommitFrom(sch, Begin(start, clock), targets, []).world.disk)
            && (o.stage.Committed? ==> |o.journal| == |targets|)
  {
    hide CommitFrom, CommitRun, Good;
    SameStage(sch, targets, start, clock);
    BeginGood(targets, start, clock);
    FromAttempted(sch, targets, Begin(start, clock), [], start, clock);
  }
}
