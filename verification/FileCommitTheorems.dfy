/** The guarantees of generator/commit/doc.go over whole runs: every state on the way,
    the state after a failure and its rollback, and the state after cleanup. */
module FileCommitTheorems {
  import opened FileSystem
  import opened FileCommit
  import opened FileCommitSafety

  // A run starts on a disk, at any point of the fault schedule.
  function Begin(start: Disk, clock: nat): World { World(start, clock, [start]) }

  lemma {:induction false} BeginGood(targets: seq<Target>, start: Disk, clock: nat)
    requires WellNamed(targets)
    ensures Good(targets, Begin(start, clock), start, Phases(targets, [], start))
  {
    assert [start][0] == start;
  }

  lemma {:induction false} RunStopped(sch: Schedule, targets: seq<Target>, start: Disk, clock: nat)
    requires WellNamed(targets)
    ensures Stopped(targets, CommitFrom(sch, Begin(start, clock), targets, []), start)
  {
    BeginGood(targets, start, clock);
    FromGood(sch, targets, Begin(start, clock), [], start);
  }

  // The phases in which a run hands over: those of the committed entries, and of the one it stopped at.
  function FailurePhases(targets: seq<Target>, start: Disk, p: Progress): (r: seq<Phase>)
    requires 0 < |p.journal| <= |targets|
    ensures |r| == |targets|
  {
    var k := |p.journal| - 1;
    Phases(targets, p.journal[..k], start)[k := PhaseAfter(p.journal[k], p.stage, targets[k].name in start)]
  }

  // A failed run is a stop at target k followed by a rollback of the entries below k.
  lemma {:induction false} FailureAt(sch: Schedule, targets: seq<Target>, start: Disk, clock: nat)
    returns (p: Progress, k: nat)
    requires WellNamed(targets)
    requires !CommitFrom(sch, Begin(start, clock), targets, []).stage.Committed?
    ensures p == CommitFrom(sch, Begin(start, clock), targets, [])
    ensures |p.journal| == k + 1 && k < |targets|
    ensures CanUndo(targets, p.world, p.journal, k, start, FailurePhases(targets, start, p))
    ensures Recorded(p.journal[k], targets[k], p.stage, targets[k].name in start)
    ensures JournalRecorded(targets, p.journal[..k], start)
    ensures var u := Rollback(sch, p.world, p.journal, k, NoRollback);
            CommitRun(sch, Begin(start, clock), targets) == Outcome(u.world, p.journal, p.stage, u.result)
  {
    p := CommitFrom(sch, Begin(start, clock), targets, []);
    hide CommitFrom, Rollback, Good, Recorded, PhaseAfter, Phases;
    RunStopped(sch, targets, start, clock);
    k := |p.journal| - 1;
    hide FailurePhases;
    forall i | 0 <= i < k
      ensures Recorded(p.journal[i], targets[i], Committed, targets[i].name in start)
      ensures FailurePhases(targets, start, p)[i] == PhaseAfter(p.journal[i], Committed, targets[i].name in start)
    {
      BelowFailure(targets, start, p, i);
    }
  }

  lemma {:induction false} BelowFailure(targets: seq<Target>, start: Disk, p: Progress, i: nat)
    requires 0 < |p.journal| <= |targets| && i < |p.journal| - 1
    ensures p.journal[..|p.journal| - 1][i] == p.journal[i]
    ensures FailurePhases(targets, start, p)[i] == PhaseAfter(p.journal[i], Committed, targets[i].name in start)
  {
    hide PhaseAfter;
  }

  // No inspection of a target that was there failed before the target was replaced.
  ghost predicate NoneBlind(targets: seq<Target>, journal: seq<JournalEntry>, start: Disk)
  {
    forall i :: 0 <= i < |journal| && i < |targets| ==> !Blind(journal[i], targets[i].name in start)
  }

  lemma {:induction false} SightedFailure(targets: seq<Target>, start: Disk, p: Progress)
    requires 0 < |p.journal| <= |targets| && !p.stage.Committed?
    requires forall i :: 0 <= i < |p.journal| ==> (p.journal[i].committed <==> i < |p.journal| - 1)
    ensures Sighted(FailurePhases(targets, start, p)) <==> NoneBlind(targets, p.journal, start)
  {
    var k, phases := |p.journal| - 1, FailurePhases(targets, start, p);
    forall i | 0 <= i < |targets|
      ensures phases[i].Overwritten? <==> i <= k && Blind(p.journal[i], targets[i].name in start)
      ensures !phases[i].Lost?
    {
      assert i < k ==> p.journal[..k][i] == p.journal[i];
    }
    assert forall i :: 0 <= i <= k ==> (phases[i].Overwritten? <==> Blind(p.journal[i], targets[i].name in start));
  }

  lemma {:induction false} SightedSuccess(targets: seq<Target>, start: Disk, journal: seq<JournalEntry>)
    requires |journal| == |targets| && JournalRecorded(targets, journal, start)
    ensures Sighted(Phases(targets, journal, start)) <==> NoneBlind(targets, journal, start)
  {
    var phases := Phases(targets, journal, start);
    forall i | 0 <= i < |targets|
      ensures phases[i].Overwritten? <==> Blind(journal[i], targets[i].name in start)
      ensures !phases[i].Lost?
    {
      assert Recorded(journal[i], targets[i], Committed, targets[i].name in start);
    }
  }

  lemma {:induction false} CommittedBelow(targets: seq<Target>, p: Progress, start: Disk)
    requires 0 < |p.journal| <= |targets| && !p.stage.Committed?
    requires var k := |p.journal| - 1;
             && JournalRecorded(targets, p.journal[..k], start)
             && Recorded(p.journal[k], targets[k], p.stage, targets[k].name in start)
    ensures forall i :: 0 <= i < |p.journal| ==> (p.journal[i].committed <==> i < |p.journal| - 1)
  {
    var k := |p.journal| - 1;
    forall i | 0 <= i < k ensures p.journal[i].committed {
      assert p.journal[..k][i] == p.journal[i];
    }
  }

  // At every step of every run, under every fault schedule, every target is as before, or holds
  // its complete new contents, or is absent; and no path that is not the commit's own has
  // changed. Unless the inspection of a target that was there failed, a target that is absent or
  // new has its old node, if any, at its backup.
  lemma {:induction false} EveryStateSafe(sch: Schedule, targets: seq<Target>, start: Disk, clock: nat)
    requires WellNamed(targets)
    ensures var o := CommitRun(sch, Begin(start, clock), targets);
            && AllWhole(targets, o.world.past, start)
            && (NoneBlind(targets, o.journal, start) ==> AllSafe(targets, o.world.past, start))
  {
    hide CommitFrom, CommitRun, Rollback, AllSafe, AllWhole, Standing, Recorded, NoneBlind, Sighted;
    hide FailurePhases, Phases;
    SameStage(sch, targets, start, clock);
    if CommitFrom(sch, Begin(start, clock), targets, []).stage.Committed? {
      RunStopped(sch, targets, start, clock);
      SightedSuccess(targets, start, CommitRun(sch, Begin(start, clock), targets).journal);
    } else {
      hide CanUndo;
      var p, k := FailureAt(sch, targets, start, clock);
      CommittedBelow(targets, p, start);
      SightedFailure(targets, start, p);
      var phases := RollbackGood(sch, targets, p.world, p.journal, k, NoRollback, start,
                                 FailurePhases(targets, start, p));
    }
  }

  // A failed run lists every committed target exactly once, whatever fails in the rollback.
  lemma {:induction false} RollbackListsEachOnce(sch: Schedule, targets: seq<Target>, start: Disk, clock: nat)
    requires WellNamed(targets)
    requires !CommitRun(sch, Begin(start, clock), targets).stage.Committed?
    ensures var o := CommitRun(sch, Begin(start, clock), targets);
            && 0 < |o.journal| <= |targets|
            && Listed(o.rollback) == NamesBelow(targets, |o.journal| - 1)
  {
    hide CommitRun, CommitFrom, CanUndo, Rollback, Listed, NamesBelow, Recorded, JournalRecorded;
    SameStage(sch, targets, start, clock);
    var p, k := FailureAt(sch, targets, start, clock);
    RollbackLists(sch, targets, p.world, p.journal, k, NoRollback, start, FailurePhases(targets, start, p));
    NothingListed(NamesBelow(targets, k));
  }

  lemma {:induction false} NothingListed(m: multiset<string>)
    ensures Listed(NoRollback) + m == m
  {
  }

  lemma {:induction false} SameStage(sch: Schedule, targets: seq<Target>, start: Disk, clock: nat)
    ensures var o, p := CommitRun(sch, Begin(start, clock), targets), CommitFrom(sch, Begin(start, clock), targets, []);
            o.stage == p.stage && o.journal == p.journal && (p.stage.Committed? ==> o.world == p.world)
  {
    hide CommitFrom, Rollback;
  }

  // The point of the schedule at which rollback begins.
  function RollbackClock(sch: Schedule, targets: seq<Target>, start: Disk, clock: nat): nat
  {
    CommitFrom(sch, Begin(start, clock), targets, []).world.clock
  }

  // The replacing rename of the last target failed after its backup was taken.
  predicate LeftAside(o: Outcome)
    requires 0 < |o.journal|
  {
    o.stage.AtReplace? && o.journal[|o.journal| - 1].existedBefore
  }

  // Where target `i` stands after a failed run and its rollback.
  function PhaseAtEnd(o: Outcome, targets: seq<Target>, start: Disk, i: nat): Phase
    requires 0 < |o.journal| <= |targets| && i < |targets|
  {
    if i < |o.journal| - 1 then PhaseUndone(o.journal[i], targets[i].name in start)
    else if i == |o.journal| - 1 && LeftAside(o) then SetAside
    else Untouched
  }

  // After a failure at target k and a rollback without faults every target is as before, but for
  // two kinds: target k if it was left aside, its old node at its backup, and a target replaced
  // after its inspection failed, which is gone.
  lemma {:induction false} FailedRunRestores(sch: Schedule, targets: seq<Target>, start: Disk, clock: nat)
    requires WellNamed(targets)
    requires WorksFrom(sch, RollbackClock(sch, targets, start, clock))
    requires !CommitRun(sch, Begin(start, clock), targets).stage.Committed?
    ensures var o := CommitRun(sch, Begin(start, clock), targets);
            && 0 < |o.journal| <= |targets|
            && var k := |o.journal| - 1;
            && (forall i :: 0 <= i < |targets| ==>
                  Stands(PhaseAtEnd(o, targets, start, i), targets[i], o.world.disk, start))
            && (forall p: string :: !Managed(targets, start, p) ==> Same(o.world.disk, start, p))
            && o.rollback == RollbackResult(Backward(o.journal, k, true), Backward(o.journal, k, false), [])
            && Recorded(o.journal[k], targets[k], o.stage, targets[k].name in start)
            && JournalRecorded(targets, o.journal[..k], start)
  {
    hide CommitRun, CommitFrom, Rollback, Recorded, Stands, Managed, Same, AllSafe, AllWhole, Sighted, JournalRecorded;
    hide Phases;
    SameStage(sch, targets, start, clock);
    var p, k := FailureAt(sch, targets, start, clock);
    var failure := FailurePhases(targets, start, p);
    RollbackClean(sch, targets, p.world, p.journal, k, NoRollback, start, failure);
    var phases := RollbackGood(sch, targets, p.world, p.journal, k, NoRollback, start, failure);
    FailureTail(targets, start, p);
    assert [] + Backward(p.journal, k, true) == Backward(p.journal, k, true);
    assert [] + Backward(p.journal, k, false) == Backward(p.journal, k, false);
  }

  lemma {:induction false} FailureTail(targets: seq<Target>, start: Disk, p: Progress)
    requires 0 < |p.journal| <= |targets| && !p.stage.Committed?
    ensures var phases, k := FailurePhases(targets, start, p), |p.journal| - 1;
            && phases[k] == (if p.stage.AtReplace? && p.journal[k].existedBefore then SetAside else Untouched)
            && forall i :: k < i < |targets| ==> phases[i] == Untouched
  {
  }

  // ---- Cleanup ----

  function Scratch(e: JournalEntry): set<string>
  {
    (if e.temp != "" then {e.temp} else {}) + (if e.backup != "" then {e.backup} else {})
  }

  function ScratchOf(journal: seq<JournalEntry>): set<string>
  {
    if journal == [] then {} else Scratch(journal[0]) + ScratchOf(journal[1..])
  }

  lemma {:induction false} ClearWorks(sch: Schedule, c: Cleaned, path: string)
    requires WorksFrom(sch, c.world.clock)
    ensures var c' := Clear(sch, c, path);
            c'.world.disk == c.world.disk - {path} && c'.failures == c.failures && WorksFrom(sch, c'.world.clock)
  {
    assert sch(c.world.clock).Works?;
    if path !in c.world.disk { assert c.world.disk - {path} == c.world.disk; }
  }

  lemma {:induction false} ClearFromWorks(sch: Schedule, c: Cleaned, journal: seq<JournalEntry>)
    requires WorksFrom(sch, c.world.clock)
    ensures var c' := ClearFrom(sch, c, journal);
            c'.world.disk == c.world.disk - ScratchOf(journal) && c'.failures == c.failures
                && WorksFrom(sch, c'.world.clock)
    decreases |journal|
  {
    hide Clear, WorksFrom;
    if journal == [] {
      assert c.world.disk - {} == c.world.disk;
    } else {
      var e := journal[0];
      var c1 := if e.temp != "" then Clear(sch, c, e.temp) else c;
      ClearWorks(sch, c, e.temp);
      ClearWorks(sch, c1, e.backup);
      var c2 := ClearEntry(sch, c, e);
      assert c2.world.disk == c.world.disk - Scratch(e);
      ClearFromWorks(sch, c2, journal[1..]);
      assert c.world.disk - Scratch(e) - ScratchOf(journal[1..]) == c.world.disk - ScratchOf(journal);
    }
  }

  // A cleanup without faults removes the scratch files and the lock, and nothing else.
  lemma {:induction false} CleanupWorks(sch: Schedule, w: World, journal: seq<JournalEntry>)
    requires WorksFrom(sch, w.clock)
    ensures var c := CleanupRun(sch, w, journal);
            c.failures == [] && c.world.disk == w.disk - ScratchOf(journal) - {LockName}
  {
    ClearFromWorks(sch, Cleaned(w, []), journal);
    ClearWorks(sch, ClearFrom(sch, Cleaned(w, []), journal), LockName);
  }

  lemma {:induction false} InScratch(journal: seq<JournalEntry>, p: string)
    ensures p in ScratchOf(journal) <==> exists e <- journal :: p in Scratch(e)
  {
    if journal != [] {
      InScratch(journal[1..], p);
      assert journal == [journal[0]] + journal[1..];
    }
  }

  // The scratch names of a recorded journal are no target's name.
  lemma {:induction false} ScratchApart(targets: seq<Target>, journal: seq<JournalEntry>, n: nat, j: nat)
    requires WellNamed(targets) && |journal| <= |targets| && j < |targets| && n <= |journal|
    requires forall i :: 0 <= i < |journal| ==>
               journal[i].temp == TempOf(targets[i].name) && journal[i].backup in {"", BackupOf(targets[i].name)}
    ensures targets[j].name !in ScratchOf(journal[n..])
    decreases |journal| - n
  {
    if n < |journal| {
      assert journal[n..][1..] == journal[n + 1..];
      ScratchApart(targets, journal, n + 1, j);
      assert targets[j].name !in Scratch(journal[n]);
    }
  }

  lemma {:induction false} JournalNames(targets: seq<Target>, o: Outcome, start: Disk)
    requires 0 < |o.journal| <= |targets|
    requires JournalRecorded(targets, o.journal[..|o.journal| - 1], start)
    requires var k := |o.journal| - 1; Recorded(o.journal[k], targets[k], o.stage, targets[k].name in start)
    ensures forall i :: 0 <= i < |o.journal| ==>
              o.journal[i].temp == TempOf(targets[i].name) && o.journal[i].backup in {"", BackupOf(targets[i].name)}
  {
    var k := |o.journal| - 1;
    forall i | 0 <= i < k
      ensures o.journal[i].temp == TempOf(targets[i].name) && o.journal[i].backup in {"", BackupOf(targets[i].name)}
    {
      assert o.journal[..k][i] == o.journal[i];
    }
  }

  // Rollback and cleanup without faults give every target back exactly when none was left aside
  // and none was replaced after its inspection failed. Those targets are lost: gone from their
  // place, and the one left aside from its backup.
  lemma {:induction false} FailedRunKeepsAllExactlyWhen(sch: Schedule, targets: seq<Target>, start: Disk, clock: nat)
    requires WellNamed(targets)
    requires WorksFrom(sch, RollbackClock(sch, targets, start, clock))
    requires !CommitRun(sch, Begin(start, clock), targets).stage.Committed?
    ensures var o := CommitRun(sch, Begin(start, clock), targets);
            var end := CleanupRun(sch, o.world, o.journal).world.disk;
            && 0 < |o.journal| <= |targets|
            && ((forall t <- targets :: Same(end, start, t.name)) <==>
                  !LeftAside(o) && NoneBlind(targets, o.journal, start))
            && (forall i :: 0 <= i < |o.journal| && Blind(o.journal[i], targets[i].name in start) ==>
                  targets[i].name !in end)
            && (LeftAside(o) ==>
                  var t := targets[|o.journal| - 1]; t.name !in end && BackupOf(t.name) !in end)
  {
    hide CommitRun, RollbackClock, Managed, JournalRecorded;
    var o := CommitRun(sch, Begin(start, clock), targets);
    FailedRunRestores(sch, targets, start, clock);
    RollbackEnds(sch, targets, start, clock);
    CleanupWorks(sch, o.world, o.journal);
    var end := CleanupRun(sch, o.world, o.journal).world.disk;
    JournalNames(targets, o, start);
    forall i | 0 <= i < |targets| ensures Same(end, o.world.disk, targets[i].name) {
      ScratchApart(targets, o.journal, 0, i);
      assert o.journal[0..] == o.journal;
    }
    EndOfTargets(targets, o, start, end);
    if LeftAside(o) {
      var k := |o.journal| - 1;
      InScratch(o.journal, BackupOf(targets[k].name));
      assert o.journal[k] in o.journal && BackupOf(targets[k].name) in Scratch(o.journal[k]);
    }
  }

  lemma {:induction false} EndOfTargets(targets: seq<Target>, o: Outcome, start: Disk, end: Disk)
    requires 0 < |o.journal| <= |targets| && !o.stage.Committed?
    requires Recorded(o.journal[|o.journal| - 1], targets[|o.journal| - 1], o.stage,
                      targets[|o.journal| - 1].name in start)
    requires forall i :: 0 <= i < |targets| ==>
               Stands(PhaseAtEnd(o, targets, start, i), targets[i], o.world.disk, start)
    requires forall i :: 0 <= i < |targets| ==> Same(end, o.world.disk, targets[i].name)
    ensures (forall t <- targets :: Same(end, start, t.name)) <==>
              !LeftAside(o) && NoneBlind(targets, o.journal, start)
    ensures forall i :: 0 <= i < |o.journal| && Blind(o.journal[i], targets[i].name in start) ==>
              targets[i].name !in end
    ensures LeftAside(o) ==> targets[|o.journal| - 1].name !in end
  {
    var k := |o.journal| - 1;
    assert Stands(PhaseAtEnd(o, targets, start, k), targets[k], o.world.disk, start) && targets[k] in targets;
    forall i | 0 <= i < |o.journal| && Blind(o.journal[i], targets[i].name in start)
      ensures targets[i].name !in end && targets[i].name in start && targets[i] in targets
    {
      assert Stands(PhaseAtEnd(o, targets, start, i), targets[i], o.world.disk, start);
    }
    if !LeftAside(o) && NoneBlind(targets, o.journal, start) {
      forall t | t in targets ensures Same(end, start, t.name) {
        var i :| 0 <= i < |targets| && targets[i] == t;
        assert Stands(PhaseAtEnd(o, targets, start, i), targets[i], o.world.disk, start);
      }
    }
  }

  // Had rollback also restored the backup of the target it stopped at, only targets replaced
  // after a failed inspection would be lost.
  lemma {:induction false} RestoringTheAsideRepairs(sch: Schedule, targets: seq<Target>, start: Disk, clock: nat)
    requires WellNamed(targets)
    requires WorksFrom(sch, RollbackClock(sch, targets, start, clock))
    requires !CommitRun(sch, Begin(start, clock), targets).stage.Committed?
    ensures var o := CommitRun(sch, Begin(start, clock), targets);
            && 0 < |o.journal| <= |targets|
            && var name := targets[|o.journal| - 1].name;
            var end := if LeftAside(o) then Rename(sch, o.world, BackupOf(name), name).disk else o.world.disk;
            (forall t <- targets :: Same(end, start, t.name)) <==> NoneBlind(targets, o.journal, start)
  {
    hide CommitRun, RollbackClock, Managed, JournalRecorded;
    var o := CommitRun(sch, Begin(start, clock), targets);
    FailedRunRestores(sch, targets, start, clock);
    RollbackEnds(sch, targets, start, clock);
    var k := |o.journal| - 1;
    var name := targets[k].name;
    var end := if LeftAside(o) then Rename(sch, o.world, BackupOf(name), name).disk else o.world.disk;
    assert sch(o.world.clock).Works?;
    forall i | 0 <= i < |targets|
      ensures targets[i] in targets
      ensures Same(end, start, targets[i].name) <==> i >= |o.journal| || !Blind(o.journal[i], targets[i].name in start)
    {
      assert Stands(PhaseAtEnd(o, targets, start, i), targets[i], o.world.disk, start);
    }
    if NoneBlind(targets, o.journal, start) {
      forall t | t in targets ensures Same(end, start, t.name) {
        var i :| 0 <= i < |targets| && targets[i] == t;
      }
    }
  }

  lemma {:induction false} RollbackClockGrows(
    sch: Schedule, w: World, journal: seq<JournalEntry>, n: nat, result: RollbackResult)
    requires n <= |journal|
    ensures w.clock <= Rollback(sch, w, journal, n, result).world.clock
    decreases n
  {
    if n > 0 {
      var u := UndoOne(sch, w, journal[n - 1], result);
      RollbackClockGrows(sch, u.world, journal, n - 1, u.result);
    }
  }

  lemma {:induction false} RollbackEnds(sch: Schedule, targets: seq<Target>, start: Disk, clock: nat)
    requires WorksFrom(sch, RollbackClock(sch, targets, start, clock))
    ensures WorksFrom(sch, CommitRun(sch, Begin(start, clock), targets).world.clock)
  {
    var p := CommitFrom(sch, Begin(start, clock), targets, []);
    JournalGrows(sch, Begin(start, clock), targets, []);
    if !p.stage.Committed? { RollbackClockGrows(sch, p.world, p.journal, |p.journal| - 1, NoRollback); }
  }

  // ---- A run in which nothing fails ----

  lemma {:induction false} ReadyDisk(sch: Schedule, w: World, targets: seq<Target>, force: bool)
    requires CheckTargets(sch, w, targets, force).verdict == Ready
    ensures CheckTargets(sch, w, targets, force).world.disk == w.disk
    ensures forall t <- targets :: t.name in w.disk ==> w.disk[t.name].Regular? && force
    decreases |targets|
  {
    if targets != [] {
      ReadyDisk(sch, Flush(w), targets[1..], force);
      assert targets == [targets[0]] + targets[1..];
    }
  }

  // What a successful Prepare promises: the output directory is one, the lock was free and is now
  // taken, nothing else has changed, and a target that exists is a regular file that may be replaced.
  lemma {:induction false} PrepareReady(sch: Schedule, w: World, targets: seq<Target>, force: bool)
    requires WellNamed(targets) && PrepareRun(sch, w, targets, force).verdict == Ready
    ensures Here in w.disk && w.disk[Here].Directory?
    ensures LockName !in w.disk && LockName in PrepareRun(sch, w, targets, force).world.disk
    ensures forall p: string :: p != LockName ==> Same(PrepareRun(sch, w, targets, force).world.disk, w.disk, p)
    ensures forall t <- targets :: t.name in w.disk ==> w.disk[t.name].Regular? && force
  {
    var checked := Flush(Create(sch, Flush(w), LockName));
    ReadyDisk(sch, checked, targets, force);
    forall t | t in targets ensures t.name in w.disk ==> w.disk[t.name].Regular? && force {
      var i :| 0 <= i < |targets| && targets[i] == t;
      assert t.name != LockName;
    }
  }

  // A target that is there and may not be replaced.
  predicate Offends(disk: Disk, t: Target, force: bool)
  {
    t.name in disk && !(disk[t.name].Regular? && force)
  }

  ghost predicate FirstOffender(disk: Disk, targets: seq<Target>, force: bool, i: nat)
  {
    i < |targets| && Offends(disk, targets[i], force) && forall j :: 0 <= j < i ==> !Offends(disk, targets[j], force)
  }

  lemma {:induction false} TargetsDecide(sch: Schedule, w: World, targets: seq<Target>, force: bool)
    requires WorksFrom(sch, w.clock)
    ensures var r := CheckTargets(sch, w, targets, force).verdict;
            && (r == Ready <==> forall t <- targets :: !Offends(w.disk, t, force))
            && forall i: nat | FirstOffender(w.disk, targets, force, i) ::
                 r == if w.disk[targets[i].name].Regular? then TargetExists else UnsafeTarget
    decreases |targets|
  {
    hide WorksFrom;
    if targets != [] {
      var first, rest := targets[0], targets[1..];
      assert sch(w.clock).Works? && WorksFrom(sch, w.clock + 1) by { WorksOn(sch, w.clock); }
      assert first in targets;
      if !Offends(w.disk, first, force) {
        hide FirstOffender;
        TargetsDecide(sch, Flush(w), rest, force);
        SkipTarget(w.disk, targets, force);
      }
    }
  }

  lemma {:induction false} WorksOn(sch: Schedule, clock: nat)
    requires WorksFrom(sch, clock)
    ensures sch(clock).Works? && WorksFrom(sch, clock + 1)
  {
  }

  // A first target that does not offend changes nothing for the others.
  lemma {:induction false} SkipTarget(disk: Disk, targets: seq<Target>, force: bool)
    requires targets != [] && !Offends(disk, targets[0], force)
    ensures (forall t <- targets :: !Offends(disk, t, force)) <==>
              (forall t <- targets[1..] :: !Offends(disk, t, force))
    ensures forall i: nat :: FirstOffender(disk, targets, force, i) ==>
              i > 0 && FirstOffender(disk, targets[1..], force, i - 1) && targets[1..][i - 1] == targets[i]
  {
    assert targets == [targets[0]] + targets[1..];
    assert forall t :: t in targets <==> t == targets[0] || t in targets[1..];
    forall i: nat | FirstOffender(disk, targets, force, i)
      ensures i > 0 && FirstOffender(disk, targets[1..], force, i - 1)
    {
      forall j | 0 <= j < i - 1 ensures !Offends(disk, targets[1..][j], force) {
        assert targets[1..][j] == targets[j + 1];
      }
    }
  }

  lemma {:induction false} SomeOffender(disk: Disk, targets: seq<Target>, force: bool, n: nat)
    requires n <= |targets| && exists t <- targets[..n] :: Offends(disk, t, force)
    ensures exists i: nat :: FirstOffender(disk, targets, force, i)
  {
    if exists t <- targets[..n - 1] :: Offends(disk, t, force) {
      SomeOffender(disk, targets, force, n - 1);
    } else {
      assert targets[..n] == targets[..n - 1] + [targets[n - 1]];
      assert forall j :: 0 <= j < n - 1 ==> targets[j] == targets[..n - 1][j];
      assert FirstOffender(disk, targets, force, n - 1);
    }
  }

  // What Prepare answers when nothing fails, told from the disk alone. The first target that is
  // there and may not be replaced decides between the two refusals.
  lemma {:induction false} PrepareExactlyWhen(sch: Schedule, w: World, targets: seq<Target>, force: bool)
    requires WellNamed(targets) && WorksFrom(sch, w.clock)
    ensures var r := PrepareRun(sch, w, targets, force).verdict;
            var usable := Here in w.disk && w.disk[Here].Directory?;
            var free := usable && LockName !in w.disk;
            && (r == NoDirectory <==> Here !in w.disk)
            && (r == SymlinkDirectory <==> Here in w.disk && w.disk[Here].Symlink?)
            && (r == NotADirectory <==> Here in w.disk && w.disk[Here].Regular?)
            && (r == LockHeld <==> usable && LockName in w.disk)
            && (r == Ready <==>
                  free && forall t <- targets :: t.name in w.disk ==> w.disk[t.name].Regular? && force)
            && (r == TargetExists <==>
                  free && exists i: nat :: FirstOffender(w.disk, targets, force, i) && w.disk[targets[i].name].Regular?)
            && (r == UnsafeTarget <==>
                  free && exists i: nat ::
                            FirstOffender(w.disk, targets, force, i) && !w.disk[targets[i].name].Regular?)
  {
    hide CheckTargets, FirstOffender, Offends, WellNamed, WorksFrom;
    WorksOn(sch, w.clock);
    WorksOn(sch, w.clock + 1);
    WorksOn(sch, w.clock + 2);
    OffendsMeans(targets, w.disk, force);
    if Here in w.disk && w.disk[Here].Directory? && LockName !in w.disk {
      var checked := Flush(Create(sch, Flush(w), LockName));
      TargetsDecide(sch, checked, targets, force);
      SameOffenders(targets, w.disk, checked.disk, force);
      if exists t <- targets :: Offends(w.disk, t, force) {
        assert targets[..|targets|] == targets;
        SomeOffender(w.disk, targets, force, |targets|);
      } else {
        NoOffender(w.disk, targets, force);
      }
    }
  }

  lemma {:induction false} OffendsMeans(targets: seq<Target>, disk: Disk, force: bool)
    ensures (forall t <- targets :: !Offends(disk, t, force)) <==>
              (forall t <- targets :: t.name in disk ==> disk[t.name].Regular? && force)
    ensures forall i: nat :: FirstOffender(disk, targets, force, i) ==> i < |targets| && targets[i].name in disk
  {
  }

  lemma {:induction false} NoOffender(disk: Disk, targets: seq<Target>, force: bool)
    requires forall t <- targets :: !Offends(disk, t, force)
    ensures forall i: nat :: !FirstOffender(disk, targets, force, i)
  {
  }

  lemma {:induction false} SameOffenders(targets: seq<Target>, disk: Disk, locked: Disk, force: bool)
    requires WellNamed(targets) && LockName !in disk && locked == disk[LockName := Regular("")]
    ensures forall t <- targets :: Offends(locked, t, force) <==> Offends(disk, t, force)
    ensures forall i: nat :: FirstOffender(locked, targets, force, i) ==>
              locked[targets[i].name] == disk[targets[i].name]
    ensures forall i: nat :: FirstOffender(locked, targets, force, i) <==> FirstOffender(disk, targets, force, i)
  {
    forall i | 0 <= i < |targets|
      ensures Same(locked, disk, targets[i].name)
      ensures Offends(locked, targets[i], force) <==> Offends(disk, targets[i], force)
    {
      assert targets[i].name != LockName;
    }
    forall t | t in targets ensures Offends(locked, t, force) <==> Offends(disk, t, force) {
      var i :| 0 <= i < |targets| && targets[i] == t;
    }
  }

  // The paths that a run with all its backups removes.
  ghost predicate Removed(targets: seq<Target>, before: Disk, p: string)
  {
    exists t <- targets :: p == TempOf(t.name) || (p == BackupOf(t.name) && t.name in before)
  }

  lemma {:induction false} ScratchIsRemoved(targets: seq<Target>, journal: seq<JournalEntry>, start: Disk, p: string)
    requires |journal| == |targets| && JournalRecorded(targets, journal, start)
    ensures p in ScratchOf(journal) ==> Removed(targets, start, p)
    ensures NoneBlind(targets, journal, start) && Removed(targets, start, p) ==> p in ScratchOf(journal)
  {
    hide Scratch, ScratchOf, Recorded, JournalRecorded, NoneBlind;
    InScratch(journal, p);
    if p in ScratchOf(journal) {
      var e :| e in journal && p in Scratch(e);
      var i :| 0 <= i < |journal| && journal[i] == e;
      ScratchAt(targets, journal, start, i, p);
      assert targets[i] in targets;
    }
    if NoneBlind(targets, journal, start) && Removed(targets, start, p) {
      var t :| t in targets && (p == TempOf(t.name) || (p == BackupOf(t.name) && t.name in start));
      var i :| 0 <= i < |targets| && targets[i] == t;
      ScratchAt(targets, journal, start, i, p);
      assert journal[i] in journal;
    }
  }

  lemma {:induction false} ScratchAt(targets: seq<Target>, journal: seq<JournalEntry>, start: Disk, i: nat, p: string)
    requires i < |journal| == |targets| && JournalRecorded(targets, journal, start)
    ensures var name := targets[i].name;
            && (p in Scratch(journal[i]) ==> p == TempOf(name) || (p == BackupOf(name) && name in start))
            && (NoneBlind(targets, journal, start) && (p == TempOf(name) || (p == BackupOf(name) && name in start)) ==>
                  p in Scratch(journal[i]))
  {
    assert Recorded(journal[i], targets[i], Committed, targets[i].name in start);
  }

  // Every target holds its new contents, the journal's files are gone, all else is as before.
  ghost predicate OnlyTargetsLeft(targets: seq<Target>, journal: seq<JournalEntry>, before: Disk, end: Disk)
  {
    && (forall t <- targets :: t.name in end && end[t.name] == Regular(t.contents))
    && (forall p: string :: p in ScratchOf(journal) ==> p !in end)
    && (forall p: string :: !Removed(targets, before, p) && (forall t <- targets :: t.name != p) ==>
          Same(end, before, p))
    && (NoneBlind(targets, journal, before) ==> forall p: string :: Removed(targets, before, p) ==> p !in end)
  }

  // Prepare, Commit and a cleanup without faults: exactly the targets are overwritten; no
  // temporary file, backup or lock is left; every other path is as it was before Prepare.
  lemma {:induction false} SuccessLeavesOnlyTargets(sch: Schedule, w: World, targets: seq<Target>, force: bool)
    requires WellNamed(targets) && PrepareRun(sch, w, targets, force).verdict == Ready
    requires var prepared := PrepareRun(sch, w, targets, force).world;
             var o := CommitRun(sch, Begin(prepared.disk, prepared.clock), targets);
             o.stage.Committed? && WorksFrom(sch, o.world.clock)
    ensures var prepared := PrepareRun(sch, w, targets, force).world;
            var o := CommitRun(sch, Begin(prepared.disk, prepared.clock), targets);
            var c := CleanupRun(sch, o.world, o.journal);
            c.failures == [] && OnlyTargetsLeft(targets, o.journal, w.disk, c.world.disk)
  {
    hide CommitFrom, CommitRun, PrepareRun, JournalRecorded, Good, OnlyTargetsLeft;
    var prepared := PrepareRun(sch, w, targets, force).world;
    var start := prepared.disk;
    PrepareReady(sch, w, targets, force);
    SameStage(sch, targets, start, prepared.clock);
    RunStopped(sch, targets, start, prepared.clock);
    var o := CommitRun(sch, Begin(start, prepared.clock), targets);
    CleanupWorks(sch, o.world, o.journal);
    SuccessPaths(targets, o, start, w.disk);
  }

  lemma {:induction false} SameTargets(targets: seq<Target>, start: Disk, before: Disk)
    requires WellNamed(targets) && forall p: string :: p != LockName ==> Same(start, before, p)
    ensures forall t <- targets :: t.name in start <==> t.name in before
  {
    forall t | t in targets ensures t.name in start <==> t.name in before {
      var i :| 0 <= i < |targets| && targets[i] == t;
      assert Same(start, before, t.name);
    }
  }

  lemma {:induction false} SuccessPaths(targets: seq<Target>, o: Outcome, start: Disk, before: Disk)
    requires WellNamed(targets) && |o.journal| == |targets| && JournalRecorded(targets, o.journal, start)
    requires Good(targets, o.world, start, Phases(targets, o.journal, start))
    requires LockName !in before && forall p: string :: p != LockName ==> Same(start, before, p)
    ensures OnlyTargetsLeft(targets, o.journal, before, o.world.disk - ScratchOf(o.journal) - {LockName})
  {
    hide JournalRecorded, Good, Removed, WellNamed;
    var end := o.world.disk - ScratchOf(o.journal) - {LockName};
    forall p: string
      ensures p in ScratchOf(o.journal) ==> Removed(targets, before, p)
      ensures NoneBlind(targets, o.journal, before) && Removed(targets, before, p) ==> p in ScratchOf(o.journal)
    {
      RemovedPaths(targets, o.journal, start, before, p);
    }
    forall t | t in targets ensures t.name in end && end[t.name] == Regular(t.contents) {
      var i :| 0 <= i < |targets| && targets[i] == t;
      NewContents(targets, o, start, i);
      TargetStays(targets, before, i);
    }
    forall p: string | !Removed(targets, before, p) && (forall t <- targets :: t.name != p)
      ensures Same(end, before, p)
    {
      if p != LockName {
        NotManaged(targets, start, before, p);
        UnmanagedSame(targets, o.world, start, Phases(targets, o.journal, start), p);
        assert Same(start, before, p);
      }
    }
  }

  lemma {:induction false} RemovedPaths(
    targets: seq<Target>, journal: seq<JournalEntry>, start: Disk, before: Disk, p: string)
    requires WellNamed(targets) && |journal| == |targets| && JournalRecorded(targets, journal, start)
    requires forall q: string :: q != LockName ==> Same(start, before, q)
    ensures p in ScratchOf(journal) ==> Removed(targets, before, p)
    ensures NoneBlind(targets, journal, before) && Removed(targets, before, p) ==> p in ScratchOf(journal)
  {
    hide JournalRecorded, WellNamed, Same, ScratchOf;
    SameTargets(targets, start, before);
    assert forall i :: 0 <= i < |targets| ==> targets[i] in targets;
    ScratchIsRemoved(targets, journal, start, p);
  }

  lemma {:induction false} NewContents(targets: seq<Target>, o: Outcome, start: Disk, i: nat)
    requires i < |targets| == |o.journal| && Good(targets, o.world, start, Phases(targets, o.journal, start))
    ensures targets[i].name in o.world.disk && o.world.disk[targets[i].name] == Regular(targets[i].contents)
  {
    assert Stands(Phases(targets, o.journal, start)[i], targets[i], o.world.disk, start);
  }

  lemma {:induction false} TargetStays(targets: seq<Target>, before: Disk, i: nat)
    requires WellNamed(targets) && i < |targets|
    ensures !Removed(targets, before, targets[i].name) && targets[i].name != LockName
  {
  }

  lemma {:induction false} UnmanagedSame(targets: seq<Target>, w: World, start: Disk, phases: seq<Phase>, p: string)
    requires Good(targets, w, start, phases) && !Managed(targets, start, p)
    ensures Same(w.disk, start, p)
  {
  }

  lemma {:induction false} NotManaged(targets: seq<Target>, start: Disk, before: Disk, p: string)
    requires WellNamed(targets) && forall q: string :: q != LockName ==> Same(start, before, q)
    requires !Removed(targets, before, p) && forall t <- targets :: t.name != p
    ensures !Managed(targets, start, p)
  {
    SameTargets(targets, start, before);
  }

  // Without faults one target commits exactly when its temporary name is free, with a backup
  // exactly when it is there; no other target, and no other temporary name, comes or goes.
  lemma {:induction false} OneCommits(sch: Schedule, w: World, t: Target)
    requires WorksFrom(sch, w.clock)
    ensures var a := CommitOne(sch, w, t);
            && w.clock <= a.world.clock
            && a.stage == (if TempOf(t.name) in w.disk then AtCreate else Committed)
            && (a.stage.Committed? ==> (a.entry.existedBefore <==> t.name in w.disk))
            && (a.stage.AtCreate? ==> !a.entry.committed)
            && forall p: string :: p !in {t.name, BackupOf(t.name)} ==> (p in a.world.disk <==> p in w.disk)
  {
    Apart(t.name, t.name);
    assert |TempOf(t.name)| > |t.name|;
    assert sch(w.clock).Works? && sch(w.clock + 1).Works? && sch(w.clock + 2).Works? && sch(w.clock + 3).Works?;
    assert sch(w.clock + 4).Works? && sch(w.clock + 5).Works? && sch(w.clock + 6).Works?;
  }

  lemma {:induction false} AllCommit(
    sch: Schedule, w: World, targets: seq<Target>, journal: seq<JournalEntry>, start: Disk)
    requires WellNamed(targets) && |journal| <= |targets| && WorksFrom(sch, w.clock)
    requires NoneBlind(targets, journal, start)
    requires forall i :: |journal| <= i < |targets| ==> (targets[i].name in w.disk <==> targets[i].name in start)
    ensures var p := CommitFrom(sch, w, targets, journal);
            && WorksFrom(sch, p.world.clock)
            && (p.stage.Committed? || p.stage.AtCreate?)
            && NoneBlind(targets, p.journal, start)
            && (p.stage.Committed? <==>
                  forall i :: |journal| <= i < |targets| ==> TempOf(targets[i].name) !in w.disk)
    decreases |targets| - |journal|
  {
    hide CommitOne;
    var n := |journal|;
    if n < |targets| {
      var a := CommitOne(sch, w, targets[n]);
      OneCommits(sch, w, targets[n]);
      if a.stage.Committed? {
        forall i | n < i < |targets|
          ensures TempOf(targets[i].name) in a.world.disk <==> TempOf(targets[i].name) in w.disk
        {
          Apart(targets[i].name, targets[n].name);
        }
        AllCommit(sch, a.world, targets, journal + [a.entry], start);
      }
    }
  }

  // Prepare, Commit and cleanup in which nothing fails are all or nothing: the run commits exactly
  // when no target's temporary name was taken, and otherwise gives every target back.
  lemma {:induction false} FaultFreeRunIsAllOrNothing(sch: Schedule, w: World, targets: seq<Target>, force: bool)
    requires WellNamed(targets) && PrepareRun(sch, w, targets, force).verdict == Ready && WorksFrom(sch, w.clock)
    ensures var prepared := PrepareRun(sch, w, targets, force).world;
            var o := CommitRun(sch, Begin(prepared.disk, prepared.clock), targets);
            var c := CleanupRun(sch, o.world, o.journal);
            && (o.stage.Committed? <==> forall t <- targets :: TempOf(t.name) !in w.disk)
            && NoneBlind(targets, o.journal, w.disk)
            && (o.stage.Committed? ==> c.failures == [] && OnlyTargetsLeft(targets, o.journal, w.disk, c.world.disk))
            && (!o.stage.Committed? ==> forall t <- targets :: Same(c.world.disk, w.disk, t.name))
  {
    hide CommitFrom, OnlyTargetsLeft, CleanupRun, Rollback, PrepareRun, CommitRun;
    var prepared := PrepareRun(sch, w, targets, force).world;
    var start := Begin(prepared.disk, prepared.clock);
    PrepareReady(sch, w, targets, force);
    PrepareClock(sch, w, targets, force);
    SameTargets(targets, prepared.disk, w.disk);
    assert forall i :: 0 <= i < |targets| ==> targets[i] in targets;
    AllCommit(sch, start, targets, [], prepared.disk);
    forall t | t in targets ensures TempOf(t.name) in prepared.disk <==> TempOf(t.name) in w.disk {
      Apart(t.name, t.name);
      assert Same(prepared.disk, w.disk, TempOf(t.name));
    }
    SameStage(sch, targets, prepared.disk, prepared.clock);
    if CommitRun(sch, start, targets).stage.Committed? {
      SuccessLeavesOnlyTargets(sch, w, targets, force);
    } else {
      FailedRunKeepsAllExactlyWhen(sch, targets, prepared.disk, prepared.clock);
      forall t | t in targets ensures Same(prepared.disk, w.disk, t.name) {
        var i :| 0 <= i < |targets| && targets[i] == t;
        assert t.name != LockName;
      }
    }
  }

  lemma {:induction false} PrepareClock(sch: Schedule, w: World, targets: seq<Target>, force: bool)
    ensures w.clock <= PrepareRun(sch, w, targets, force).world.clock
  {
    CheckClock(sch, Flush(Create(sch, Flush(w), LockName)), targets, force);
  }

  lemma {:induction false} CheckClock(sch: Schedule, w: World, targets: seq<Target>, force: bool)
    ensures w.clock <= CheckTargets(sch, w, targets, force).world.clock
    decreases |targets|
  {
    if targets != [] { CheckClock(sch, Flush(w), targets[1..], force); }
  }

  // ---- A failed inspection ----

  // The target's inspection fails and nothing else does: it is replaced, and its old node is nowhere.
  lemma {:induction false} BlindCommit(sch: Schedule, w: World, t: Target)
    requires TempOf(t.name) !in w.disk && sch(w.clock + 4).Fails?
    requires forall n :: w.clock <= n < w.clock + 6 && n != w.clock + 4 ==> sch(n).Works?
    ensures var a := CommitOne(sch, w, t);
            && a.stage.Committed? && a.entry == JournalEntry(t.name, false, "", TempOf(t.name), true)
            && a.world.clock == w.clock + 6 && a.world.disk == w.disk[t.name := Regular(t.contents)]
  {
    assert |TempOf(t.name)| > |t.name|;
    var c := w.clock;
    assert sch(c).Works? && sch(c + 1).Works? && sch(c + 2).Works? && sch(c + 3).Works? && sch(c + 5).Works?;
    var disk := w.disk[TempOf(t.name) := Regular("")][TempOf(t.name) := Regular(t.contents)];
    assert Moved(disk, TempOf(t.name), t.name) == w.disk[t.name := Regular(t.contents)];
  }

  // Two targets, the first of them there. Its inspection fails and nothing else does, and the
  // second target's temporary name is taken: the run fails, and the first target is gone.
  lemma {:induction false} FailedInspectionLosesTarget(a: Target, b: Target, bytes: string)
    requires WellNamed([a, b])
    ensures var sch: Schedule := n => if n == 4 then Fails("") else Works;
            var start: Disk := map[a.name := Regular(bytes), TempOf(b.name) := Regular("")];
            var o := CommitRun(sch, Begin(start, 0), [a, b]);
            && o.stage.AtCreate? && o.rollback == RollbackResult([], [a.name], [])
            && a.name !in o.world.disk && BackupOf(a.name) !in o.world.disk
  {
    var sch: Schedule := n => if n == 4 then Fails("") else Works;
    var start: Disk := map[a.name := Regular(bytes), TempOf(b.name) := Regular("")];
    var w, targets := Begin(start, 0), [a, b];
    assert targets[0] == a && targets[1] == b;
    Apart(a.name, b.name);
    Apart(b.name, a.name);
    assert BackupOf(a.name) !in start && TempOf(a.name) !in start;
    BlindCommit(sch, w, a);
    var first := CommitOne(sch, w, a);
    hide BackUpAndReplace;
    var second := CommitOne(sch, first.world, b);
    var journal := [first.entry, second.entry];
    assert [] + [first.entry] == [first.entry] && [first.entry] + [second.entry] == journal;
    assert CommitFrom(sch, first.world, targets, [first.entry]) == Progress(second.world, journal, AtCreate);
    assert CommitFrom(sch, w, targets, []) == Progress(second.world, journal, AtCreate);
    assert Rollback(sch, second.world, journal, 1, NoRollback) == UndoOne(sch, second.world, journal[0], NoRollback);
  }

  // ---- The generator's own targets ----

  // cmd/si-cli/generate.go names the files; the policy keeps each signal at most once.
  function SignalFile(signal: string): string
  {
    if signal == "metrics" then "metrics.yaml" else if signal == "tracing" then "otel.yaml" else "logging.yaml"
  }

  lemma {:induction false} GeneratedTargetsAreWellNamed(signals: seq<string>, targets: seq<Target>)
    requires forall i :: 0 <= i < |signals| ==> signals[i] in {"metrics", "tracing", "logging"}
    requires forall i, j :: 0 <= i < j < |signals| ==> signals[i] != signals[j]
    requires |targets| == |signals|
    requires forall i :: 0 <= i < |signals| ==> targets[i].name == SignalFile(signals[i])
    ensures WellNamed(targets)
  {
    assert SignalFile("metrics")[0] == 'm' && SignalFile("tracing")[0] == 'o' && SignalFile("logging")[0] == 'l';
    forall i | 0 <= i < |targets| ensures targets[i].name != "" && targets[i].name[0] != '.' {}
    forall i, j | 0 <= i < j < |targets| ensures targets[i].name != targets[j].name {
      assert targets[i].name[0] != targets[j].name[0];
    }
    forall j | 0 <= j < |targets| ensures TempOf(targets[j].name)[0] == '.' && BackupOf(targets[j].name)[0] == '.' {}
    assert LockName[0] == '.';
  }

  // ---- Cleanup after a refused Prepare ----

  // cmd/si-cli/generate.go cleans up after every refused Prepare: where another run held the lock,
  // that lock then survives exactly when removing it fails.
  lemma {:induction false} RefusedRunDropsForeignLock(sch: Schedule, w: World, targets: seq<Target>, force: bool)
    requires LockName in w.disk
    ensures var prepared := PrepareRun(sch, w, targets, force);
            && prepared.verdict in {NoDirectory, SymlinkDirectory, NotADirectory, LockHeld}
            && (LockName in CleanupRun(sch, prepared.world, []).world.disk <==> !sch(prepared.world.clock).Works?)
  {
  }
}
