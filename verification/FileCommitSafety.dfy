/** What every prefix of every run of the file commit keeps, and where a run ends. */
module FileCommitSafety {
  import opened FileSystem
  import opened FileCommit

  // ---- Names ----

  // Target names differ, and none is another target's temporary or backup name, or the lock.
  ghost predicate WellNamed(targets: seq<Target>)
  {
    && (forall i, j :: 0 <= i < j < |targets| ==> targets[i].name != targets[j].name)
    && (forall i, j :: 0 <= i < |targets| && 0 <= j < |targets| ==>
          targets[i].name != TempOf(targets[j].name) && targets[i].name != BackupOf(targets[j].name))
    && (forall i :: 0 <= i < |targets| ==> targets[i].name != LockName)
  }

  lemma {:induction false} Apart(a: string, b: string)
    ensures TempOf(a) != BackupOf(b) && TempOf(a) != LockName && BackupOf(a) != LockName
    ensures TempOf(a) == TempOf(b) ==> a == b
    ensures BackupOf(a) == BackupOf(b) ==> a == b
  {
    assert TempOf(a)[4] == 't' && BackupOf(b)[4] == 'b' && BackupOf(a)[4] == 'b' && LockName[4] == 'g';
    assert TempOf(a)[8..] == a && TempOf(b)[8..] == b;
    assert BackupOf(a)[11..] == a && BackupOf(b)[11..] == b;
  }

  // The paths a commit may touch: a backup name only for a target that was there.
  ghost predicate Managed(targets: seq<Target>, start: Disk, p: string)
  {
    exists t <- targets :: p == t.name || p == TempOf(t.name) || (p == BackupOf(t.name) && t.name in start)
  }

  // ---- Where one target stands ----

  datatype Phase = Untouched | SetAside | Replaced | Overwritten | Lost

  predicate Same(disk: Disk, start: Disk, p: string)
  {
    (p in disk <==> p in start) && (p in disk && p in start ==> disk[p] == start[p])
  }

  // SetAside: absent, the old node at its backup. Replaced: the complete new contents, and the
  // old node, if any, at its backup. Overwritten and Lost: the same without a backup, after an
  // inspection failed. There is no partial state.
  predicate Stands(phase: Phase, t: Target, disk: Disk, start: Disk)
  {
    var backedUp := BackupOf(t.name) in disk && t.name in start && disk[BackupOf(t.name)] == start[t.name];
    match phase
    case Untouched => Same(disk, start, t.name)
    case SetAside => t.name !in disk && backedUp
    case Replaced => t.name in disk && disk[t.name] == Regular(t.contents) && (t.name in start ==> backedUp)
    case Overwritten => t.name in disk && disk[t.name] == Regular(t.contents) && t.name in start
    case Lost => t.name !in disk && t.name in start
  }

  // No old node is lost.
  ghost predicate Safe(targets: seq<Target>, disk: Disk, start: Disk)
  {
    forall t <- targets :: Kept(t, disk, start)
  }

  // The target is as before, or its old node, if any, is at its backup.
  predicate Kept(t: Target, disk: Disk, start: Disk)
  {
    Stands(Untouched, t, disk, start) || Stands(SetAside, t, disk, start) || Stands(Replaced, t, disk, start)
  }

  // Nothing is partly written, and nothing unmanaged has moved.
  ghost predicate Whole(targets: seq<Target>, disk: Disk, start: Disk)
  {
    && (forall t <- targets ::
          Same(disk, start, t.name) || t.name !in disk || disk[t.name] == Regular(t.contents))
    && (forall p: string :: !Managed(targets, start, p) ==> Same(disk, start, p))
  }

  ghost predicate AllSafe(targets: seq<Target>, past: seq<Disk>, start: Disk)
  {
    forall i :: 0 <= i < |past| ==> Safe(targets, past[i], start)
  }

  ghost predicate AllWhole(targets: seq<Target>, past: seq<Disk>, start: Disk)
  {
    forall i :: 0 <= i < |past| ==> Whole(targets, past[i], start)
  }

  ghost predicate Sighted(phases: seq<Phase>)
  {
    forall i :: 0 <= i < |phases| ==> !phases[i].Overwritten? && !phases[i].Lost?
  }

  // Each target stands at its phase, and nothing unmanaged has moved.
  ghost predicate Standing(targets: seq<Target>, disk: Disk, start: Disk, phases: seq<Phase>)
  {
    && |phases| == |targets|
    && (forall i :: 0 <= i < |targets| ==> Stands(phases[i], targets[i], disk, start))
    && (forall p: string :: !Managed(targets, start, p) ==> Same(disk, start, p))
  }

  // The invariant of a run.
  ghost predicate Good(targets: seq<Target>, w: World, start: Disk, phases: seq<Phase>)
  {
    && WellNamed(targets) && Standing(targets, w.disk, start, phases)
    && AllWhole(targets, w.past, start) && (Sighted(phases) ==> AllSafe(targets, w.past, start))
  }

  lemma {:induction false} StandingIsWhole(targets: seq<Target>, disk: Disk, start: Disk, phases: seq<Phase>)
    requires Standing(targets, disk, start, phases)
    ensures Whole(targets, disk, start)
    ensures Sighted(phases) ==> Safe(targets, disk, start)
  {
    hide Managed;
    forall t | t in targets
      ensures Same(disk, start, t.name) || t.name !in disk || disk[t.name] == Regular(t.contents)
      ensures Sighted(phases) ==> Kept(t, disk, start)
    {
      var i :| 0 <= i < |targets| && targets[i] == t;
      assert Stands(phases[i], targets[i], disk, start);
    }
  }

  // One operation later: nothing that was lost before is found again.
  lemma {:induction false} GoodTick(
    targets: seq<Target>, w: World, disk: Disk, start: Disk, before: seq<Phase>, phases: seq<Phase>)
    requires Good(targets, w, start, before) && Standing(targets, disk, start, phases)
    requires Sighted(phases) ==> Sighted(before)
    ensures Good(targets, Tick(w, disk), start, phases)
  {
    hide Stands, Managed, Same, Safe, Whole, Standing, Sighted;
    StandingIsWhole(targets, disk, start, phases);
  }

  lemma {:induction false} OnePhase(phases: seq<Phase>, k: nat, phase: Phase)
    requires k < |phases|
    requires !phase.Overwritten? && !phase.Lost? ==> !phases[k].Overwritten? && !phases[k].Lost?
    ensures Sighted(phases[k := phase]) ==> Sighted(phases)
  {
    forall i | Sighted(phases[k := phase]) && 0 <= i < |phases| ensures !phases[i].Overwritten? && !phases[i].Lost? {
      assert i != k ==> phases[k := phase][i] == phases[i];
      assert phases[k := phase][k] == phase;
    }
  }

  // ---- What one operation does to the phases ----

  // Only the names of target `k` are touched, and `k` ends in `phase`.
  lemma {:induction false} PhaseStep(
    targets: seq<Target>, disk: Disk, disk': Disk, start: Disk, phases: seq<Phase>, k: nat, phase: Phase)
    requires WellNamed(targets) && k < |targets| && Standing(targets, disk, start, phases)
    requires forall p: string :: p !in {targets[k].name, TempOf(targets[k].name), BackupOf(targets[k].name)} ==>
        Same(disk', disk, p)
    requires targets[k].name !in start ==> Same(disk', disk, BackupOf(targets[k].name))
    requires Stands(phase, targets[k], disk', start)
    ensures Standing(targets, disk', start, phases[k := phase])
  {
    var t := targets[k];
    forall i | 0 <= i < |targets| && i != k ensures Stands(phases[i], targets[i], disk', start) {
      Apart(t.name, targets[i].name);
      Apart(targets[i].name, t.name);
      assert Same(disk', disk, targets[i].name) && Same(disk', disk, BackupOf(targets[i].name));
    }
    forall p: string | !Managed(targets, start, p) ensures Same(disk', start, p) {
      assert t in targets;
      assert Same(disk', disk, p) && Same(disk, start, p);
    }
  }

  lemma {:induction false} TempStep(
    targets: seq<Target>, disk: Disk, disk': Disk, start: Disk, phases: seq<Phase>, k: nat)
    requires WellNamed(targets) && k < |targets| && Standing(targets, disk, start, phases)
    requires forall p: string :: p != TempOf(targets[k].name) ==> Same(disk', disk, p)
    ensures Standing(targets, disk', start, phases)
  {
    var t := targets[k];
    Apart(t.name, t.name);
    assert Same(disk', disk, t.name) && Same(disk', disk, BackupOf(t.name));
    PhaseStep(targets, disk, disk', start, phases, k, phases[k]);
    assert phases[k := phases[k]] == phases;
  }

  lemma {:induction false} BackupStep(targets: seq<Target>, disk: Disk, start: Disk, phases: seq<Phase>, k: nat)
    requires WellNamed(targets) && k < |targets| && Standing(targets, disk, start, phases)
    requires phases[k] == Untouched && targets[k].name in disk
    ensures Standing(targets, Moved(disk, targets[k].name, BackupOf(targets[k].name)), start, phases[k := SetAside])
  {
    PhaseStep(targets, disk, Moved(disk, targets[k].name, BackupOf(targets[k].name)), start, phases, k, SetAside);
  }

  lemma {:induction false} ReplaceStep(targets: seq<Target>, disk: Disk, start: Disk, phases: seq<Phase>, k: nat)
    requires WellNamed(targets) && k < |targets| && Standing(targets, disk, start, phases)
    requires phases[k] == SetAside || (phases[k] == Untouched && targets[k].name !in disk)
    requires TempOf(targets[k].name) in disk && disk[TempOf(targets[k].name)] == Regular(targets[k].contents)
    ensures Standing(targets, Moved(disk, TempOf(targets[k].name), targets[k].name), start, phases[k := Replaced])
  {
    Apart(targets[k].name, targets[k].name);
    PhaseStep(targets, disk, Moved(disk, TempOf(targets[k].name), targets[k].name), start, phases, k, Replaced);
  }

  // The target is renamed over although it is there: no backup.
  lemma {:induction false} OverwriteStep(targets: seq<Target>, disk: Disk, start: Disk, phases: seq<Phase>, k: nat)
    requires WellNamed(targets) && k < |targets| && Standing(targets, disk, start, phases)
    requires phases[k] == Untouched && targets[k].name in disk
    requires TempOf(targets[k].name) in disk && disk[TempOf(targets[k].name)] == Regular(targets[k].contents)
    ensures Standing(targets, Moved(disk, TempOf(targets[k].name), targets[k].name), start, phases[k := Overwritten])
  {
    Apart(targets[k].name, targets[k].name);
    PhaseStep(targets, disk, Moved(disk, TempOf(targets[k].name), targets[k].name), start, phases, k, Overwritten);
  }

  lemma {:induction false} RestoreStep(targets: seq<Target>, disk: Disk, start: Disk, phases: seq<Phase>, k: nat)
    requires WellNamed(targets) && k < |targets| && Standing(targets, disk, start, phases)
    requires phases[k] == Replaced && targets[k].name in start
    ensures Standing(targets, Moved(disk, BackupOf(targets[k].name), targets[k].name), start, phases[k := Untouched])
  {
    PhaseStep(targets, disk, Moved(disk, BackupOf(targets[k].name), targets[k].name), start, phases, k, Untouched);
  }

  lemma {:induction false} RemoveStep(targets: seq<Target>, disk: Disk, start: Disk, phases: seq<Phase>, k: nat)
    requires WellNamed(targets) && k < |targets| && Standing(targets, disk, start, phases)
    requires phases[k] == Overwritten || (phases[k] == Replaced && targets[k].name !in start)
    ensures Standing(targets, disk - {targets[k].name}, start,
                     phases[k := if phases[k].Overwritten? then Lost else Untouched])
  {
    PhaseStep(targets, disk, disk - {targets[k].name}, start, phases, k,
              if phases[k].Overwritten? then Lost else Untouched);
  }

  // ---- One target ----

  // The target was there, its inspection failed, and it was replaced without a backup.
  predicate Blind(e: JournalEntry, existed: bool)
  {
    existed && e.committed && !e.existedBefore
  }

  // The phase an attempt leaves its target in.
  function PhaseAfter(e: JournalEntry, stage: Stage, existed: bool): Phase
  {
    match stage
    case Committed => if existed && !e.existedBefore then Overwritten else Replaced
    case AtReplace => if e.existedBefore then SetAside else Untouched
    case _ => Untouched
  }

  // What the journal knows about an entry after its attempt.
  ghost predicate Recorded(e: JournalEntry, t: Target, stage: Stage, existed: bool)
  {
    && e.name == t.name && e.temp == TempOf(t.name)
    && e.committed == stage.Committed?
    && (e.existedBefore ==> existed && (stage.Committed? || stage.AtReplace? || stage.AtBackup?))
    && e.backup == (if e.existedBefore then BackupOf(t.name) else "")
  }

  // An operation on the temporary file of target `k`.
  lemma {:induction false} TempOperation(
    targets: seq<Target>, w: World, disk: Disk, start: Disk, phases: seq<Phase>, k: nat)
    requires Good(targets, w, start, phases) && k < |targets|
    requires forall p: string :: p != TempOf(targets[k].name) ==> Same(disk, w.disk, p)
    ensures Good(targets, Tick(w, disk), start, phases)
  {
    TempStep(targets, w.disk, disk, start, phases, k);
    GoodTick(targets, w, disk, start, phases, phases);
  }

  lemma {:induction false} ReplaceGood(
    sch: Schedule, targets: seq<Target>, w: World, entry: JournalEntry, start: Disk, phases: seq<Phase>, k: nat)
    requires Good(targets, w, start, phases) && k < |targets|
    requires phases[k] == SetAside || phases[k] == Untouched
    requires entry.name == targets[k].name && entry.temp == TempOf(targets[k].name)
    requires entry.temp in w.disk && w.disk[entry.temp] == Regular(targets[k].contents)
    ensures var a := Replace(sch, w, entry);
            var blind := phases[k] == Untouched && targets[k].name in start;
            && (a.stage == Committed || a.stage == AtReplace)
            && a.entry == entry.(committed := if a.stage.Committed? then true else entry.committed)
            && Good(targets, a.world, start,
                    if a.stage.Committed? then phases[k := if blind then Overwritten else Replaced] else phases)
  {
    hide Good;
    StandsAt(targets, w, start, phases, k);
    if Renames(sch, w, entry.temp) {
      MoveGood(targets, w, start, phases, k);
    } else {
      StayGood(targets, w, start, phases);
    }
  }

  lemma {:induction false} StayGood(targets: seq<Target>, w: World, start: Disk, phases: seq<Phase>)
    requires Good(targets, w, start, phases)
    ensures Good(targets, Tick(w, w.disk), start, phases)
  {
    GoodTick(targets, w, w.disk, start, phases, phases);
  }

  // The replacing rename.
  lemma {:induction false} MoveGood(targets: seq<Target>, w: World, start: Disk, phases: seq<Phase>, k: nat)
    requires Good(targets, w, start, phases) && k < |targets| && k < |phases|
    requires phases[k] == SetAside || phases[k] == Untouched
    requires TempOf(targets[k].name) in w.disk && w.disk[TempOf(targets[k].name)] == Regular(targets[k].contents)
    ensures var phase := if phases[k] == Untouched && targets[k].name in start then Overwritten else Replaced;
            Good(targets, Tick(w, Moved(w.disk, TempOf(targets[k].name), targets[k].name)), start, phases[k := phase])
  {
    hide AllSafe, AllWhole, Sighted;
    var disk := Moved(w.disk, TempOf(targets[k].name), targets[k].name);
    if phases[k] == Untouched && targets[k].name in start {
      assert Stands(Untouched, targets[k], w.disk, start);
      OverwriteStep(targets, w.disk, start, phases, k);
      OnePhase(phases, k, Overwritten);
      GoodTick(targets, w, disk, start, phases, phases[k := Overwritten]);
    } else {
      assert Stands(phases[k], targets[k], w.disk, start);
      ReplaceStep(targets, w.disk, start, phases, k);
      OnePhase(phases, k, Replaced);
      GoodTick(targets, w, disk, start, phases, phases[k := Replaced]);
    }
  }

  lemma {:induction false} SwapGood(
    sch: Schedule, targets: seq<Target>, w: World, entry: JournalEntry, start: Disk, phases: seq<Phase>, k: nat)
    requires Good(targets, w, start, phases) && k < |targets| && phases[k] == Untouched
    requires entry == JournalEntry(targets[k].name, false, "", TempOf(targets[k].name), false)
    requires entry.temp in w.disk && w.disk[entry.temp] == Regular(targets[k].contents)
    ensures var a := BackUpAndReplace(sch, w, entry);
            var existed := targets[k].name in start;
            && Recorded(a.entry, targets[k], a.stage, existed)
            && Good(targets, a.world, start, phases[k := PhaseAfter(a.entry, a.stage, existed)])
  {
    hide Good;
    var t := targets[k];
    var seen := Flush(w);
    StandsAt(targets, w, start, phases, k);
    StayGood(targets, w, start, phases);
    assert phases[k := Untouched] == phases;
    if !Inspect(sch, w, t.name).Found? {
      ReplaceGood(sch, targets, seen, entry, start, phases, k);
    } else {
      var entry' := entry.(existedBefore := true, backup := BackupOf(t.name));
      BackupGood(sch, targets, seen, start, phases, k);
      if Renames(sch, seen, t.name) {
        var w' := Rename(sch, seen, t.name, entry'.backup);
        Apart(t.name, t.name);
        NameNotTemp(targets, w, start, phases, k);
        ReplaceGood(sch, targets, w', entry', start, phases[k := SetAside], k);
        assert phases[k := SetAside][k := Replaced] == phases[k := Replaced];
      }
    }
  }

  lemma {:induction false} StandsAt(targets: seq<Target>, w: World, start: Disk, phases: seq<Phase>, k: nat)
    requires Good(targets, w, start, phases) && k < |targets|
    ensures |phases| == |targets| && Stands(phases[k], targets[k], w.disk, start)
  {
  }

  lemma {:induction false} NameNotTemp(targets: seq<Target>, w: World, start: Disk, phases: seq<Phase>, k: nat)
    requires Good(targets, w, start, phases) && k < |targets|
    ensures targets[k].name != TempOf(targets[k].name) && targets[k].name != BackupOf(targets[k].name)
  {
  }

  lemma {:induction false} BackupGood(
    sch: Schedule, targets: seq<Target>, w: World, start: Disk, phases: seq<Phase>, k: nat)
    requires Good(targets, w, start, phases) && k < |targets| && phases[k] == Untouched
    requires targets[k].name in w.disk
    ensures var w' := Rename(sch, w, targets[k].name, BackupOf(targets[k].name));
            Good(targets, w', start, if Renames(sch, w, targets[k].name) then phases[k := SetAside] else phases)
  {
    hide AllSafe, AllWhole, Sighted;
    if Renames(sch, w, targets[k].name) {
      BackupStep(targets, w.disk, start, phases, k);
      OnePhase(phases, k, SetAside);
      GoodTick(targets, w, Moved(w.disk, targets[k].name, BackupOf(targets[k].name)), start, phases,
               phases[k := SetAside]);
    } else {
      StayGood(targets, w, start, phases);
    }
  }

  lemma {:induction false} OneGood(
    sch: Schedule, targets: seq<Target>, w: World, start: Disk, phases: seq<Phase>, k: nat)
    requires Good(targets, w, start, phases) && k < |targets| && phases[k] == Untouched
    ensures var a := CommitOne(sch, w, targets[k]);
            var existed := targets[k].name in start;
            && Recorded(a.entry, targets[k], a.stage, existed)
            && Good(targets, a.world, start, phases[k := PhaseAfter(a.entry, a.stage, existed)])
  {
    hide Good, BackUpAndReplace;
    var t := targets[k];
    var temp := TempOf(t.name);
    assert |phases| == |targets| by { StandsAt(targets, w, start, phases, k); }
    assert phases[k := Untouched] == phases;
    var created := Create(sch, w, temp);
    TempOperation(targets, w, created.disk, start, phases, k);
    if Creates(sch, w, temp) {
      var written := Write(sch, created, temp, t.contents);
      TempOperation(targets, created, written.disk, start, phases, k);
      var synced := Flush(written);
      TempOperation(targets, written, written.disk, start, phases, k);
      var closed := Flush(synced);
      TempOperation(targets, synced, synced.disk, start, phases, k);
      if sch(created.clock).Works? && sch(written.clock).Works? && sch(synced.clock).Works? {
        SwapGood(sch, targets, closed, JournalEntry(t.name, false, "", temp, false), start, phases, k);
      }
    }
  }

  // ---- All targets ----

  // The targets of the committed entries as those left them, the rest untouched.
  function Phases(targets: seq<Target>, journal: seq<JournalEntry>, start: Disk): (r: seq<Phase>)
    ensures |r| == |targets|
  {
    seq(|targets|, i requires 0 <= i < |targets| =>
      if i < |journal| then PhaseAfter(journal[i], Committed, targets[i].name in start) else Untouched)
  }

  ghost predicate JournalRecorded(targets: seq<Target>, journal: seq<JournalEntry>, start: Disk)
  {
    && |journal| <= |targets|
    && forall i :: 0 <= i < |journal| ==> Recorded(journal[i], targets[i], Committed, targets[i].name in start)
  }

  lemma {:induction false} PhasesNext(targets: seq<Target>, journal: seq<JournalEntry>, e: JournalEntry, start: Disk)
    requires |journal| < |targets|
    ensures var n := |journal|;
            && Phases(targets, journal, start)[n] == Untouched
            && Phases(targets, journal, start)[n := PhaseAfter(e, Committed, targets[n].name in start)] ==
               Phases(targets, journal + [e], start)
  {
  }

  // What the commit of all targets leaves before any rollback.
  ghost predicate Stopped(targets: seq<Target>, p: Progress, start: Disk)
  {
    if p.stage.Committed? then
      && |p.journal| == |targets|
      && JournalRecorded(targets, p.journal, start)
      && Good(targets, p.world, start, Phases(targets, p.journal, start))
    else
      && 0 < |p.journal| <= |targets|
      && var k := |p.journal| - 1;
      && JournalRecorded(targets, p.journal[..k], start)
      && Recorded(p.journal[k], targets[k], p.stage, targets[k].name in start)
      && Good(targets, p.world, start,
              Phases(targets, p.journal[..k], start)[k := PhaseAfter(p.journal[k], p.stage, targets[k].name in start)])
  }

  lemma {:induction false} FromGood(
    sch: Schedule, targets: seq<Target>, w: World, journal: seq<JournalEntry>, start: Disk)
    requires JournalRecorded(targets, journal, start)
    requires Good(targets, w, start, Phases(targets, journal, start))
    ensures Stopped(targets, CommitFrom(sch, w, targets, journal), start)
    decreases |targets| - |journal|
  {
    hide Good, CommitOne, Recorded, Phases;
    var n := |journal|;
    if n < |targets| {
      var a := CommitOne(sch, w, targets[n]);
      PhasesNext(targets, journal, a.entry, start);
      OneGood(sch, targets, w, start, Phases(targets, journal, start), n);
      if a.stage.Committed? {
        FromGood(sch, targets, a.world, journal + [a.entry], start);
      } else {
        assert (journal + [a.entry])[..n] == journal;
      }
    }
  }

  // ---- Rollback ----

  // Names of the entries below `n`, last first, that had a backup (or had none).
  function Backward(journal: seq<JournalEntry>, n: nat, backedUp: bool): seq<string>
    requires n <= |journal|
  {
    if n == 0 then []
    else (if journal[n - 1].existedBefore == backedUp then [journal[n - 1].name] else [])
         + Backward(journal, n - 1, backedUp)
  }

  function Listed(r: RollbackResult): multiset<string>
  {
    multiset(r.restored) + multiset(r.removed) + multiset(r.failed)
  }

  function NamesBelow(targets: seq<Target>, n: nat): multiset<string>
    requires n <= |targets|
  {
    if n == 0 then multiset{} else NamesBelow(targets, n - 1) + multiset{targets[n - 1].name}
  }

  // What a rollback that works makes of a committed entry: a lost node stays lost.
  function PhaseUndone(e: JournalEntry, existed: bool): Phase { if Blind(e, existed) then Lost else Untouched }

  function ResultAfter(e: JournalEntry, undone: bool, result: RollbackResult): RollbackResult
  {
    if !undone then result.(failed := result.failed + [e.name])
    else if e.existedBefore then result.(restored := result.restored + [e.name])
    else result.(removed := result.removed + [e.name])
  }

  // One entry: it stands again as before, or its undoing failed and it is listed as such.
  lemma {:induction false} UndoGood(
    sch: Schedule, targets: seq<Target>, w: World, e: JournalEntry, result: RollbackResult, start: Disk,
    phases: seq<Phase>, k: nat)
    requires Good(targets, w, start, phases) && k < |targets| && k < |phases|
    requires Recorded(e, targets[k], Committed, targets[k].name in start)
    requires phases[k] == PhaseAfter(e, Committed, targets[k].name in start)
    ensures var u := UndoOne(sch, w, e, result);
            var undone := sch(w.clock).Works?;
            && u.world.clock == w.clock + 1
            && Good(targets, u.world, start,
                    if undone then phases[k := PhaseUndone(e, targets[k].name in start)] else phases)
            && u.result == ResultAfter(e, undone, result)
  {
    hide AllSafe, AllWhole, Sighted;
    var t := targets[k];
    assert Stands(phases[k], t, w.disk, start);
    if !sch(w.clock).Works? {
      StayGood(targets, w, start, phases);
    } else if e.existedBefore {
      RestoreStep(targets, w.disk, start, phases, k);
      OnePhase(phases, k, Untouched);
      GoodTick(targets, w, Moved(w.disk, BackupOf(t.name), t.name), start, phases, phases[k := Untouched]);
    } else {
      var phase := if phases[k].Overwritten? then Lost else Untouched;
      RemoveStep(targets, w.disk, start, phases, k);
      OnePhase(phases, k, phase);
      GoodTick(targets, w, w.disk - {t.name}, start, phases, phases[k := phase]);
    }
  }

  // The entries below `n` are committed targets, as the journal says.
  ghost predicate CanUndo(
    targets: seq<Target>, w: World, journal: seq<JournalEntry>, n: nat, start: Disk, phases: seq<Phase>)
  {
    && n <= |journal| && n <= |targets| && |phases| == |targets|
    && Good(targets, w, start, phases)
    && forall i :: 0 <= i < n ==>
         && phases[i] == PhaseAfter(journal[i], Committed, targets[i].name in start)
         && Recorded(journal[i], targets[i], Committed, targets[i].name in start)
  }

  lemma {:induction false} UndoNext(
    sch: Schedule, targets: seq<Target>, w: World, journal: seq<JournalEntry>, n: nat, result: RollbackResult,
    start: Disk, phases: seq<Phase>)
    returns (phases': seq<Phase>)
    requires n > 0 && CanUndo(targets, w, journal, n, start, phases)
    ensures var u := UndoOne(sch, w, journal[n - 1], result);
            var undone := sch(w.clock).Works?;
            && CanUndo(targets, u.world, journal, n - 1, start, phases')
            && u.world.clock == w.clock + 1 && journal[n - 1].name == targets[n - 1].name
            && phases' == (if undone
                           then phases[n - 1 := PhaseUndone(journal[n - 1], targets[n - 1].name in start)]
                           else phases)
            && (Sighted(phases') <==> Sighted(phases))
            && u.result == ResultAfter(journal[n - 1], undone, result)
  {
    hide Good, UndoOne;
    var existed := targets[n - 1].name in start;
    UndoGood(sch, targets, w, journal[n - 1], result, start, phases, n - 1);
    phases' := if sch(w.clock).Works? then phases[n - 1 := PhaseUndone(journal[n - 1], existed)] else phases;
    OnePhase(phases, n - 1, PhaseUndone(journal[n - 1], existed));
    assert phases'[n - 1 := phases[n - 1]] == phases;
    OnePhase(phases', n - 1, phases[n - 1]);
  }

  lemma {:induction false} RollbackGood(
    sch: Schedule, targets: seq<Target>, w: World, journal: seq<JournalEntry>, n: nat, result: RollbackResult,
    start: Disk, phases: seq<Phase>)
    returns (phases': seq<Phase>)
    requires CanUndo(targets, w, journal, n, start, phases)
    ensures |phases'| == |targets| && Good(targets, Rollback(sch, w, journal, n, result).world, start, phases')
    ensures Sighted(phases') <==> Sighted(phases)
    ensures forall i :: n <= i < |targets| ==> phases'[i] == phases[i]
    ensures forall i :: 0 <= i < n ==>
              phases'[i] == if sch(w.clock + n - 1 - i).Works?
                            then PhaseUndone(journal[i], targets[i].name in start) else phases[i]
    decreases n
  {
    hide Good, UndoOne, Recorded, PhaseUndone, PhaseAfter, Sighted;
    if n == 0 {
      phases' := phases;
    } else {
      var next := UndoNext(sch, targets, w, journal, n, result, start, phases);
      var u := UndoOne(sch, w, journal[n - 1], result);
      phases' := RollbackGood(sch, targets, u.world, journal, n - 1, u.result, start, next);
    }
  }

  lemma {:induction false} ListedOnce(e: JournalEntry, undone: bool, before: RollbackResult)
    ensures Listed(ResultAfter(e, undone, before)) == Listed(before) + multiset{e.name}
  {
  }

  // Under any faults, every rolled-back entry is listed once, in one of the three lists.
  lemma {:induction false} RollbackLists(
    sch: Schedule, targets: seq<Target>, w: World, journal: seq<JournalEntry>, n: nat, result: RollbackResult,
    start: Disk, phases: seq<Phase>)
    requires CanUndo(targets, w, journal, n, start, phases)
    ensures Listed(Rollback(sch, w, journal, n, result).result) == Listed(result) + NamesBelow(targets, n)
    decreases n
  {
    hide UndoOne, CanUndo, Listed, ResultAfter, Sighted;
    assert n <= |journal| && n <= |targets| by { CanUndoBounds(targets, w, journal, n, start, phases); }
    if n > 0 {
      var next := UndoNext(sch, targets, w, journal, n, result, start, phases);
      var u := UndoOne(sch, w, journal[n - 1], result);
      ListedOnce(journal[n - 1], sch(w.clock).Works?, result);
      RollbackLists(sch, targets, u.world, journal, n - 1, u.result, start, next);
    }
  }

  lemma {:induction false} CanUndoBounds(
    targets: seq<Target>, w: World, journal: seq<JournalEntry>, n: nat, start: Disk, phases: seq<Phase>)
    requires CanUndo(targets, w, journal, n, start, phases)
    ensures n <= |journal| && n <= |targets|
  {
  }

  // Without faults the lists say what happened, last target first.
  lemma {:induction false} RollbackClean(
    sch: Schedule, targets: seq<Target>, w: World, journal: seq<JournalEntry>, n: nat, result: RollbackResult,
    start: Disk, phases: seq<Phase>)
    requires CanUndo(targets, w, journal, n, start, phases) && WorksFrom(sch, w.clock)
    ensures n <= |journal|
    ensures Rollback(sch, w, journal, n, result).result ==
            RollbackResult(result.restored + Backward(journal, n, true),
                           result.removed + Backward(journal, n, false), result.failed)
    decreases n
  {
    hide UndoOne, CanUndo, Sighted;
    assert n <= |journal| && n <= |targets| by { CanUndoBounds(targets, w, journal, n, start, phases); }
    if n > 0 {
      var next := UndoNext(sch, targets, w, journal, n, result, start, phases);
      var u := UndoOne(sch, w, journal[n - 1], result);
      RollbackClean(sch, targets, u.world, journal, n - 1, u.result, start, next);
    }
  }
}
