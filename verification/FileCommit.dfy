/** generator/commit/commit.go: the multi-file commit and its journal, as functions of
    the directory and the fault schedule, and the class that carries them out. */
module FileCommit {
  import opened FileSystem

  datatype Target = Target(name: string, contents: string)

  datatype JournalEntry = JournalEntry(
    name: string, existedBefore: bool, backup: string, temp: string, committed: bool)

  function TempOf(name: string): string { ".si-tmp-" + name }

  function BackupOf(name: string): string { ".si-backup-" + name }

  const LockName := ".si-generate.lock"

  // ---- One target ----

  // Where the commit of one target stopped.
  datatype Stage = Committed | AtCreate | AtWrite | AtSync | AtClose | AtBackup | AtReplace

  datatype Attempt = Attempt(world: World, entry: JournalEntry, stage: Stage)

  function Replace(sch: Schedule, w: World, entry: JournalEntry): Attempt
  {
    var w' := Rename(sch, w, entry.temp, entry.name);
    if Renames(sch, w, entry.temp) then Attempt(w', entry.(committed := true), Committed)
    else Attempt(w', entry, AtReplace)
  }

  // Any answer of Lstat but a node, an error included, counts as an absent target.
  function BackUpAndReplace(sch: Schedule, w: World, entry: JournalEntry): Attempt
  {
    var seen := Flush(w);
    if !Inspect(sch, w, entry.name).Found? then Replace(sch, seen, entry)
    else
      var entry' := entry.(existedBefore := true, backup := BackupOf(entry.name));
      var w' := Rename(sch, seen, entry.name, entry'.backup);
      if Renames(sch, seen, entry.name) then Replace(sch, w', entry') else Attempt(w', entry', AtBackup)
  }

  function CommitOne(sch: Schedule, w: World, t: Target): Attempt
  {
    var entry := JournalEntry(t.name, false, "", TempOf(t.name), false);
    var created := Create(sch, w, entry.temp);
    if !Creates(sch, w, entry.temp) then Attempt(created, entry, AtCreate)
    else
      var written := Write(sch, created, entry.temp, t.contents);
      if !sch(created.clock).Works? then Attempt(Flush(written), entry, AtWrite)
      else
        var synced := Flush(written);
        if !sch(written.clock).Works? then Attempt(Flush(synced), entry, AtSync)
        else
          var closed := Flush(synced);
          if !sch(synced.clock).Works? then Attempt(closed, entry, AtClose)
          else BackUpAndReplace(sch, closed, entry)
  }

  // ---- All targets, up to the first failure ----

  datatype Progress = Progress(world: World, journal: seq<JournalEntry>, stage: Stage)

  function CommitFrom(sch: Schedule, w: World, targets: seq<Target>, journal: seq<JournalEntry>): Progress
    requires |journal| <= |targets|
    decreases |targets| - |journal|
  {
    if |journal| == |targets| then Progress(w, journal, Committed)
    else
      var a := CommitOne(sch, w, targets[|journal|]);
      if a.stage.Committed? then CommitFrom(sch, a.world, targets, journal + [a.entry])
      else Progress(a.world, journal + [a.entry], a.stage)
  }

  // ---- Rollback ----

  datatype RollbackResult = RollbackResult(restored: seq<string>, removed: seq<string>, failed: seq<string>)

  const NoRollback := RollbackResult([], [], [])

  datatype Undone = Undone(world: World, result: RollbackResult)

  function UndoOne(sch: Schedule, w: World, entry: JournalEntry, result: RollbackResult): Undone
  {
    if !entry.committed then Undone(w, result)
    else if entry.existedBefore then
      Undone(Rename(sch, w, entry.backup, entry.name),
             if Renames(sch, w, entry.backup) then result.(restored := result.restored + [entry.name])
             else result.(failed := result.failed + [entry.name]))
    else
      Undone(Remove(sch, w, entry.name),
             if Removes(sch, w, entry.name).Gone? then result.(removed := result.removed + [entry.name])
             else result.(failed := result.failed + [entry.name]))
  }

  // Undoes entries n-1 down to 0.
  function Rollback(sch: Schedule, w: World, journal: seq<JournalEntry>, n: nat, result: RollbackResult): Undone
    requires n <= |journal|
    decreases n
  {
    if n == 0 then Undone(w, result)
    else
      var u := UndoOne(sch, w, journal[n - 1], result);
      Rollback(sch, u.world, journal, n - 1, u.result)
  }

  // ---- Commit ----

  datatype Outcome = Outcome(world: World, journal: seq<JournalEntry>, stage: Stage, rollback: RollbackResult)

  function CommitRun(sch: Schedule, w: World, targets: seq<Target>): Outcome
  {
    var p := CommitFrom(sch, w, targets, []);
    if p.stage.Committed? then Outcome(p.world, p.journal, Committed, NoRollback)
    else
      assert |p.journal| > 0 by { JournalGrows(sch, w, targets, []); }
      var u := Rollback(sch, p.world, p.journal, |p.journal| - 1, NoRollback);
      Outcome(u.world, p.journal, p.stage, u.result)
  }

  lemma {:induction false} JournalGrows(sch: Schedule, w: World, targets: seq<Target>, journal: seq<JournalEntry>)
    requires |journal| <= |targets|
    ensures var p := CommitFrom(sch, w, targets, journal);
            && |p.journal| <= |targets|
            && (p.stage.Committed? ==> |p.journal| == |targets|)
            && (!p.stage.Committed? ==> |journal| < |p.journal|)
    decreases |targets| - |journal|
  {
    if |journal| < |targets| {
      var a := CommitOne(sch, w, targets[|journal|]);
      if a.stage.Committed? { JournalGrows(sch, a.world, targets, journal + [a.entry]); }
    }
  }

  // ---- Cleanup ----

  datatype Cleaned = Cleaned(world: World, failures: seq<string>)

  // A path that is already gone is no failure.
  function Clear(sch: Schedule, c: Cleaned, path: string): Cleaned
  {
    Cleaned(Remove(sch, c.world, path),
            if Removes(sch, c.world, path).RemoveFailed? then c.failures + [path] else c.failures)
  }

  function ClearEntry(sch: Schedule, c: Cleaned, entry: JournalEntry): Cleaned
  {
    var c' := if entry.temp != "" then Clear(sch, c, entry.temp) else c;
    if entry.backup != "" then Clear(sch, c', entry.backup) else c'
  }

  function ClearFrom(sch: Schedule, c: Cleaned, journal: seq<JournalEntry>): Cleaned
    decreases |journal|
  {
    if journal == [] then c else ClearFrom(sch, ClearEntry(sch, c, journal[0]), journal[1..])
  }

  function CleanupRun(sch: Schedule, w: World, journal: seq<JournalEntry>): Cleaned
  {
    Clear(sch, ClearFrom(sch, Cleaned(w, []), journal), LockName)
  }

  // ---- Prepare ----

  datatype Refusal =
    | Ready | NoDirectory | SymlinkDirectory | NotADirectory | LockHeld
    | UninspectedTarget | UnsafeTarget | TargetExists

  datatype Prepared = Prepared(world: World, verdict: Refusal)

  // The output directory itself.
  const Here := "."

  function CheckDirectory(seen: Inspection): Refusal
  {
    match seen
    case Found(Directory) => Ready
    case Found(Symlink(_)) => SymlinkDirectory
    case Found(Regular(_)) => NotADirectory
    case _ => NoDirectory
  }

  function CheckTargets(sch: Schedule, w: World, targets: seq<Target>, force: bool): Prepared
    decreases |targets|
  {
    if targets == [] then Prepared(w, Ready)
    else
      match Inspect(sch, w, targets[0].name)
      case Missing => CheckTargets(sch, Flush(w), targets[1..], force)
      case Unreadable => Prepared(Flush(w), UninspectedTarget)
      case Found(node) =>
        if !node.Regular? then Prepared(Flush(w), UnsafeTarget)
        else if !force then Prepared(Flush(w), TargetExists)
        else CheckTargets(sch, Flush(w), targets[1..], force)
  }

  // Inspects the directory, takes the lock and inspects; the lock stays even when a target is refused.
  function PrepareRun(sch: Schedule, w: World, targets: seq<Target>, force: bool): Prepared
  {
    var directory := CheckDirectory(Inspect(sch, w, Here));
    if directory != Ready then Prepared(Flush(w), directory)
    else
      var locked := Create(sch, Flush(w), LockName);
      if !Creates(sch, Flush(w), LockName) then Prepared(locked, LockHeld)
      else CheckTargets(sch, Flush(locked), targets, force)
  }

  // ---- The committer ----

  class Commit {
    const writer: FileWriter
    const targets: seq<Target>
    var journal: seq<JournalEntry>

    constructor (writer: FileWriter, targets: seq<Target>)
      ensures this.writer == writer && this.targets == targets && journal == []
    {
      this.writer := writer;
      this.targets := targets;
      journal := [];
    }

    method Prepare(force: bool) returns (r: Refusal)
      modifies writer
      ensures Prepared(writer.State(), r) == PrepareRun(writer.sch, old(writer.State()), targets, force)
    {
      var seen := writer.Lstat(Here);
      match seen {
        case Found(Symlink(_)) => return SymlinkDirectory;
        case Found(Regular(_)) => return NotADirectory;
        case Found(Directory) =>
        case _ => return NoDirectory;
      }
      var locked := writer.CreateExclusive(LockName);
      if !locked { return LockHeld; }
      var _ := writer.SyncOrClose();
      for i := 0 to |targets|
        invariant PrepareRun(writer.sch, old(writer.State()), targets, force) ==
                  CheckTargets(writer.sch, writer.State(), targets[i..], force)
      {
        assert targets[i..][1..] == targets[i + 1..];
        var target := writer.Lstat(targets[i].name);
        if target.Missing? { continue; }
        if target.Unreadable? { return UninspectedTarget; }
        if !target.node.Regular? { return UnsafeTarget; }
        if !force { return TargetExists; }
      }
      return Ready;
    }

    // The temporary file of entry `index`: exclusive create, write, sync, close.
    method WriteTemp(index: nat) returns (stage: Stage)
      requires index < |targets| && index < |journal|
      requires journal[index] == JournalEntry(targets[index].name, false, "", TempOf(targets[index].name), false)
      modifies writer
      ensures var a := CommitOne(writer.sch, old(writer.State()), targets[index]);
              if stage.Committed? then a == BackUpAndReplace(writer.sch, writer.State(), journal[index])
              else a == Attempt(writer.State(), journal[index], stage)
    {
      var temp := journal[index].temp;
      var ok := writer.CreateExclusive(temp);
      if !ok { return AtCreate; }
      ok := writer.WriteFile(temp, targets[index].contents);
      if !ok {
        var _ := writer.SyncOrClose();
        return AtWrite;
      }
      ok := writer.SyncOrClose();
      if !ok {
        var _ := writer.SyncOrClose();
        return AtSync;
      }
      ok := writer.SyncOrClose();
      if !ok { return AtClose; }
      return Committed;
    }

    method SwapIn(index: nat) returns (stage: Stage)
      requires index < |journal|
      modifies this, writer
      ensures var a := BackUpAndReplace(writer.sch, old(writer.State()), old(journal)[index]);
              a == Attempt(writer.State(), a.entry, stage) && journal == old(journal)[index := a.entry]
    {
      var destination := journal[index].name;
      var seen := writer.Lstat(destination);
      if seen.Found? {
        journal := journal[index := journal[index].(existedBefore := true, backup := BackupOf(destination))];
        var ok := writer.RenameFile(destination, journal[index].backup);
        if !ok { return AtBackup; }
      }
      var ok := writer.RenameFile(journal[index].temp, destination);
      if !ok { return AtReplace; }
      journal := journal[index := journal[index].(committed := true)];
      return Committed;
    }

    method Run() returns (stage: Stage, rollback: RollbackResult)
      requires journal == []
      modifies this, writer
      ensures Outcome(writer.State(), journal, stage, rollback) == CommitRun(writer.sch, old(writer.State()), targets)
    {
      hide CommitOne, BackUpAndReplace, Rollback;
      ghost var w := writer.State();
      for index := 0 to |targets|
        invariant |journal| == index
        invariant CommitFrom(writer.sch, w, targets, []) == CommitFrom(writer.sch, writer.State(), targets, journal)
      {
        ghost var before := journal;
        ghost var a := CommitOne(writer.sch, writer.State(), targets[index]);
        journal := journal + [JournalEntry(targets[index].name, false, "", TempOf(targets[index].name), false)];
        stage := WriteTemp(index);
        if stage.Committed? { stage := SwapIn(index); }
        assert journal == before + [a.entry] && writer.State() == a.world && stage == a.stage;
        if !stage.Committed? {
          rollback := RollBack(index);
          return;
        }
      }
      return Committed, NoRollback;
    }

    method RollBack(failedIndex: nat) returns (result: RollbackResult)
      requires failedIndex <= |journal|
      modifies writer
      ensures Undone(writer.State(), result) ==
              Rollback(writer.sch, old(writer.State()), journal, failedIndex, NoRollback)
    {
      result := NoRollback;
      var index: nat := failedIndex;
      while index > 0
        invariant index <= failedIndex
        invariant Rollback(writer.sch, old(writer.State()), journal, failedIndex, NoRollback) ==
                  Rollback(writer.sch, writer.State(), journal, index, result)
      {
        index := index - 1;
        var entry := journal[index];
        if entry.committed {
          if entry.existedBefore {
            var ok := writer.RenameFile(entry.backup, entry.name);
            if ok { result := result.(restored := result.restored + [entry.name]); }
            else { result := result.(failed := result.failed + [entry.name]); }
          } else {
            var r := writer.RemoveFile(entry.name);
            if r.Gone? { result := result.(removed := result.removed + [entry.name]); }
            else { result := result.(failed := result.failed + [entry.name]); }
          }
        }
      }
    }

    method ClearPath(path: string, failures: seq<string>) returns (failures': seq<string>)
      modifies writer
      ensures Cleaned(writer.State(), failures') == Clear(writer.sch, Cleaned(old(writer.State()), failures), path)
    {
      var r := writer.RemoveFile(path);
      failures' := if r.RemoveFailed? then failures + [path] else failures;
    }

    method Cleanup() returns (failures: seq<string>)
      modifies writer
      ensures Cleaned(writer.State(), failures) == CleanupRun(writer.sch, old(writer.State()), journal)
    {
      failures := [];
      for i := 0 to |journal|
        invariant ClearFrom(writer.sch, Cleaned(old(writer.State()), []), journal) ==
                  ClearFrom(writer.sch, Cleaned(writer.State(), failures), journal[i..])
      {
        assert journal[i..][1..] == journal[i + 1..];
        var entry := journal[i];
        if entry.temp != "" { failures := ClearPath(entry.temp, failures); }
        if entry.backup != "" { failures := ClearPath(entry.backup, failures); }
      }
      failures := ClearPath(LockName, failures);
    }
  }
}
