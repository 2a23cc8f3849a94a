/** The directory behind the `FileWriter` of generator/commit/commit.go: a map from
    names to nodes, and a schedule that decides for every operation whether it fails.
    A failed operation changes nothing, except that a failed write leaves any text. */
module FileSystem {
  datatype Node = Regular(bytes: string) | Symlink(to: string) | Directory

  type Disk = map<string, Node>

  datatype Fault = Works | Fails(written: string)

  type Schedule = nat -> Fault

  // `past` holds the disk after every operation, the current one last.
  datatype World = World(disk: Disk, clock: nat, past: seq<Disk>)

  ghost predicate WorksFrom(sch: Schedule, clock: nat)
  {
    forall n: nat :: clock <= n ==> sch(n).Works?
  }

  function Tick(w: World, disk: Disk): World
  {
    World(disk, w.clock + 1, w.past + [disk])
  }

  // O_CREATE|O_EXCL.
  predicate Creates(sch: Schedule, w: World, path: string)
  {
    sch(w.clock).Works? && path !in w.disk
  }

  function Create(sch: Schedule, w: World, path: string): World
  {
    Tick(w, if Creates(sch, w, path) then w.disk[path := Regular("")] else w.disk)
  }

  function Write(sch: Schedule, w: World, path: string, bytes: string): World
  {
    match sch(w.clock)
    case Works => Tick(w, w.disk[path := Regular(bytes)])
    case Fails(written) => Tick(w, w.disk[path := Regular(written)])
  }

  // Sync, Close and Lstat: they may fail, and leave the disk alone.
  function Flush(w: World): World { Tick(w, w.disk) }

  predicate Renames(sch: Schedule, w: World, from: string)
  {
    sch(w.clock).Works? && from in w.disk
  }

  function Moved(disk: Disk, from: string, to: string): Disk
    requires from in disk
  {
    (disk - {from})[to := disk[from]]
  }

  function Rename(sch: Schedule, w: World, from: string, to: string): World
  {
    Tick(w, if Renames(sch, w, from) then Moved(w.disk, from, to) else w.disk)
  }

  // Remove's three answers: nil, an error for which os.IsNotExist holds, another error.
  datatype RemoveResult = Gone | NotExist | RemoveFailed

  function Removes(sch: Schedule, w: World, path: string): RemoveResult
  {
    if !sch(w.clock).Works? then RemoveFailed else if path in w.disk then Gone else NotExist
  }

  function Remove(sch: Schedule, w: World, path: string): World
  {
    Tick(w, if Removes(sch, w, path).Gone? then w.disk - {path} else w.disk)
  }

  // Lstat's three answers: what is there, an error for which os.IsNotExist holds, another error.
  datatype Inspection = Found(node: Node) | Missing | Unreadable

  function Inspect(sch: Schedule, w: World, path: string): Inspection
  {
    if !sch(w.clock).Works? then Unreadable else if path in w.disk then Found(w.disk[path]) else Missing
  }

  // ---- The writer ----

  class FileWriter {
    const sch: Schedule
    var disk: Disk
    var clock: nat
    ghost var past: seq<Disk>

    constructor (sch: Schedule, disk: Disk)
      ensures this.sch == sch && State() == World(disk, 0, [disk])
    {
      this.sch := sch;
      this.disk := disk;
      clock := 0;
      past := [disk];
    }

    ghost function State(): World
      reads this
    {
      World(disk, clock, past)
    }

    method Advance(next: Disk)
      modifies this
      ensures State() == Tick(old(State()), next)
    {
      disk := next;
      clock := clock + 1;
      past := past + [next];
    }

    method Lstat(path: string) returns (r: Inspection)
      modifies this
      ensures r == Inspect(sch, old(State()), path)
      ensures State() == Flush(old(State()))
    {
      r := if !sch(clock).Works? then Unreadable else if path in disk then Found(disk[path]) else Missing;
      Advance(disk);
    }

    method CreateExclusive(path: string) returns (ok: bool)
      modifies this
      ensures ok == Creates(sch, old(State()), path)
      ensures State() == Create(sch, old(State()), path)
    {
      ok := sch(clock).Works? && path !in disk;
      Advance(if ok then disk[path := Regular("")] else disk);
    }

    method WriteFile(path: string, bytes: string) returns (ok: bool)
      modifies this
      ensures ok == sch(old(clock)).Works?
      ensures State() == Write(sch, old(State()), path, bytes)
    {
      match sch(clock) {
        case Works => Advance(disk[path := Regular(bytes)]); ok := true;
        case Fails(written) => Advance(disk[path := Regular(written)]); ok := false;
      }
    }

    method SyncOrClose() returns (ok: bool)
      modifies this
      ensures ok == sch(old(clock)).Works?
      ensures State() == Flush(old(State()))
    {
      ok := sch(clock).Works?;
      Advance(disk);
    }

    method RenameFile(from: string, to: string) returns (ok: bool)
      modifies this
      ensures ok == Renames(sch, old(State()), from)
      ensures State() == Rename(sch, old(State()), from, to)
    {
      ok := sch(clock).Works? && from in disk;
      Advance(if ok then (disk - {from})[to := disk[from]] else disk);
    }

    method RemoveFile(path: string) returns (r: RemoveResult)
      modifies this
      ensures r == Removes(sch, old(State()), path)
      ensures State() == Remove(sch, old(State()), path)
    {
      r := if !sch(clock).Works? then RemoveFailed else if path in disk then Gone else NotExist;
      Advance(if r.Gone? then disk - {path} else disk);
    }
  }
}
