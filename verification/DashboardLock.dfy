/** cmd/si-cli/dashboard.go, `commitDashboardFile`: any number of runs of the lock,
    temporary-file and rename protocol, interleaved system call by system call. */
module DashboardLock {
  import opened Wrappers

  // Where one run is: the call it makes next.
  datatype Pc =
    | Inspecting                       // MkdirAll and the first inspectDashboardTarget
    | Acquiring                        // open the lock with O_EXCL
    | ClosingLock
    | Reinspecting
    | CreatingTemp
    | Writing(remaining: string)       // writeDashboardBytes
    | Syncing
    | Closing
    | Renaming
    | OpeningDir | SyncingDir | ClosingDir
    | RemovingTemp                     // deferred, when tempCreated
    | Unlocking                        // deferred, once the lock was acquired
    | Finished

  datatype Run = Run(pc: Pc, contents: string, force: bool, failed: bool)

  // What the runs share: the lock file, the temporary file, dashboard.json.
  datatype Files = Files(lock: bool, temp: Option<string>, target: Option<string>)

  // The outcome of the next call: it works (a write moves `count` bytes), or it fails
  // (a failed write leaves `left` in the file).
  datatype Event = Works(count: nat) | Fails(left: string)

  datatype After = After(run: Run, files: Files)

  function Goto(r: Run, pc: Pc): Run { r.(pc := pc) }

  function Fail(r: Run, pc: Pc): Run { r.(pc := pc, failed := true) }

  // One system call of a run.
  function Call(r: Run, f: Files, ev: Event): After
  {
    match r.pc
    case Inspecting => After(if ev.Works? then Goto(r, Acquiring) else Fail(r, Finished), f)
    case Acquiring =>
      if ev.Works? && !f.lock then After(Goto(r, ClosingLock), f.(lock := true)) else After(Fail(r, Finished), f)
    case ClosingLock => After(if ev.Works? then Goto(r, Reinspecting) else Fail(r, Unlocking), f)
    case Reinspecting =>
      After(if ev.Works? && (f.target.None? || r.force) then Goto(r, CreatingTemp) else Fail(r, Unlocking), f)
    case CreatingTemp =>
      if ev.Works? && f.temp.None? then After(Goto(r, Writing(r.contents)), f.(temp := Some("")))
      else After(Fail(r, Unlocking), f)
    case Writing(remaining) => CallWrite(r, f, remaining, ev)
    case Syncing => After(if ev.Works? then Goto(r, Closing) else Fail(r, RemovingTemp), f)
    case Closing => After(if ev.Works? then Goto(r, Renaming) else Fail(r, RemovingTemp), f)
    case Renaming =>
      if ev.Works? && f.temp.Some? then After(Goto(r, OpeningDir), f.(temp := None, target := f.temp))
      else After(Fail(r, RemovingTemp), f)
    case OpeningDir => After(if ev.Works? then Goto(r, SyncingDir) else Fail(r, Unlocking), f)
    case SyncingDir => After(if ev.Works? then Goto(r, ClosingDir) else Fail(r, Unlocking), f)
    case ClosingDir => After(if ev.Works? then Goto(r, Unlocking) else Fail(r, Unlocking), f)
    case RemovingTemp =>
      if ev.Works? then After(Goto(r, Unlocking), f.(temp := None)) else After(Fail(r, Unlocking), f)
    case Unlocking =>
      if ev.Works? then After(Goto(r, Finished), f.(lock := false)) else After(Fail(r, Finished), f)
    case Finished => After(r, f)
  }

  // One turn of the write loop: it ends when nothing remains, and a write of no bytes
  // is an error. (A write never moves more bytes than it was given.)
  function CallWrite(r: Run, f: Files, remaining: string, ev: Event): After
  {
    if remaining == "" then After(Goto(r, Syncing), f)
    else
      match ev
      case Fails(left) => After(Fail(r, RemovingTemp), f.(temp := Some(left)))
      case Works(count) =>
        if count == 0 || count > |remaining| || f.temp.None? then After(Fail(r, RemovingTemp), f)
        else After(Goto(r, Writing(remaining[count..])), f.(temp := Some(f.temp.value + remaining[..count])))
  }

  datatype State = State(runs: seq<Run>, files: Files)

  function Step(s: State, i: nat, ev: Event): State
    requires i < |s.runs|
  {
    var a := Call(s.runs[i], s.files, ev);
    State(s.runs[i := a.run], a.files)
  }

  // ---- Runs of the whole system ----

  datatype Action = Action(run: nat, ev: Event)

  function Act(s: State, a: Action): State
  {
    if a.run < |s.runs| then Step(s, a.run, a.ev) else s
  }

  // The state after the first n actions of a schedule.
  function StateAfter(s: State, schedule: seq<Action>, n: nat): State
    requires n <= |schedule|
    decreases n
  {
    if n == 0 then s else Act(StateAfter(s, schedule, n - 1), schedule[n - 1])
  }

  // No run has started; the lock is free. The temporary path may hold anything.
  predicate Initial(s: State)
  {
    !s.files.lock && forall i :: 0 <= i < |s.runs| ==> s.runs[i].pc == Inspecting && !s.runs[i].failed
  }

  // ---- What holds in every reachable state ----

  // Between acquiring and releasing the lock.
  predicate InSection(pc: Pc)
  {
    !pc.Inspecting? && !pc.Acquiring? && !pc.Finished?
  }

  // The run has passed the check of the target and not yet replaced it.
  predicate BeforeReplace(pc: Pc)
  {
    pc.CreatingTemp? || pc.Writing? || pc.Syncing? || pc.Closing? || pc.Renaming?
  }

  // The run has replaced the target and has not failed since.
  predicate HasReplaced(r: Run)
  {
    r.pc.OpeningDir? || r.pc.SyncingDir? || r.pc.ClosingDir? || (!r.failed && (r.pc.Unlocking? || r.pc.Finished?))
  }

  predicate Succeeded(r: Run) { r.pc.Finished? && !r.failed }

  // The temporary file holds what the run has written so far.
  predicate TempMatches(temp: Option<string>, r: Run)
  {
    match r.pc
    case Writing(remaining) =>
      && |remaining| <= |r.contents|
      && remaining == r.contents[|r.contents| - |remaining|..]
      && temp == Some(r.contents[..|r.contents| - |remaining|])
    case Syncing => temp == Some(r.contents)
    case Closing => temp == Some(r.contents)
    case Renaming => temp == Some(r.contents)
    case _ => true
  }

  predicate MutualExclusion(s: State)
  {
    && (forall i, j :: 0 <= i < j < |s.runs| ==> !(InSection(s.runs[i].pc) && InSection(s.runs[j].pc)))
    && (forall i :: 0 <= i < |s.runs| && InSection(s.runs[i].pc) ==> s.files.lock)
  }

  predicate TargetComplete(s: State, initial: State)
  {
    || s.files.target == initial.files.target
    || exists i :: 0 <= i < |s.runs| && s.files.target == Some(s.runs[i].contents)
  }

  // Non-forced runs: one that may still replace the target sees none, and one that has
  // replaced it is the only one, and found none at the start.
  predicate NonForcedOnce(s: State, initial: State)
  {
    && (forall i :: 0 <= i < |s.runs| && !s.runs[i].force && BeforeReplace(s.runs[i].pc) ==> s.files.target.None?)
    && (forall i :: 0 <= i < |s.runs| && !s.runs[i].force && HasReplaced(s.runs[i]) ==>
          s.files.target.Some? && initial.files.target.None?)
    && (forall i, j :: 0 <= i < j < |s.runs| && !s.runs[i].force && !s.runs[j].force ==>
          !(HasReplaced(s.runs[i]) && HasReplaced(s.runs[j])))
  }

  predicate Inv(s: State, initial: State)
  {
    && MutualExclusion(s)
    && (forall i :: 0 <= i < |s.runs| ==> TempMatches(s.files.temp, s.runs[i]))
    && TargetComplete(s, initial)
    && NonForcedOnce(s, initial)
    && (initial.files.target.Some? ==> s.files.target.Some?)
    && (forall i :: 0 <= i < |s.runs| && s.runs[i].pc.RemovingTemp? ==> s.runs[i].failed)
  }

  // ---- One call keeps it ----

  // The shared files change only inside the section, the lock on the way in and out.
  lemma {:induction false} CallShared(r: Run, f: Files, ev: Event)
    ensures var a := Call(r, f, ev);
            && a.run.contents == r.contents && a.run.force == r.force
            && (a.files.temp != f.temp ==> InSection(r.pc))
            && (a.files.target != f.target ==> r.pc == Renaming && a.files.target == f.temp)
            && (a.files.lock && !f.lock ==> r.pc == Acquiring)
            && (!a.files.lock && f.lock ==> InSection(r.pc) && !InSection(a.run.pc))
            && (InSection(a.run.pc) && !InSection(r.pc) ==> !f.lock && a.files.lock)
  {
  }

  lemma {:induction false} StepMutualExclusion(s: State, i: nat, ev: Event)
    requires i < |s.runs| && MutualExclusion(s)
    ensures MutualExclusion(Step(s, i, ev))
  {
    hide Call, InSection;
    CallShared(s.runs[i], s.files, ev);
    assert !InSection(Acquiring) by { Sections(Acquiring); }
  }

  lemma {:induction false} Sections(pc: Pc)
    ensures !InSection(Acquiring) && InSection(Renaming)
    ensures BeforeReplace(pc) ==> InSection(pc)
  {
  }

  lemma {:induction false} WriteTemp(r: Run, f: Files, ev: Event)
    requires r.pc.Writing? && TempMatches(f.temp, r)
    ensures var a := CallWrite(r, f, r.pc.remaining, ev); TempMatches(a.files.temp, a.run)
  {
    var rest := r.pc.remaining;
    if rest == "" {
      assert r.contents[..|r.contents|] == r.contents;
    } else if ev.Works? && 0 < ev.count <= |rest| {
      hide TempMatches;
      Written(r, f.temp.value, rest, ev.count);
    }
  }

  // One write that moves some of the remaining bytes.
  lemma {:induction false} Written(r: Run, temp: string, rest: string, count: nat)
    requires |rest| <= |r.contents| && count <= |rest|
    requires rest == r.contents[|r.contents| - |rest|..] && temp == r.contents[..|r.contents| - |rest|]
    ensures TempMatches(Some(temp + rest[..count]), Goto(r, Writing(rest[count..])))
  {
    SplitContents(r.contents, |r.contents| - |rest|, count);
  }

  lemma {:induction false} SplitContents(contents: string, done: nat, count: nat)
    requires done + count <= |contents|
    ensures contents[..done] + contents[done..][..count] == contents[..done + count]
    ensures contents[done..][count..] == contents[done + count..]
  {
  }

  // A run's own temporary file stays in step with what it wrote.
  lemma {:induction false} CallTemp(r: Run, f: Files, ev: Event)
    requires TempMatches(f.temp, r)
    ensures var a := Call(r, f, ev); TempMatches(a.files.temp, a.run)
  {
    hide CallWrite;
    if r.pc.Writing? { WriteTemp(r, f, ev); }
    assert r.contents[0..] == r.contents && r.contents[..0] == "";
  }

  lemma {:induction false} StepTemp(s: State, i: nat, ev: Event)
    requires i < |s.runs| && MutualExclusion(s)
    requires forall j :: 0 <= j < |s.runs| ==> TempMatches(s.files.temp, s.runs[j])
    ensures var s' := Step(s, i, ev); forall j :: 0 <= j < |s'.runs| ==> TempMatches(s'.files.temp, s'.runs[j])
  {
    hide Call;
    CallShared(s.runs[i], s.files, ev);
    CallTemp(s.runs[i], s.files, ev);
    var s' := Step(s, i, ev);
    forall j | 0 <= j < |s'.runs| ensures TempMatches(s'.files.temp, s'.runs[j]) {
      if j != i && s'.files.temp != s.files.temp {
        assert !InSection(s.runs[j].pc);
      }
    }
  }

  lemma {:induction false} StepTarget(s: State, i: nat, ev: Event, initial: State)
    requires i < |s.runs| && TempMatches(s.files.temp, s.runs[i]) && TargetComplete(s, initial)
    ensures TargetComplete(Step(s, i, ev), initial)
    ensures s.files.target.Some? ==> Step(s, i, ev).files.target.Some?
  {
    hide Call;
    CallShared(s.runs[i], s.files, ev);
    var s' := Step(s, i, ev);
    if s'.files.target != s.files.target {
      assert s'.files.target == Some(s'.runs[i].contents);
    } else if s.files.target != initial.files.target {
      var j :| 0 <= j < |s.runs| && s.files.target == Some(s.runs[j].contents);
      assert s'.files.target == Some(s'.runs[j].contents);
    }
  }

  // Where a run stands with respect to replacing the target.
  lemma {:induction false} CallReplace(r: Run, f: Files, ev: Event)
    requires TempMatches(f.temp, r)
    requires r.pc.RemovingTemp? ==> r.failed
    ensures var a := Call(r, f, ev);
            && (BeforeReplace(a.run.pc) ==> BeforeReplace(r.pc) || f.target.None? || r.force)
            && (BeforeReplace(a.run.pc) ==> a.files.target == f.target)
            && (HasReplaced(a.run) && !HasReplaced(r) ==> BeforeReplace(r.pc) && a.files.target.Some?)
            && (HasReplaced(r) ==> a.files.target == f.target)
            && (a.files.target != f.target ==> BeforeReplace(r.pc))
            && (a.run.pc.RemovingTemp? ==> a.run.failed)
  {
  }

  lemma {:induction false} StepNonForced(s: State, i: nat, ev: Event, initial: State)
    requires i < |s.runs| && Inv(s, initial)
    ensures NonForcedOnce(Step(s, i, ev), initial)
  {
    hide Call, InSection, BeforeReplace, HasReplaced, TempMatches;
    CallShared(s.runs[i], s.files, ev);
    CallReplace(s.runs[i], s.files, ev);
    StepTarget(s, i, ev, initial);
    Sections(s.runs[i].pc);
    var s' := Step(s, i, ev);
    forall j | 0 <= j < |s'.runs| && !s'.runs[j].force && BeforeReplace(s'.runs[j].pc) ensures s'.files.target.None? {
      Sections(s.runs[j].pc);
      if j != i && s'.files.target != s.files.target { assert false; }
    }
  }

  lemma {:induction false} StepKeepsInv(s: State, i: nat, ev: Event, initial: State)
    requires i < |s.runs| && Inv(s, initial)
    ensures Inv(Step(s, i, ev), initial)
  {
    hide Call, MutualExclusion, TempMatches, TargetComplete, NonForcedOnce;
    StepMutualExclusion(s, i, ev);
    StepTemp(s, i, ev);
    StepTarget(s, i, ev, initial);
    StepNonForced(s, i, ev, initial);
    CallReplace(s.runs[i], s.files, ev);
  }

  // ---- Every run of the system ----

  lemma {:induction false} Reachable(initial: State, schedule: seq<Action>, n: nat)
    requires Initial(initial) && n <= |schedule|
    ensures Inv(StateAfter(initial, schedule, n), initial)
    ensures |StateAfter(initial, schedule, n).runs| == |initial.runs|
    decreases n
  {
    if n > 0 {
      hide Call, Inv;
      Reachable(initial, schedule, n - 1);
      var s, a := StateAfter(initial, schedule, n - 1), schedule[n - 1];
      if a.run < |s.runs| {
        StepKeepsInv(s, a.run, a.ev, initial);
      }
    }
  }

  // In every reachable state at most one run is between acquiring and releasing the lock,
  // and the target holds what it held at the start or one run's complete contents.
  lemma {:induction false} SafeAlways(initial: State, schedule: seq<Action>, n: nat)
    requires Initial(initial) && n <= |schedule|
    ensures MutualExclusion(StateAfter(initial, schedule, n))
    ensures TargetComplete(StateAfter(initial, schedule, n), initial)
  {
    Reachable(initial, schedule, n);
  }

  // Whoever changes the temporary file or the target is the one run in the section, and
  // a changed target holds that run's complete contents.
  lemma {:induction false} OnlyTheHolderWrites(initial: State, schedule: seq<Action>, n: nat)
    requires Initial(initial) && n < |schedule|
    ensures var s, s', i := StateAfter(initial, schedule, n), StateAfter(initial, schedule, n + 1), schedule[n].run;
            && (s'.files.temp != s.files.temp || s'.files.target != s.files.target ==>
                  i < |s.runs| && InSection(s.runs[i].pc)
                  && forall j :: 0 <= j < |s.runs| && j != i ==> !InSection(s.runs[j].pc))
            && (s'.files.target != s.files.target ==> s'.files.target == Some(s.runs[i].contents))
  {
    hide Call;
    Reachable(initial, schedule, n);
    var s, a := StateAfter(initial, schedule, n), schedule[n];
    assert StateAfter(initial, schedule, n + 1) == Act(s, a);
    if a.run < |s.runs| {
      CallShared(s.runs[a.run], s.files, a.ev);
      Sections(Renaming);
    }
  }

  // Two runs without force never both succeed, and none succeeds over a file that was there.
  lemma {:induction false} AtMostOneNonForcedSuccess(initial: State, schedule: seq<Action>, n: nat, i: nat, j: nat)
    requires Initial(initial) && n <= |schedule|
    requires i < |initial.runs| && j < |initial.runs|
    ensures |StateAfter(initial, schedule, n).runs| == |initial.runs|
    ensures var s := StateAfter(initial, schedule, n);
            && (Succeeded(s.runs[i]) && !s.runs[i].force ==> initial.files.target.None? && s.files.target.Some?)
            && (Succeeded(s.runs[i]) && !s.runs[i].force && Succeeded(s.runs[j]) && !s.runs[j].force ==> i == j)
  {
    Reachable(initial, schedule, n);
    var s := StateAfter(initial, schedule, n);
    assert Succeeded(s.runs[i]) ==> HasReplaced(s.runs[i]);
    assert Succeeded(s.runs[j]) ==> HasReplaced(s.runs[j]);
  }

  // ---- A run that alone acts ----

  // The call does what it is for. A write moves some of the bytes it is given.
  predicate WorksAt(r: Run, ev: Event)
  {
    match r.pc
    case Writing(remaining) => remaining == "" || (ev.Works? && 0 < ev.count <= |remaining|)
    case Finished => true
    case _ => ev.Works?
  }

  // A call that removes the temporary file or the lock works.
  predicate SweepsAt(r: Run, ev: Event) { r.pc.RemovingTemp? || r.pc.Unlocking? ==> ev.Works? }

  ghost predicate Alone(s: State, i: nat, schedule: seq<Action>)
  {
    && i < |s.runs| && s.runs[i].pc == Inspecting && !s.runs[i].failed
    && !s.files.lock && s.files.temp == None
    && forall a <- schedule :: a.run == i
  }

  lemma {:induction false} AloneSteps(s: State, i: nat, schedule: seq<Action>, n: nat)
    requires Alone(s, i, schedule) && n < |schedule|
    ensures var here, next := StateAfter(s, schedule, n), StateAfter(s, schedule, n + 1);
            && |here.runs| == |next.runs| == |s.runs|
            && var a := Call(here.runs[i], here.files, schedule[n].ev);
            next.runs[i] == a.run && next.files == a.files
    decreases n
  {
    hide Call;
    assert schedule[n] in schedule;
    if n > 0 { AloneSteps(s, i, schedule, n - 1); }
  }

  // The run after the first n calls.
  function RunAfter(s: State, i: nat, schedule: seq<Action>, n: nat): Run
    requires n <= |schedule|
  {
    var t := StateAfter(s, schedule, n);
    if i < |t.runs| then t.runs[i] else Run(Finished, "", false, true)
  }

  ghost predicate AllWork(s: State, i: nat, schedule: seq<Action>, n: nat)
    requires n <= |schedule|
  {
    forall m :: 0 <= m < n ==> WorksAt(RunAfter(s, i, schedule, m), schedule[m].ev)
  }

  ghost predicate AllSweep(s: State, i: nat, schedule: seq<Action>, n: nat)
    requires n <= |schedule|
  {
    forall m :: 0 <= m < n ==> SweepsAt(RunAfter(s, i, schedule, m), schedule[m].ev)
  }

  predicate Early(pc: Pc) { pc.Inspecting? || pc.Acquiring? || pc.ClosingLock? || pc.Reinspecting? }

  predicate Late(pc: Pc) { pc.OpeningDir? || pc.SyncingDir? || pc.ClosingDir? }

  // Where the run stands: `was` is the target at the start, `worked` and `swept` say of all calls
  // so far that they worked, and that they swept.
  predicate Stands(r: Run, f: Files, was: Option<string>, worked: bool, swept: bool)
  {
    TempMatches(f.temp, r) && StandsBefore(r, f, was, worked) && StandsAfter(r, f, was, worked, swept)
  }

  // As long as nothing failed.
  predicate StandsBefore(r: Run, f: Files, was: Option<string>, worked: bool)
  {
    var allowed := was.None? || r.force;
    && (Early(r.pc) ==> !r.failed && worked && f.target == was && f.temp.None?)
    && (r.pc.Inspecting? || r.pc.Acquiring? ==> !f.lock)
    && (BeforeReplace(r.pc) ==> !r.failed && worked && allowed && f.target == was)
    && (r.pc.CreatingTemp? ==> f.temp.None?)
    && (Late(r.pc) ==> !r.failed && worked && allowed && f.target == Some(r.contents) && f.temp.None?)
  }

  // On the way out.
  predicate StandsAfter(r: Run, f: Files, was: Option<string>, worked: bool, swept: bool)
  {
    var allowed := was.None? || r.force;
    && (r.pc.RemovingTemp? ==> r.failed && !worked && f.target == was)
    && (r.pc.Unlocking? || r.pc.Finished? ==>
          && (!r.failed <==> worked && allowed)
          && (f.target == was || f.target == Some(r.contents))
          && (!r.failed ==> f.target == Some(r.contents))
          && (worked && !allowed ==> f.target == was)
          && (swept ==> f.temp.None?))
    && (r.pc.Finished? && swept ==> !f.lock)
  }

  lemma {:induction false} CallStands(r: Run, f: Files, ev: Event, was: Option<string>, worked: bool, swept: bool)
    requires Stands(r, f, was, worked, swept)
    ensures var a := Call(r, f, ev);
            && a.run.contents == r.contents && a.run.force == r.force
            && Stands(a.run, a.files, was, worked && WorksAt(r, ev), swept && SweepsAt(r, ev))
  {
    hide Call;
    CallTemp(r, f, ev);
    CallShared(r, f, ev);
    hide TempMatches, StandsBefore, StandsAfter;
    CallStandsBefore(r, f, ev, was, worked, swept);
    CallStandsAfter(r, f, ev, was, worked, swept);
  }

  lemma {:induction false} CallStandsBefore(
    r: Run, f: Files, ev: Event, was: Option<string>, worked: bool, swept: bool)
    requires Stands(r, f, was, worked, swept)
    ensures var a := Call(r, f, ev); StandsBefore(a.run, a.files, was, worked && WorksAt(r, ev))
  {
    hide CallWrite, TempMatches;
    Complete(r, f);
    if r.pc.Writing? { WriteStands(r, f, r.pc.remaining, ev); }
  }

  lemma {:induction false} CallStandsAfter(
    r: Run, f: Files, ev: Event, was: Option<string>, worked: bool, swept: bool)
    requires Stands(r, f, was, worked, swept)
    ensures var a := Call(r, f, ev);
            StandsAfter(a.run, a.files, was, worked && WorksAt(r, ev), swept && SweepsAt(r, ev))
  {
    hide CallWrite, TempMatches;
    Complete(r, f);
    if r.pc.Writing? { WriteStands(r, f, r.pc.remaining, ev); }
  }

  lemma {:induction false} WriteStands(r: Run, f: Files, remaining: string, ev: Event)
    requires r.pc == Writing(remaining) && f.temp.Some?
    ensures var a := CallWrite(r, f, remaining, ev);
            && a.run == (if WorksAt(r, ev) then Goto(r, a.run.pc) else Fail(r, RemovingTemp))
            && (WorksAt(r, ev) ==> a.run.pc.Syncing? || a.run.pc.Writing?)
            && a.files.lock == f.lock && a.files.target == f.target
  {
  }

  lemma {:induction false} Complete(r: Run, f: Files)
    requires TempMatches(f.temp, r)
    ensures r.pc.Renaming? ==> f.temp == Some(r.contents)
    ensures r.pc.Writing? ==> f.temp.Some?
  {
  }

  lemma {:induction false} AloneStands(s: State, i: nat, schedule: seq<Action>, n: nat)
    requires Alone(s, i, schedule) && n <= |schedule|
    ensures var r := RunAfter(s, i, schedule, n);
            && r.contents == s.runs[i].contents && r.force == s.runs[i].force
            && Stands(r, StateAfter(s, schedule, n).files, s.files.target,
                      AllWork(s, i, schedule, n), AllSweep(s, i, schedule, n))
    decreases n
  {
    hide Call, Stands, WorksAt, SweepsAt, StateAfter;
    if n == 0 {
      assert StateAfter(s, schedule, 0) == s by { NoStep(s, schedule); }
      BeginStands(s.runs[i], s.files);
    } else {
      AloneStands(s, i, schedule, n - 1);
      AloneSteps(s, i, schedule, n - 1);
      var r, f := RunAfter(s, i, schedule, n - 1), StateAfter(s, schedule, n - 1).files;
      CallStands(r, f, schedule[n - 1].ev, s.files.target,
                 AllWork(s, i, schedule, n - 1), AllSweep(s, i, schedule, n - 1));
    }
  }

  lemma {:induction false} NoStep(s: State, schedule: seq<Action>)
    ensures StateAfter(s, schedule, 0) == s
  {
  }

  lemma {:induction false} BeginStands(r: Run, f: Files)
    requires r.pc == Inspecting && !r.failed && !f.lock && f.temp == None
    ensures Stands(r, f, f.target, true, true)
  {
  }

  // No more than this many calls are left.
  function CallsLeft(r: Run): nat
  {
    match r.pc
    case Inspecting => 13 + |r.contents|
    case Acquiring => 12 + |r.contents|
    case ClosingLock => 11 + |r.contents|
    case Reinspecting => 10 + |r.contents|
    case CreatingTemp => 9 + |r.contents|
    case Writing(remaining) => 8 + |remaining|
    case Syncing => 7
    case Closing => 6
    case Renaming => 5
    case OpeningDir => 4
    case SyncingDir => 3
    case ClosingDir => 2
    case RemovingTemp => 2
    case Unlocking => 1
    case Finished => 0
  }

  lemma {:induction false} CallGoesOn(r: Run, f: Files, ev: Event)
    ensures CallsLeft(Call(r, f, ev).run) <= if CallsLeft(r) == 0 then 0 else CallsLeft(r) - 1
  {
    hide CallWrite;
    if r.pc.Writing? { WriteGoesOn(r, f, r.pc.remaining, ev); }
  }

  lemma {:induction false} WriteGoesOn(r: Run, f: Files, remaining: string, ev: Event)
    ensures CallsLeft(CallWrite(r, f, remaining, ev).run) < 8 + |remaining|
  {
  }

  lemma {:induction false} AloneGoesOn(s: State, i: nat, schedule: seq<Action>, n: nat)
    requires Alone(s, i, schedule) && n <= |schedule|
    ensures CallsLeft(RunAfter(s, i, schedule, n)) + n <= 13 + |s.runs[i].contents|
            || RunAfter(s, i, schedule, n).pc.Finished?
    decreases n
  {
    hide Call;
    if n > 0 {
      AloneGoesOn(s, i, schedule, n - 1);
      AloneSteps(s, i, schedule, n - 1);
      CallGoesOn(RunAfter(s, i, schedule, n - 1), StateAfter(s, schedule, n - 1).files, schedule[n - 1].ev);
    }
  }

  // A run that alone acts, from a free lock and temporary path, finishes whatever fails. It
  // succeeds exactly when every call worked and the target was absent or `force` is set, and then
  // the target holds its complete contents. A lock or a temporary file is left only when the call
  // that removes it fails. A run refused over an existing target leaves that as it was.
  lemma {:induction false} AloneSucceedsExactlyWhen(s: State, i: nat, schedule: seq<Action>)
    requires Alone(s, i, schedule) && |schedule| >= 13 + |s.runs[i].contents|
    ensures var n := |schedule|;
            var r, f := RunAfter(s, i, schedule, n), StateAfter(s, schedule, n).files;
            && r.pc.Finished?
            && (Succeeded(r) <==> AllWork(s, i, schedule, n) && (s.files.target.None? || s.runs[i].force))
            && (Succeeded(r) ==> f.target == Some(s.runs[i].contents))
            && (AllWork(s, i, schedule, n) && !Succeeded(r) ==> f.target == s.files.target)
            && (f.target == s.files.target || f.target == Some(s.runs[i].contents))
            && (AllSweep(s, i, schedule, n) ==> !f.lock && f.temp.None?)
  {
    hide Call, AllWork, AllSweep;
    AloneStands(s, i, schedule, |schedule|);
    AloneGoesOn(s, i, schedule, |schedule|);
  }

  // With no fault at all nothing is left behind.
  lemma {:induction false} WorkingSweeps(s: State, i: nat, schedule: seq<Action>, n: nat)
    requires n <= |schedule| && AllWork(s, i, schedule, n)
    ensures AllSweep(s, i, schedule, n)
  {
  }

  // ---- A lock or a temporary path that was taken ----

  // The run has not come past a taken lock, or past a taken temporary path.
  predicate Blocked(r: Run, locked: bool)
  {
    || r.pc.Inspecting? || r.pc.Acquiring? || (r.pc.Finished? && r.failed)
    || (!locked && (r.pc.ClosingLock? || r.pc.Reinspecting? || r.pc.CreatingTemp? || (r.pc.Unlocking? && r.failed)))
  }

  ghost predicate AllBlocked(s: State, initial: State)
  {
    && s.files.temp == initial.files.temp && s.files.target == initial.files.target
    && (initial.files.lock ==> s.files.lock)
    && forall i :: 0 <= i < |s.runs| ==> Blocked(s.runs[i], initial.files.lock)
  }

  // A lock left by someone else stops every run, and so does a file at the temporary path:
  // whatever the interleaving, no run succeeds and both files stay as they are.
  lemma {:induction false} TakenPathBlocks(initial: State, schedule: seq<Action>, n: nat)
    requires forall i :: 0 <= i < |initial.runs| ==> initial.runs[i].pc == Inspecting
    requires (initial.files.lock || initial.files.temp.Some?) && n <= |schedule|
    ensures AllBlocked(StateAfter(initial, schedule, n), initial)
    ensures forall i :: 0 <= i < |StateAfter(initial, schedule, n).runs| ==>
              !Succeeded(StateAfter(initial, schedule, n).runs[i])
    decreases n
  {
    hide Call;
    if n > 0 {
      TakenPathBlocks(initial, schedule, n - 1);
      var s, a := StateAfter(initial, schedule, n - 1), schedule[n - 1];
      if a.run < |s.runs| { CallBlocked(s.runs[a.run], s.files, a.ev, initial.files.lock); }
    }
  }

  lemma {:induction false} CallBlocked(r: Run, f: Files, ev: Event, locked: bool)
    requires Blocked(r, locked) && (if locked then f.lock else f.temp.Some?)
    ensures var a := Call(r, f, ev);
            && Blocked(a.run, locked) && a.files.temp == f.temp && a.files.target == f.target
            && (locked ==> a.files.lock)
  {
  }

  // ---- writeDashboardBytes ----

  // A file whose next write moves as many bytes as `moves` says, or fails.
  class File {
    const moves: nat -> Event
    var contents: string
    var clock: nat

    constructor (moves: nat -> Event)
      ensures this.moves == moves && contents == "" && clock == 0
    {
      this.moves := moves;
      contents := "";
      clock := 0;
    }

    // io.Writer: at most |bytes| are moved, and fewer than |bytes| is not by itself an error.
    method Write(bytes: string) returns (written: nat, ok: bool)
      modifies this
      ensures ok ==> written <= |bytes| && contents == old(contents) + bytes[..written]
    {
      match moves(clock) {
        case Works(count) =>
          written, ok := if count <= |bytes| then count else |bytes|, true;
          contents := contents + bytes[..written];
        case Fails(left) =>
          written, ok := 0, false;
          contents := left;
      }
      clock := clock + 1;
    }
  }

  // On success every byte is in the file, however the writes were split.
  method WriteDashboardBytes(file: File, contents: string) returns (ok: bool)
    modifies file
    ensures ok ==> file.contents == old(file.contents) + contents
  {
    var remaining := contents;
    assert old(file.contents) + contents == file.contents + remaining;
    while |remaining| > 0
      invariant file.contents + remaining == old(file.contents) + contents
      decreases |remaining|
    {
      ghost var before := file.contents;
      var written, written' := file.Write(remaining);
      if !written' { return false; }
      if written == 0 { return false; }
      assert before + remaining == before + remaining[..written] + remaining[written..];
      remaining := remaining[written..];
    }
    assert file.contents + "" == file.contents;
    return true;
  }
}
