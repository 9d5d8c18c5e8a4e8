/**
 * The job manager of internal/jobs/manager.go as a state machine: dispatch, output, cancel, finish, remove, prune,
 * crash and restart, in any interleaving, together with the record files written by temporary file and rename.
 */
module JobSpec {
  import opened ByTime

  datatype Status = Pending | Running | Success | Failed | Cancelled | Interrupted {
    predicate Terminal() { Success? || Failed? || Cancelled? || Interrupted? }
  }

  datatype Job = Job(jobType: string, argv: seq<string>, status: Status, startedAt: Time, finishedAt: Time,
                     exitCode: int, stdout: string, stderr: string, error: string)

  /** How the process ended: cleanly, with an exit code, or with some other error. */
  datatype Outcome = Clean | ExitCode(code: int, text: string) | OtherError(text: string)

  /** What finish does to a job; a cancelled job stays cancelled. */
  function FinishJob(j: Job, o: Outcome, now: Time): Job {
    var f := j.(finishedAt := now);
    if j.status.Cancelled? then
      match o case ExitCode(c, _) => f.(exitCode := c) case _ => f
    else
      match o
      case Clean => f.(status := Success, exitCode := 0)
      case ExitCode(c, text) => f.(status := Failed, exitCode := c, error := text)
      case OtherError(text) => f.(status := Failed, exitCode := -1, error := text)
  }

  /** How a job is left by the end of its process, field by field. */
  predicate EndedBy(was: Job, j: Job, o: Outcome, now: Time) {
    && j.jobType == was.jobType && j.argv == was.argv && j.startedAt == was.startedAt
    && j.stdout == was.stdout && j.stderr == was.stderr && j.finishedAt == now
    && (was.status == Cancelled ==>
         j.status == Cancelled && j.error == was.error && j.exitCode == if o.ExitCode? then o.code else was.exitCode)
    && (was.status != Cancelled && o.Clean? ==> j.status == Success && j.exitCode == 0 && j.error == was.error)
    && (was.status != Cancelled && o.ExitCode? ==> j.status == Failed && j.exitCode == o.code && j.error == o.text)
    && (was.status != Cancelled && o.OtherError? ==> j.status == Failed && j.exitCode == -1 && j.error == o.text)
  }

  /** Success is exactly a clean end of a job that nobody cancelled. */
  lemma FinishedBy(was: Job, o: Outcome, now: Time)
    ensures EndedBy(was, FinishJob(was, o, now), o, now)
    ensures FinishJob(was, o, now).status == Success <==> was.status != Cancelled && o == Clean
    ensures FinishJob(was, o, now).status == Failed <==> was.status != Cancelled && o != Clean
  {
  }

  const RESTARTED := "service restarted while job was running"

  /** How a record read at startup is shown: an unfinished job was interrupted. */
  function Recover(j: Job, now: Time): Job {
    if Unfinished(j) then
      j.(status := Interrupted, finishedAt := if j.finishedAt == 0 then now else j.finishedAt,
         error := if j.error == "" then RESTARTED else j.error)
    else j
  }

  // A record is replaced by writing a temporary file, which a crash may leave torn, and renaming it.
  datatype FileName = Record(id: Id) | Temp(id: Id)
  datatype Content = Torn | Whole(job: Job)

  /** Where the goroutine that dispatched and supervises a job stands. */
  datatype Phase =
    | Inserted                          // in the map, initial record not yet captured
    | Saving(rec: Job, temped: bool)    // writing the captured initial record
    | Live                              // output is collected until the process ends
    | Finished(temped: bool)            // final status set, final record not yet in place
    | Written                           // final record write over, prune still to come
    | Done
  {
    predicate Dispatched() { Inserted? || Saving? || Live? }
    predicate OwesWrite() { Dispatched() || Finished? }
  }

  datatype State = State(
    retain: nat,
    jobs: map<Id, Job>,            // every job object of this process, in the map or not
    entries: set<Id>,              // ids in the manager's map
    phase: map<Id, Phase>,         // supervisors of jobs dispatched by this process
    unlinking: set<Id>,            // removed from the map, record file not yet deleted
    gone: set<Id>,                 // record file deleted, no write still owed
    owed: set<Id>,                 // record file deleted while the supervisor still owed a write
    disk: map<FileName, Content>,
    saved: map<Id, Job>)           // final records put in place and not deleted since

  datatype Action =
    | Launch(id: Id, job: Job)
    | Capture(id: Id)
    | StartTorn(id: Id)
    | StartTemp(id: Id)
    | StartRename(id: Id)
    | StartFail(id: Id)
    | Output(id: Id, stdout: string, stderr: string)
    | Cancel(id: Id)
    | Finish(id: Id, outcome: Outcome, now: Time)
    | FinishTorn(id: Id)
    | FinishTemp(id: Id)
    | FinishRename(id: Id)
    | FinishFail(id: Id)
    | Prune(id: Id, seen: map<Id, Time>, dropped: set<Id>)
    | RemoveEntry(id: Id)
    | RemoveFile(id: Id)
    | RemoveFileFail(id: Id)
    | CrashAndRestart(attempts: seq<Attempt>, now: Time, dropped: set<Id>)

  // ---- Retention ----

  function Excess(n: nat, retain: nat, done: nat): nat {
    if n <= retain then 0 else if n - retain < done then n - retain else done
  }

  /** `dropped` are the oldest finished jobs above the limit; ties may be broken either way. */
  ghost predicate IsPrune(entries: set<Id>, seen: map<Id, Time>, retain: nat, dropped: set<Id>) {
    && dropped <= seen.Keys <= entries
    && |dropped| == Excess(|entries|, retain, |seen|)
    && forall d, k :: d in dropped && k in seen && k !in dropped ==> seen[d] <= seen[k]
  }

  lemma PruneLeaves(entries: set<Id>, seen: map<Id, Time>, retain: nat, dropped: set<Id>)
    requires IsPrune(entries, seen, retain, dropped)
    ensures |entries| > retain ==>
      |entries - dropped| == if retain > |entries| - |seen| then retain else |entries| - |seen|
    ensures |entries| <= retain ==> entries - dropped == entries
  {
    assert |seen.Keys| == |seen|;
    assert |entries - dropped| == |entries| - |dropped|;
  }

  // ---- Startup ----

  function Records(disk: map<FileName, Content>): set<Id> {
    set f | f in disk && f.Record? && disk[f].Whole? :: f.id
  }

  function Loaded(disk: map<FileName, Content>, now: Time): map<Id, Job> {
    map id | id in Records(disk) :: Recover(disk[Record(id)].job, now)
  }

  function FinishTimes(jobs: map<Id, Job>): map<Id, Time> {
    map id | id in jobs :: jobs[id].finishedAt
  }

  predicate Unfinished(j: Job) { j.status.Running? || j.status.Pending? }

  // A record that startup finds unfinished, and rewrites.
  predicate Resumed(disk: map<FileName, Content>, id: Id) {
    Record(id) in disk && disk[Record(id)].Whole? && Unfinished(disk[Record(id)].job)
  }

  /**
   * The files after startup: interrupted records rewritten, which takes their temporary files, and records beyond the
   * retention limit deleted.
   */
  function Rewritten(disk: map<FileName, Content>, loaded: map<Id, Job>, dropped: set<Id>): map<FileName, Content> {
    map f | f in disk && !(f.Record? && f.id in dropped) && !(f.Temp? && f.id in loaded && Resumed(disk, f.id)) ::
      if f.Record? && f.id in loaded then Whole(loaded[f.id]) else disk[f]
  }

  function Boot(retain: nat, disk: map<FileName, Content>, now: Time, dropped: set<Id>): State {
    var loaded := Loaded(disk, now);
    var kept := map id | id in loaded && id !in dropped :: loaded[id];
    State(retain, kept, kept.Keys, map[], {}, {}, {}, Rewritten(disk, loaded, dropped), kept)
  }

  ghost predicate CanBoot(retain: nat, disk: map<FileName, Content>, now: Time, dropped: set<Id>) {
    now > 0 && IsPrune(Loaded(disk, now).Keys, FinishTimes(Loaded(disk, now)), retain, dropped)
  }

  // ---- Startups that a crash interrupts ----

  // One file operation of a startup: writing an interrupted record in three steps, or unlinking a pruned one.
  datatype BootStep = TempTorn(id: Id) | TempWhole(id: Id) | TempRenamed(id: Id) | Unlinked(id: Id)

  // A startup that was over before it was done.
  datatype Attempt = Attempt(now: Time, dropped: set<Id>, steps: seq<BootStep>)

  predicate BootEnabled(disk: map<FileName, Content>, now: Time, dropped: set<Id>, b: BootStep) {
    match b
    case TempTorn(id) => Resumed(disk, id)
    case TempWhole(id) => Resumed(disk, id)
    case TempRenamed(id) =>
      Resumed(disk, id) && Temp(id) in disk && disk[Temp(id)] == Whole(Recover(disk[Record(id)].job, now))
    case Unlinked(id) => id in dropped
  }

  function BootDo(disk: map<FileName, Content>, now: Time, dropped: set<Id>, b: BootStep): map<FileName, Content>
    requires BootEnabled(disk, now, dropped, b)
  {
    match b
    case TempTorn(id) => disk[Temp(id) := Torn]
    case TempWhole(id) => disk[Temp(id) := Whole(Recover(disk[Record(id)].job, now))]
    case TempRenamed(id) => disk[Record(id) := disk[Temp(id)]] - {Temp(id)}
    case Unlinked(id) => disk - {Record(id)}
  }

  predicate BootLegal(disk: map<FileName, Content>, now: Time, dropped: set<Id>, steps: seq<BootStep>)
    decreases |steps|, 0
  {
    steps == [] ||
    (BootLegal(disk, now, dropped, steps[..|steps| - 1]) &&
     BootEnabled(BootRun(disk, now, dropped, steps[..|steps| - 1]), now, dropped, steps[|steps| - 1]))
  }

  function BootRun(disk: map<FileName, Content>, now: Time, dropped: set<Id>, steps: seq<BootStep>)
    : map<FileName, Content>
    requires BootLegal(disk, now, dropped, steps)
    decreases |steps|, 1
  {
    if steps == [] then disk
    else BootDo(BootRun(disk, now, dropped, steps[..|steps| - 1]), now, dropped, steps[|steps| - 1])
  }

  /** Each of the interrupted startups started from what the one before had left. */
  ghost predicate CanAttempt(retain: nat, disk: map<FileName, Content>, attempts: seq<Attempt>)
    decreases |attempts|, 0
  {
    attempts == [] ||
    var front, a := attempts[..|attempts| - 1], attempts[|attempts| - 1];
    && CanAttempt(retain, disk, front)
    && CanBoot(retain, Attempted(retain, disk, front), a.now, a.dropped)
    && BootLegal(Attempted(retain, disk, front), a.now, a.dropped, a.steps)
  }

  ghost function Attempted(retain: nat, disk: map<FileName, Content>, attempts: seq<Attempt>): map<FileName, Content>
    requires CanAttempt(retain, disk, attempts)
    decreases |attempts|, 1
  {
    if attempts == [] then disk
    else
      var a := attempts[|attempts| - 1];
      BootRun(Attempted(retain, disk, attempts[..|attempts| - 1]), a.now, a.dropped, a.steps)
  }

  // ---- Steps ----

  /** The jobs a prune by supervisor `id` cannot miss: nobody else is still working on them. */
  ghost predicate Settled(s: State, id: Id, k: Id) {
    k == id || k !in s.phase || s.phase[k].Done?
  }

  ghost predicate Enabled(s: State, a: Action) {
    match a
    case Launch(id, j) =>
      && id !in s.jobs && Record(id) !in s.disk && Temp(id) !in s.disk
      && j.status.Running? && j.finishedAt == 0
    case Capture(id) => id in s.phase && id in s.jobs && s.phase[id].Inserted?
    case StartTorn(id) => id in s.phase && s.phase[id].Saving? && !s.phase[id].temped
    case StartTemp(id) => id in s.phase && s.phase[id].Saving? && !s.phase[id].temped
    case StartRename(id) => id in s.phase && s.phase[id].Saving? && s.phase[id].temped
    case StartFail(id) => id in s.phase && s.phase[id].Saving?
    case Output(id, _, _) => id in s.phase && id in s.jobs && s.phase[id].Live?
    case Cancel(id) => id in s.entries && id in s.jobs && !s.jobs[id].status.Terminal()
    case Finish(id, _, now) => id in s.phase && id in s.jobs && s.phase[id].Live? && now > 0
    case FinishTorn(id) => id in s.phase && s.phase[id].Finished? && !s.phase[id].temped
    case FinishTemp(id) => id in s.phase && id in s.jobs && s.phase[id].Finished? && !s.phase[id].temped
    case FinishRename(id) => id in s.phase && id in s.jobs && s.phase[id].Finished? && s.phase[id].temped
    case FinishFail(id) => id in s.phase && s.phase[id].Finished?
    case Prune(id, seen, dropped) =>
      && id in s.phase && s.phase[id].Written?
      && IsPrune(s.entries, seen, s.retain, dropped)
      && (forall k :: k in seen ==> k in s.jobs && s.jobs[k].status.Terminal())
      && (forall k :: k in s.entries && k in s.jobs && Settled(s, id, k) ==>
            k in seen && seen[k] == s.jobs[k].finishedAt)
    case RemoveEntry(id) => id in s.entries && id in s.jobs && s.jobs[id].status.Terminal()
    case RemoveFile(id) => id in s.unlinking
    case RemoveFileFail(id) => id in s.unlinking
    case CrashAndRestart(attempts, now, dropped) =>
      CanAttempt(s.retain, s.disk, attempts) && CanBoot(s.retain, Attempted(s.retain, s.disk, attempts), now, dropped)
  }

  /** Deleting a record file. */
  function Unlink(s: State, id: Id): State {
    var late := id in s.phase && s.phase[id].OwesWrite();
    s.(disk := s.disk - {Record(id)}, saved := s.saved - {id},
       owed := if late then s.owed + {id} else s.owed, gone := if late then s.gone else s.gone + {id})
  }

  ghost function Do(s: State, a: Action): State
    requires Enabled(s, a)
  {
    match a
    case Launch(id, j) => s.(jobs := s.jobs[id := j], entries := s.entries + {id}, phase := s.phase[id := Inserted])
    case Capture(id) => s.(phase := s.phase[id := Saving(s.jobs[id], false)])
    case StartTorn(id) => s.(disk := s.disk[Temp(id) := Torn])
    case StartTemp(id) =>
      s.(disk := s.disk[Temp(id) := Whole(s.phase[id].rec)], phase := s.phase[id := s.phase[id].(temped := true)])
    case StartRename(id) =>
      s.(disk := s.disk[Record(id) := Whole(s.phase[id].rec)] - {Temp(id)}, phase := s.phase[id := Live])
    case StartFail(id) => s.(phase := s.phase[id := Live])
    case Output(id, out, err) => s.(jobs := s.jobs[id := s.jobs[id].(stdout := out, stderr := err)])
    case Cancel(id) => s.(jobs := s.jobs[id := s.jobs[id].(status := Cancelled)])
    case Finish(id, o, now) =>
      s.(jobs := s.jobs[id := FinishJob(s.jobs[id], o, now)], phase := s.phase[id := Finished(false)])
    case FinishTorn(id) => s.(disk := s.disk[Temp(id) := Torn])
    case FinishTemp(id) => s.(disk := s.disk[Temp(id) := Whole(s.jobs[id])], phase := s.phase[id := Finished(true)])
    case FinishRename(id) =>
      s.(disk := s.disk[Record(id) := Whole(s.jobs[id])] - {Temp(id)}, phase := s.phase[id := Written],
         saved := s.saved[id := s.jobs[id]])
    case FinishFail(id) => s.(phase := s.phase[id := Written])
    case Prune(id, _, dropped) =>
      s.(entries := s.entries - dropped, unlinking := s.unlinking + dropped, phase := s.phase[id := Done])
    case RemoveEntry(id) => s.(entries := s.entries - {id}, unlinking := s.unlinking + {id})
    case RemoveFile(id) => Unlink(s.(unlinking := s.unlinking - {id}), id)
    case RemoveFileFail(id) => s.(unlinking := s.unlinking - {id})
    case CrashAndRestart(attempts, now, dropped) => Boot(s.retain, Attempted(s.retain, s.disk, attempts), now, dropped)
  }

  ghost predicate IsRun(s: State, actions: seq<Action>)
    decreases |actions|
  {
    actions == [] || (Enabled(s, actions[0]) && IsRun(Do(s, actions[0]), actions[1..]))
  }

  ghost function After(s: State, actions: seq<Action>): State
    requires IsRun(s, actions)
    decreases |actions|
  {
    if actions == [] then s else After(Do(s, actions[0]), actions[1..])
  }

  // ---- The invariant ----

  /** An initial record: captured before the job ended, possibly just after it was cancelled. */
  predicate IsStart(j: Job) {
    (j.status.Running? || j.status.Cancelled?) && j.finishedAt == 0
  }

  /** A job, its supervisor and its status agree. */
  ghost predicate JobInv(s: State, id: Id)
    requires id in s.jobs
  {
    var j := s.jobs[id];
    && (id in s.phase && s.phase[id].Dispatched() ==> IsStart(j))
    && (id !in s.phase || !s.phase[id].Dispatched() ==> j.status.Terminal())
    && (!j.status.Terminal() ==> id in s.entries)
    && (id in s.phase && s.phase[id].Saving? ==> IsStart(s.phase[id].rec))
  }

  /** A record file is whole, and is the final record once that was saved and an initial record before. */
  ghost predicate FileInv(s: State, id: Id) {
    && (id in s.saved ==> id in s.jobs && s.saved[id] == s.jobs[id] && (id in s.phase ==> !s.phase[id].OwesWrite())
                          && Record(id) in s.disk && s.disk[Record(id)] == Whole(s.saved[id]))
    && (Record(id) in s.disk ==> s.disk[Record(id)].Whole? && id in s.jobs)
    && (Record(id) in s.disk && id !in s.saved ==> id in s.phase && IsStart(s.disk[Record(id)].job))
    && (id in s.phase && s.phase[id].Saving? && s.phase[id].temped ==>
          Temp(id) in s.disk && s.disk[Temp(id)] == Whole(s.phase[id].rec))
    && (id in s.phase && s.phase[id].Finished? && s.phase[id].temped ==>
          Temp(id) in s.disk && id in s.jobs && s.disk[Temp(id)] == Whole(s.jobs[id]))
  }

  ghost predicate Inv(s: State) {
    && s.phase.Keys <= s.jobs.Keys && s.entries <= s.jobs.Keys && s.unlinking <= s.jobs.Keys
    && s.entries !! s.unlinking
    && (forall id :: id in s.jobs ==> JobInv(s, id))
    && (forall id :: FileInv(s, id))
  }

  lemma UnlinkFile(s: State, gone: Id, id: Id)
    requires FileInv(s, id)
    ensures FileInv(Unlink(s, gone), id)
  {
  }

  ghost predicate WholeRecords(disk: map<FileName, Content>) {
    forall id :: Record(id) in disk ==> disk[Record(id)].Whole?
  }

  lemma {:induction false} BootKeepsWhole(disk: map<FileName, Content>, now: Time, dropped: set<Id>,
                                          steps: seq<BootStep>)
    requires WholeRecords(disk) && BootLegal(disk, now, dropped, steps)
    ensures WholeRecords(BootRun(disk, now, dropped, steps))
  {
    if steps != [] {
      BootKeepsWhole(disk, now, dropped, steps[..|steps| - 1]);
    }
  }

  lemma {:induction false} AttemptsKeepWhole(retain: nat, disk: map<FileName, Content>, attempts: seq<Attempt>)
    requires WholeRecords(disk) && CanAttempt(retain, disk, attempts)
    ensures WholeRecords(Attempted(retain, disk, attempts))
  {
    if attempts != [] {
      var front, a := attempts[..|attempts| - 1], attempts[|attempts| - 1];
      AttemptsKeepWhole(retain, disk, front);
      BootKeepsWhole(Attempted(retain, disk, front), a.now, a.dropped, a.steps);
    }
  }

  lemma BootInv(retain: nat, disk: map<FileName, Content>, now: Time, dropped: set<Id>)
    requires CanBoot(retain, disk, now, dropped) && WholeRecords(disk)
    ensures Inv(Boot(retain, disk, now, dropped))
  {
    var s := Boot(retain, disk, now, dropped);
    forall id ensures FileInv(s, id) {
      if Record(id) in s.disk {
        assert id in Records(disk);
      }
    }
  }

  lemma StepJob(s: State, a: Action, id: Id)
    requires Inv(s) && Enabled(s, a) && !a.CrashAndRestart? && id in Do(s, a).jobs
    ensures JobInv(Do(s, a), id)
  {
    if id in s.jobs {
      assert JobInv(s, id);
    }
    match a case _ =>
  }

  predicate WritesStart(a: Action) { a.StartTorn? || a.StartTemp? || a.StartRename? || a.StartFail? }

  predicate WritesFinal(a: Action) { a.FinishTorn? || a.FinishTemp? || a.FinishRename? || a.FinishFail? }

  lemma StartFile(s: State, a: Action, id: Id)
    requires Inv(s) && Enabled(s, a) && WritesStart(a)
    ensures FileInv(Do(s, a), id)
  {
    assert FileInv(s, id) && FileInv(s, a.id);
    assert id in s.jobs ==> JobInv(s, id);
    assert a.id in s.jobs && JobInv(s, a.id);
  }

  lemma FinalFile(s: State, a: Action, id: Id)
    requires Inv(s) && Enabled(s, a) && WritesFinal(a)
    ensures FileInv(Do(s, a), id)
  {
    assert FileInv(s, id) && FileInv(s, a.id);
    assert id in s.jobs ==> JobInv(s, id);
    assert a.id in s.jobs && JobInv(s, a.id);
  }

  lemma OtherFile(s: State, a: Action, id: Id)
    requires Inv(s) && Enabled(s, a) && !a.CrashAndRestart? && !WritesStart(a) && !WritesFinal(a)
    ensures FileInv(Do(s, a), id)
  {
    assert FileInv(s, id);
    assert id in s.jobs ==> JobInv(s, id);
    if a.RemoveFile? {
      UnlinkFile(s.(unlinking := s.unlinking - {a.id}), a.id, id);
    }
  }

  lemma StepFile(s: State, a: Action, id: Id)
    requires Inv(s) && Enabled(s, a) && !a.CrashAndRestart?
    ensures FileInv(Do(s, a), id)
  {
    if WritesStart(a) {
      StartFile(s, a, id);
    } else if WritesFinal(a) {
      FinalFile(s, a, id);
    } else {
      OtherFile(s, a, id);
    }
  }

  lemma StepInv(s: State, a: Action)
    requires Inv(s) && Enabled(s, a)
    ensures Inv(Do(s, a))
  {
    if a.CrashAndRestart? {
      assert forall id :: Record(id) in s.disk ==> FileInv(s, id);
      AttemptsKeepWhole(s.retain, s.disk, a.attempts);
      BootInv(s.retain, Attempted(s.retain, s.disk, a.attempts), a.now, a.dropped);
    } else {
      var s' := Do(s, a);
      forall id | id in s'.jobs ensures JobInv(s', id) {
        StepJob(s, a, id);
      }
      forall id ensures FileInv(s', id) {
        StepFile(s, a, id);
      }
    }
  }
}
