/** Which end a job is shown with, told from what happened to it: the first cancel or end of its process decides. */
module Outcomes {
  import opened ByTime
  import opened JobSpec
  import opened JobTheorems

  datatype Fate = Undecided | CancelledFirst | EndedFirst(outcome: Outcome)

  function FateOf(actions: seq<Action>, id: Id): Fate {
    if actions == [] then Undecided
    else if actions[0] == Cancel(id) then CancelledFirst
    else if actions[0].Finish? && actions[0].id == id then EndedFirst(actions[0].outcome)
    else FateOf(actions[1..], id)
  }

  /** What a job that was running is shown with. */
  predicate Shows(j: Job, was: Job, f: Fate) {
    match f
    case Undecided => j.status == Running && j.exitCode == was.exitCode && j.error == was.error
    case CancelledFirst => j.status == Cancelled && j.error == was.error
    case EndedFirst(Clean) => j.status == Success && j.exitCode == 0 && j.error == was.error
    case EndedFirst(ExitCode(code, text)) => j.status == Failed && j.exitCode == code && j.error == text
    case EndedFirst(OtherError(text)) => j.status == Failed && j.exitCode == -1 && j.error == text
  }

  predicate IsRunning(s: State, id: Id) {
    id in s.jobs && s.jobs[id].status == Running && id in s.phase && s.phase[id].Dispatched()
  }

  // The process has ended, and the job has its final form.
  predicate IsOver(s: State, id: Id) {
    id in s.jobs && s.jobs[id].status.Terminal() && id in s.phase && !s.phase[id].Dispatched()
  }

  // Cancelled while its process runs.
  predicate IsCancelled(s: State, id: Id) {
    id in s.jobs && s.jobs[id].status == Cancelled
  }

  lemma RunningStep(s: State, a: Action, id: Id)
    requires IsRunning(s, id) && Enabled(s, a) && !a.CrashAndRestart?
    ensures var u := Do(s, a);
      if a == Cancel(id) then IsCancelled(u, id) && u.jobs[id].error == s.jobs[id].error
      else if a.Finish? && a.id == id then IsOver(u, id) && EndedBy(s.jobs[id], u.jobs[id], a.outcome, a.now)
      else IsRunning(u, id) && u.jobs[id].exitCode == s.jobs[id].exitCode && u.jobs[id].error == s.jobs[id].error
  {
    match a case _ =>
  }

  lemma OverStep(s: State, a: Action, id: Id)
    requires IsOver(s, id) && Enabled(s, a) && !a.CrashAndRestart?
    ensures IsOver(Do(s, a), id) && Do(s, a).jobs[id] == s.jobs[id]
  {
    match a case _ =>
  }

  lemma CancelledStep(s: State, a: Action, id: Id)
    requires IsCancelled(s, id) && Enabled(s, a) && !a.CrashAndRestart?
    ensures IsCancelled(Do(s, a), id) && Do(s, a).jobs[id].error == s.jobs[id].error
  {
    match a case _ =>
  }

  lemma {:induction false} OverStays(s: State, actions: seq<Action>, id: Id)
    requires IsOver(s, id) && IsRun(s, actions) && NoCrash(actions)
    ensures IsOver(After(s, actions), id) && After(s, actions).jobs[id] == s.jobs[id]
    decreases |actions|
  {
    if actions != [] {
      OverStep(s, actions[0], id);
      OverStays(Do(s, actions[0]), actions[1..], id);
    }
  }

  lemma {:induction false} CancelledStays(s: State, actions: seq<Action>, id: Id)
    requires IsCancelled(s, id) && IsRun(s, actions) && NoCrash(actions)
    ensures IsCancelled(After(s, actions), id) && After(s, actions).jobs[id].error == s.jobs[id].error
    decreases |actions|
  {
    if actions != [] {
      CancelledStep(s, actions[0], id);
      CancelledStays(Do(s, actions[0]), actions[1..], id);
    }
  }

  /** Whatever happens to it and to other jobs, a job that was running is shown with the end that came first. */
  lemma {:induction false} ShownAsEnded(s: State, actions: seq<Action>, id: Id)
    requires IsRunning(s, id) && IsRun(s, actions) && NoCrash(actions)
    ensures id in After(s, actions).jobs
    ensures Shows(After(s, actions).jobs[id], s.jobs[id], FateOf(actions, id))
    decreases |actions|
  {
    if actions != [] {
      var a, rest := actions[0], actions[1..];
      RunningStep(s, a, id);
      if a == Cancel(id) {
        CancelledStays(Do(s, a), rest, id);
      } else if a.Finish? && a.id == id {
        OverStays(Do(s, a), rest, id);
      } else {
        ShownAsEnded(Do(s, a), rest, id);
      }
    }
  }

  /** In particular, success is shown exactly after a clean end that no cancel came before. */
  lemma SuccessIff(s: State, actions: seq<Action>, id: Id)
    requires IsRunning(s, id) && IsRun(s, actions) && NoCrash(actions)
    ensures id in After(s, actions).jobs
    ensures After(s, actions).jobs[id].status == Success <==> FateOf(actions, id) == EndedFirst(Clean)
  {
    ShownAsEnded(s, actions, id);
  }

  // ---- One job, step by step ----

  lemma RunCons(s: State, a: Action, rest: seq<Action>)
    requires Enabled(s, a) && IsRun(Do(s, a), rest)
    ensures IsRun(s, [a] + rest) && After(s, [a] + rest) == After(Do(s, a), rest)
  {
    assert ([a] + rest)[1..] == rest;
  }

  /** Launching a job: it is listed, supervised, and its record is captured as it was launched. */
  lemma Begins(s: State, id: Id, j: Job)
    requires Enabled(s, Launch(id, j))
    ensures IsRun(s, [Launch(id, j)] + ([Capture(id)] + []))
    ensures After(s, [Launch(id, j)] + ([Capture(id)] + [])) ==
      s.(jobs := s.jobs[id := j], entries := s.entries + {id}, phase := s.phase[id := Saving(j, false)])
  {
    var s1 := Do(s, Launch(id, j));
    RunCons(s1, Capture(id), []);
    RunCons(s, Launch(id, j), [Capture(id)] + []);
    assert Do(s1, Capture(id)).phase == s.phase[id := Saving(j, false)];
  }

  /** And then its output is collected, with that record in place. */
  lemma WritesBeginning(s: State, id: Id, j: Job)
    requires id in s.phase && s.phase[id] == Saving(j, false)
    ensures IsRun(s, [StartTorn(id)] + ([StartTemp(id)] + ([StartRename(id)] + [])))
    ensures After(s, [StartTorn(id)] + ([StartTemp(id)] + ([StartRename(id)] + []))) ==
      s.(phase := s.phase[id := Live], disk := s.disk[Record(id) := Whole(j)] - {Temp(id)})
  {
    var s1 := Do(s, StartTorn(id));
    var s2 := Do(s1, StartTemp(id));
    RunCons(s2, StartRename(id), []);
    RunCons(s1, StartTemp(id), [StartRename(id)] + []);
    RunCons(s, StartTorn(id), [StartTemp(id)] + ([StartRename(id)] + []));
    var u := Do(s2, StartRename(id));
    assert u.phase == s.phase[id := Live];
    assert u.disk == s.disk[Record(id) := Whole(j)] - {Temp(id)};
  }

  /** The end of a running job: its output is what was collected, and its end is by the outcome. */
  lemma EndsProcess(s: State, id: Id, out: string, err: string, o: Outcome, now: Time)
    requires id in s.jobs && id in s.phase && s.phase[id].Live? && now > 0
    ensures IsRun(s, [Output(id, out, err)] + ([Finish(id, o, now)] + []))
    ensures var u := After(s, [Output(id, out, err)] + ([Finish(id, o, now)] + []));
      && id in u.jobs && EndedBy(s.jobs[id].(stdout := out, stderr := err), u.jobs[id], o, now)
      && u == s.(jobs := s.jobs[id := u.jobs[id]], phase := s.phase[id := Finished(false)])
  {
    var s1 := Do(s, Output(id, out, err));
    RunCons(s1, Finish(id, o, now), []);
    RunCons(s, Output(id, out, err), [Finish(id, o, now)] + []);
    FinishedBy(s1.jobs[id], o, now);
  }

  /** And then the record that is put in place is all of that. */
  lemma WritesEnd(s: State, id: Id)
    requires id in s.jobs && id in s.phase && s.phase[id] == Finished(false)
    ensures IsRun(s, [FinishTorn(id)] + ([FinishTemp(id)] + ([FinishRename(id)] + [])))
    ensures After(s, [FinishTorn(id)] + ([FinishTemp(id)] + ([FinishRename(id)] + []))) ==
      s.(phase := s.phase[id := Written], disk := s.disk[Record(id) := Whole(s.jobs[id])] - {Temp(id)},
         saved := s.saved[id := s.jobs[id]])
  {
    var s1 := Do(s, FinishTorn(id));
    var s2 := Do(s1, FinishTemp(id));
    RunCons(s2, FinishRename(id), []);
    RunCons(s1, FinishTemp(id), [FinishRename(id)] + []);
    RunCons(s, FinishTorn(id), [FinishTemp(id)] + ([FinishRename(id)] + []));
    var u := Do(s2, FinishRename(id));
    assert u.phase == s.phase[id := Written];
    assert u.disk == s.disk[Record(id) := Whole(s.jobs[id])] - {Temp(id)};
  }

  /** Removing a job that is over: it is off the list at once, and its record goes with the unlink, if that works. */
  lemma Removes(s: State, id: Id)
    requires id in s.entries && id in s.jobs && s.jobs[id].status.Terminal() && id !in s.unlinking
    ensures var u := Do(s, RemoveEntry(id));
      && u.entries == s.entries - {id} && u.disk == s.disk && u.jobs == s.jobs
      && Enabled(u, RemoveFile(id)) && Enabled(u, RemoveFileFail(id))
      && Do(u, RemoveFile(id)).disk == s.disk - {Record(id)} && Do(u, RemoveFile(id)).unlinking == s.unlinking
      && Do(u, RemoveFileFail(id)) == s.(entries := s.entries - {id})
  {
  }

  /** A write in progress can leave its temporary file torn, but never its record. */
  lemma TornIsTemporary(s: State, id: Id)
    ensures Enabled(s, StartTorn(id)) ==> Do(s, StartTorn(id)) == s.(disk := s.disk[Temp(id) := Torn])
    ensures Enabled(s, FinishTorn(id)) ==> Do(s, FinishTorn(id)) == s.(disk := s.disk[Temp(id) := Torn])
    ensures Enabled(s, StartFail(id)) ==> Do(s, StartFail(id)) == s.(phase := s.phase[id := Live])
    ensures Enabled(s, FinishFail(id)) ==> Do(s, FinishFail(id)) == s.(phase := s.phase[id := Written])
  {
  }

  /** The three steps by which a startup rewrites an interrupted record. */
  lemma RewritesInSteps(disk: map<FileName, Content>, now: Time, dropped: set<Id>, id: Id)
    requires Resumed(disk, id)
    ensures BootEnabled(disk, now, dropped, TempTorn(id))
    ensures var d1 := BootDo(disk, now, dropped, TempTorn(id));
      && d1 == disk[Temp(id) := Torn] && BootEnabled(d1, now, dropped, TempWhole(id))
      && var d2 := BootDo(d1, now, dropped, TempWhole(id));
         && d2 == disk[Temp(id) := Whole(Recover(disk[Record(id)].job, now))]
         && BootEnabled(d2, now, dropped, TempRenamed(id))
         && BootDo(d2, now, dropped, TempRenamed(id)) ==
              disk[Record(id) := Whole(Recover(disk[Record(id)].job, now))] - {Temp(id)}
  {
    var d1 := BootDo(disk, now, dropped, TempTorn(id));
    var d2 := BootDo(d1, now, dropped, TempWhole(id));
    assert d2 == disk[Temp(id) := Whole(Recover(disk[Record(id)].job, now))];
  }
}
