/** What the job manager guarantees in every run, from the state machine of JobSpec. */
module JobTheorems {
  import opened ByTime
  import opened JobSpec

  lemma {:induction false} RunInv(s: State, actions: seq<Action>)
    requires Inv(s) && IsRun(s, actions)
    ensures Inv(After(s, actions))
    decreases |actions|
  {
    if actions != [] {
      StepInv(s, actions[0]);
      RunInv(Do(s, actions[0]), actions[1..]);
    }
  }

  ghost predicate NoCrash(actions: seq<Action>) {
    forall i :: 0 <= i < |actions| ==> !actions[i].CrashAndRestart?
  }

  // ---- Lifecycle ----

  lemma TerminalStep(s: State, a: Action, id: Id)
    requires Inv(s) && Enabled(s, a) && !a.CrashAndRestart?
    requires id in s.jobs && s.jobs[id].status.Terminal()
    ensures id in Do(s, a).jobs
    ensures s.jobs[id].status == Cancelled || id !in s.phase || !s.phase[id].Dispatched() ==>
      Do(s, a).jobs[id].status == s.jobs[id].status
  {
    assert JobInv(s, id);
    match a case _ =>
  }

  /** Once a job has a terminal status it keeps it, whatever else happens, until the process restarts. */
  lemma {:induction false} TerminalForever(s: State, actions: seq<Action>, id: Id)
    requires Inv(s) && IsRun(s, actions) && NoCrash(actions)
    requires id in s.jobs && s.jobs[id].status.Terminal()
    ensures id in After(s, actions).jobs && After(s, actions).jobs[id].status == s.jobs[id].status
    decreases |actions|
  {
    if actions != [] {
      assert JobInv(s, id);
      TerminalStep(s, actions[0], id);
      StepInv(s, actions[0]);
      assert NoCrash(actions[1..]);
      TerminalForever(Do(s, actions[0]), actions[1..], id);
    }
  }

  /** A job that has not ended is always in the map, with a supervisor that will finish it. */
  lemma UnfinishedIsListed(s: State, actions: seq<Action>, id: Id)
    requires Inv(s) && IsRun(s, actions)
    requires id in After(s, actions).jobs && !After(s, actions).jobs[id].status.Terminal()
    ensures var e := After(s, actions); id in e.entries && id in e.phase && e.phase[id].Dispatched()
  {
    RunInv(s, actions);
    assert JobInv(After(s, actions), id);
  }

  /** Of the jobs nobody is working on any more, a prune drops none before an older one. */
  lemma PruneTakesOldest(s: State, id: Id, seen: map<Id, Time>, dropped: set<Id>, d: Id, k: Id)
    requires Inv(s) && Enabled(s, Prune(id, seen, dropped))
    requires d in dropped && k in s.entries && k !in dropped && Settled(s, id, d) && Settled(s, id, k)
    ensures d in s.jobs && k in s.jobs && s.jobs[d].status.Terminal() && s.jobs[k].status.Terminal()
    ensures s.jobs[d].finishedAt <= s.jobs[k].finishedAt
  {
    assert d in seen && k in seen;
  }

  // ---- Size of the map ----

  /** Supervisors whose finish has not yet pruned. */
  ghost function Busy(s: State): set<Id> {
    set id | id in s.phase && !s.phase[id].Done?
  }

  ghost predicate Bounded(s: State) {
    |s.entries| <= s.retain + |Busy(s)|
  }

  lemma SubsetSize(a: set<Id>, b: set<Id>)
    requires a <= b
    ensures |a| <= |b|
  {
    assert |b - a| == |b| - |a|;
  }

  /** The jobs a prune saw running, or could not see finished, have supervisors other than the pruning one. */
  lemma UnseenAreBusy(s: State, a: Action)
    requires Inv(s) && a.Prune? && Enabled(s, a)
    ensures |s.entries| - |a.seen| <= |Busy(s)| - 1
  {
    var unseen := s.entries - a.seen.Keys;
    forall k | k in unseen ensures k in Busy(s) - {a.id} {
      assert JobInv(s, k) && !Settled(s, a.id, k);
    }
    SubsetSize(unseen, Busy(s) - {a.id});
    assert |unseen| == |s.entries| - |a.seen.Keys|;
    assert |a.seen.Keys| == |a.seen|;
  }

  lemma PruneStaysBounded(s: State, a: Action)
    requires Inv(s) && Bounded(s) && a.Prune? && Enabled(s, a)
    ensures Bounded(Do(s, a))
  {
    var s' := Do(s, a);
    OneMore(Busy(s'), Busy(s), a.id);
    PruneLeaves(s.entries, a.seen, s.retain, a.dropped);
    UnseenAreBusy(s, a);
  }

  lemma BootBounded(retain: nat, disk: map<FileName, Content>, now: Time, dropped: set<Id>)
    requires CanBoot(retain, disk, now, dropped)
    ensures Bounded(Boot(retain, disk, now, dropped)) && |Boot(retain, disk, now, dropped).entries| <= retain
  {
    KeptSize(Loaded(disk, now), retain, dropped);
    var s := Boot(retain, disk, now, dropped);
    assert s.entries == Loaded(disk, now).Keys - dropped;
  }

  lemma KeptSize(loaded: map<Id, Job>, retain: nat, dropped: set<Id>)
    requires IsPrune(loaded.Keys, FinishTimes(loaded), retain, dropped)
    ensures |loaded.Keys - dropped| <= retain
  {
    assert FinishTimes(loaded).Keys == loaded.Keys;
    assert |FinishTimes(loaded)| == |FinishTimes(loaded).Keys|;
    PruneLeaves(loaded.Keys, FinishTimes(loaded), retain, dropped);
  }

  /** All but these four actions leave the map and the supervisors that have yet to prune as they are. */
  predicate Neutral(a: Action) {
    !a.Launch? && !a.Prune? && !a.RemoveEntry? && !a.CrashAndRestart?
  }

  lemma NeutralStep(s: State, a: Action, id: Id)
    requires Enabled(s, a) && Neutral(a)
    ensures Do(s, a).entries == s.entries && Do(s, a).retain == s.retain
    ensures id in Do(s, a).phase && !Do(s, a).phase[id].Done? <==> id in s.phase && !s.phase[id].Done?
  {
  }

  lemma NeutralBounded(s: State, a: Action)
    requires Bounded(s) && Enabled(s, a) && Neutral(a)
    ensures Bounded(Do(s, a))
  {
    var s' := Do(s, a);
    NeutralStep(s, a, "");
    forall id ensures id in Busy(s') <==> id in Busy(s) {
      NeutralStep(s, a, id);
    }
    assert Busy(s') == Busy(s);
  }

  lemma OneMore(a: set<Id>, b: set<Id>, id: Id)
    requires id !in a && forall k :: k in b <==> k in a || k == id
    ensures |b| == |a| + 1
  {
    assert b == a + {id};
  }

  lemma LaunchBounded(s: State, id: Id, j: Job)
    requires Inv(s) && Bounded(s) && Enabled(s, Launch(id, j))
    ensures Bounded(Do(s, Launch(id, j)))
  {
    var s' := Do(s, Launch(id, j));
    OneMore(s.entries, s'.entries, id);
    OneMore(Busy(s), Busy(s'), id);
  }

  lemma RemovalBounded(s: State, id: Id)
    requires Bounded(s) && Enabled(s, RemoveEntry(id))
    ensures Bounded(Do(s, RemoveEntry(id)))
  {
    var s' := Do(s, RemoveEntry(id));
    assert Busy(s') == Busy(s);
    SubsetSize(s'.entries, s.entries);
  }

  lemma StepBounded(s: State, a: Action)
    requires Inv(s) && Bounded(s) && Enabled(s, a)
    ensures Bounded(Do(s, a))
  {
    if Neutral(a) {
      NeutralBounded(s, a);
    } else if a.Launch? {
      LaunchBounded(s, a.id, a.job);
    } else if a.Prune? {
      PruneStaysBounded(s, a);
    } else if a.RemoveEntry? {
      RemovalBounded(s, a.id);
    } else {
      BootBounded(s.retain, Attempted(s.retain, s.disk, a.attempts), a.now, a.dropped);
    }
  }

  /** The map never holds more than the retention limit plus the supervisors that have yet to prune. */
  lemma {:induction false} MapStaysBounded(s: State, actions: seq<Action>)
    requires Inv(s) && Bounded(s) && IsRun(s, actions)
    ensures Bounded(After(s, actions))
    decreases |actions|
  {
    if actions != [] {
      StepInv(s, actions[0]);
      StepBounded(s, actions[0]);
      MapStaysBounded(Do(s, actions[0]), actions[1..]);
    }
  }

  // ---- Files and entries ----

  predicate Succeeds(a: Action) {
    !a.StartFail? && !a.FinishFail? && !a.RemoveFileFail?
  }

  ghost predicate WritesSucceed(actions: seq<Action>) {
    forall i :: 0 <= i < |actions| ==> Succeeds(actions[i])
  }

  /**
   * With writes and unlinks succeeding: every job is in the map, or being removed, or deleted for good, or deleted
   * while a write was owed; and once its supervisor has written, its record file exists unless it was deleted for good.
   */
  ghost predicate Tracked(s: State, id: Id)
    requires id in s.jobs
  {
    && (id in s.entries || id in s.unlinking || id in s.gone || id in s.owed)
    && (id in s.gone || id in s.owed ==> id !in s.entries && id !in s.unlinking)
    && !(id in s.gone && id in s.owed)
    && (id in s.phase && s.phase[id].OwesWrite() ==> id !in s.gone)
    && (id !in s.phase || !s.phase[id].OwesWrite() ==> (Record(id) in s.disk <==> id !in s.gone))
  }

  ghost predicate AllTracked(s: State) {
    && (s.gone + s.owed) <= s.jobs.Keys
    && forall id :: id in s.jobs ==> Tracked(s, id)
  }

  // Steps that change neither the map nor delete anything.
  predicate InPlaceStep(a: Action) {
    WritesStart(a) || WritesFinal(a) || a.Capture? || a.Output? || a.Cancel? || a.Finish?
  }

  lemma TrackedInPlace(s: State, a: Action, id: Id)
    requires Inv(s) && AllTracked(s) && Enabled(s, a) && Succeeds(a) && InPlaceStep(a) && id in Do(s, a).jobs
    ensures Tracked(Do(s, a), id)
  {
    assert id in s.jobs && Tracked(s, id) && JobInv(s, id) && FileInv(s, id);
  }

  lemma TrackedStep(s: State, a: Action, id: Id)
    requires Inv(s) && AllTracked(s) && Enabled(s, a) && Succeeds(a) && !a.CrashAndRestart?
    requires id in Do(s, a).jobs
    ensures Tracked(Do(s, a), id)
  {
    if InPlaceStep(a) {
      TrackedInPlace(s, a, id);
    } else if a.RemoveFile? {
      TrackedRemoval(s, a.id, id);
    } else if a.Launch? {
      TrackedLaunch(s, a.id, a.job, id);
    } else if a.Prune? {
      TrackedPrune(s, a, id);
    } else {
      TrackedRemove(s, a.id, id);
    }
  }

  lemma TrackedRemoval(s: State, gone: Id, id: Id)
    requires Inv(s) && AllTracked(s) && Enabled(s, RemoveFile(gone)) && id in s.jobs
    ensures Tracked(Do(s, RemoveFile(gone)), id)
  {
    assert Tracked(s, id) && JobInv(s, id) && FileInv(s, id);
  }

  lemma TrackedLaunch(s: State, launched: Id, j: Job, id: Id)
    requires Inv(s) && AllTracked(s) && Enabled(s, Launch(launched, j)) && id in Do(s, Launch(launched, j)).jobs
    ensures Tracked(Do(s, Launch(launched, j)), id)
  {
    assert id in s.jobs ==> Tracked(s, id);
  }

  lemma TrackedPrune(s: State, a: Action, id: Id)
    requires Inv(s) && AllTracked(s) && Enabled(s, a) && a.Prune? && id in s.jobs
    ensures Tracked(Do(s, a), id)
  {
    TrackedDrop(s, a.id, a.dropped, id);
  }

  lemma TrackedDrop(s: State, p: Id, dropped: set<Id>, id: Id)
    requires id in s.jobs && Tracked(s, id) && dropped <= s.entries && p in s.phase && !s.phase[p].OwesWrite()
    ensures Tracked(s.(entries := s.entries - dropped, unlinking := s.unlinking + dropped, phase := s.phase[p := Done]),
                    id)
  {
  }

  lemma TrackedRemove(s: State, entry: Id, id: Id)
    requires Inv(s) && AllTracked(s) && Enabled(s, RemoveEntry(entry)) && id in s.jobs
    ensures Tracked(Do(s, RemoveEntry(entry)), id)
  {
    assert Tracked(s, id);
  }

  lemma BootTracked(retain: nat, disk: map<FileName, Content>, now: Time, dropped: set<Id>)
    requires CanBoot(retain, disk, now, dropped)
    ensures AllTracked(Boot(retain, disk, now, dropped))
  {
  }

  lemma StepTracked(s: State, a: Action)
    requires Inv(s) && AllTracked(s) && Enabled(s, a) && Succeeds(a)
    ensures AllTracked(Do(s, a))
  {
    if a.CrashAndRestart? {
      BootTracked(s.retain, Attempted(s.retain, s.disk, a.attempts), a.now, a.dropped);
    } else {
      var s' := Do(s, a);
      forall id | id in s'.jobs ensures Tracked(s', id) {
        TrackedStep(s, a, id);
      }
      assert s'.gone + s'.owed <= s'.jobs.Keys;
    }
  }

  lemma {:induction false} RunTracked(s: State, actions: seq<Action>)
    requires Inv(s) && AllTracked(s) && IsRun(s, actions) && WritesSucceed(actions)
    ensures AllTracked(After(s, actions))
    decreases |actions|
  {
    if actions != [] {
      StepInv(s, actions[0]);
      StepTracked(s, actions[0]);
      assert WritesSucceed(actions[1..]);
      RunTracked(Do(s, actions[0]), actions[1..]);
    }
  }

  ghost predicate Quiet(s: State) {
    s.unlinking == {} && forall id :: id in s.phase ==> !s.phase[id].OwesWrite()
  }

  /**
   * When nothing is in progress, a record file without an entry in the map exists exactly for the jobs whose
   * file was deleted while their supervisor still owed a write.
   */
  lemma StrayRecords(s: State, actions: seq<Action>, id: Id)
    requires Inv(s) && AllTracked(s) && IsRun(s, actions) && WritesSucceed(actions) && Quiet(After(s, actions))
    ensures var e := After(s, actions);
      (Record(id) in e.disk && id !in e.entries <==> id in e.owed)
      && (id in e.entries ==> Record(id) in e.disk)
  {
    RunInv(s, actions);
    RunTracked(s, actions);
    var e := After(s, actions);
    assert FileInv(e, id);
    if id in e.jobs {
      assert Tracked(e, id);
    }
  }

  /** Deleting a file while a write is owed takes a removed or pruned job that is cancelled or just finished. */
  lemma OwedOnlyByEarlyRemoval(s: State, a: Action, id: Id)
    requires Inv(s) && Enabled(s, a) && id !in s.owed && id in Do(s, a).owed
    ensures id in s.jobs && s.jobs[id].status.Terminal() && id in s.phase && s.phase[id].OwesWrite()
    ensures s.phase[id].Dispatched() ==> s.jobs[id].status == Cancelled
    ensures a == RemoveFile(id) && id in s.unlinking && id !in s.entries
  {
    assert id in s.jobs ==> JobInv(s, id);
    match a case _ =>
  }

  // ---- Crash and restart ----

  /**
   * How job `id` of state e is shown after a crash: its final record exactly, if that was in place; otherwise its
   * initial record as interrupted, or as cancelled when the job had been cancelled before that was captured.
   */
  ghost predicate Restored(e: State, id: Id, shown: Job, now: Time) {
    if id in e.saved then id in e.jobs && shown == e.jobs[id] == e.saved[id]
    else
      && Record(id) in e.disk && e.disk[Record(id)].Whole? && IsStart(e.disk[Record(id)].job)
      && var start := e.disk[Record(id)].job;
         if start.status.Running? then
           shown == start.(status := Interrupted, finishedAt := now,
                           error := if start.error == "" then "service restarted while job was running"
                                    else start.error)
         else shown == start && shown.status == Cancelled
  }

  ghost predicate RestoredAtSomeTime(e: State, id: Id, shown: Job) {
    exists now :: Restored(e, id, shown, now)
  }

  lemma RestoredOne(e: State, id: Id, now: Time)
    requires Inv(e) && Record(id) in e.disk
    ensures e.disk[Record(id)].Whole? && Restored(e, id, Recover(e.disk[Record(id)].job, now), now)
  {
    assert FileInv(e, id);
    if id in e.saved {
      assert JobInv(e, id);
    }
  }

  /** The record is the one that was there, or it as some startup shows it. */
  ghost predicate Stems(was: map<FileName, Content>, disk: map<FileName, Content>, id: Id) {
    Record(id) in disk ==>
      && Record(id) in was && was[Record(id)].Whole? && disk[Record(id)].Whole?
      && (disk[Record(id)] == was[Record(id)] || ShownAtSomeTime(was[Record(id)].job, disk[Record(id)].job))
  }

  ghost predicate ShownAtSomeTime(was: Job, shown: Job) {
    exists now :: shown == Recover(was, now)
  }

  lemma StemsStep(was: map<FileName, Content>, disk: map<FileName, Content>, now: Time, dropped: set<Id>, b: BootStep,
                  id: Id)
    requires Stems(was, disk, id) && BootEnabled(disk, now, dropped, b)
    ensures Stems(was, BootDo(disk, now, dropped, b), id)
    ensures Record(id) in disk && id !in dropped ==> Record(id) in BootDo(disk, now, dropped, b)
  {
    if Record(id) in disk {
      var j := disk[Record(id)].job;
      if disk[Record(id)] == was[Record(id)] {
        assert ShownAtSomeTime(was[Record(id)].job, Recover(j, now));
      } else {
        var t :| j == Recover(was[Record(id)].job, t);
        RecoverTwice(was[Record(id)].job, t, now);
      }
    }
  }

  lemma {:induction false} StemsRun(was: map<FileName, Content>, disk: map<FileName, Content>, now: Time,
                                    dropped: set<Id>, steps: seq<BootStep>, id: Id)
    requires Stems(was, disk, id) && BootLegal(disk, now, dropped, steps)
    ensures Stems(was, BootRun(disk, now, dropped, steps), id)
    ensures Record(id) in disk && id !in dropped ==> Record(id) in BootRun(disk, now, dropped, steps)
  {
    if steps != [] {
      var front := steps[..|steps| - 1];
      StemsRun(was, disk, now, dropped, front, id);
      StemsStep(was, BootRun(disk, now, dropped, front), now, dropped, steps[|steps| - 1], id);
    }
  }

  // A startup that crashed had chosen the record for deletion.
  ghost predicate DroppedBefore(attempts: seq<Attempt>, id: Id) {
    exists i :: 0 <= i < |attempts| && id in attempts[i].dropped
  }

  lemma {:induction false} StemsAttempts(retain: nat, was: map<FileName, Content>, attempts: seq<Attempt>, id: Id)
    requires WholeRecords(was) && CanAttempt(retain, was, attempts)
    ensures Stems(was, Attempted(retain, was, attempts), id)
    ensures Record(id) in was && !DroppedBefore(attempts, id) ==> Record(id) in Attempted(retain, was, attempts)
  {
    if attempts != [] {
      var front, a := attempts[..|attempts| - 1], attempts[|attempts| - 1];
      DroppedSnoc(attempts, id);
      StemsAttempts(retain, was, front, id);
      StemsRun(was, Attempted(retain, was, front), a.now, a.dropped, a.steps, id);
    }
  }

  lemma DroppedSnoc(attempts: seq<Attempt>, id: Id)
    requires attempts != []
    ensures DroppedBefore(attempts, id) <==>
      DroppedBefore(attempts[..|attempts| - 1], id) || id in attempts[|attempts| - 1].dropped
  {
    var front := attempts[..|attempts| - 1];
    assert forall i :: 0 <= i < |front| ==> front[i] == attempts[i];
    if DroppedBefore(front, id) {
      var i :| 0 <= i < |front| && id in front[i].dropped;
      assert id in attempts[i].dropped;
    }
  }

  /** After interrupted startups and a last one, what is shown is the record as it was, seen at one startup. */
  lemma ShownOne(retain: nat, was: map<FileName, Content>, attempts: seq<Attempt>, now: Time, id: Id)
    requires WholeRecords(was) && CanAttempt(retain, was, attempts)
    requires id in Loaded(Attempted(retain, was, attempts), now)
    ensures Record(id) in was && ShownAtSomeTime(was[Record(id)].job, Loaded(Attempted(retain, was, attempts), now)[id])
  {
    StemsAttempts(retain, was, attempts, id);
    var disk := Attempted(retain, was, attempts);
    assert Record(id) in disk;
    var j, w := disk[Record(id)].job, was[Record(id)].job;
    if disk[Record(id)] == was[Record(id)] {
      assert Recover(j, now) == Recover(w, now);
    } else {
      var t :| j == Recover(w, t);
      RecoverTwice(w, t, now);
      assert Recover(j, now) == Recover(w, t);
    }
  }

  /**
   * A crash at any step of any run, also between the unlinks of a prune, and then any number of startups that crash
   * between two of their file operations: nothing torn is ever read, every record in place at the first crash is shown
   * as Restored says, and only what a startup chose beyond the retention limit can be missing.
   */
  lemma CrashRecovery(s: State, actions: seq<Action>, attempts: seq<Attempt>, now: Time, dropped: set<Id>)
    requires Inv(s) && IsRun(s, actions) && Enabled(After(s, actions), CrashAndRestart(attempts, now, dropped))
    ensures var e := After(s, actions);
      var r := Do(e, CrashAndRestart(attempts, now, dropped));
      && (forall id :: Record(id) in e.disk && !DroppedBefore(attempts, id) && id !in dropped ==> id in r.jobs)
      && (forall id :: id in r.jobs ==> Record(id) in e.disk && id !in dropped && RestoredAtSomeTime(e, id, r.jobs[id]))
      && r.entries == r.jobs.Keys && |r.entries| <= e.retain
  {
    RunInv(s, actions);
    var e := After(s, actions);
    var r := Do(e, CrashAndRestart(attempts, now, dropped));
    var disk := Attempted(e.retain, e.disk, attempts);
    WholeDisk(e);
    AttemptsKeepWhole(e.retain, e.disk, attempts);
    forall id | Record(id) in e.disk && !DroppedBefore(attempts, id) && id !in dropped ensures id in r.jobs {
      StemsAttempts(e.retain, e.disk, attempts, id);
      assert Record(id) in disk && id in Records(disk);
    }
    forall id | id in r.jobs ensures Record(id) in e.disk && id !in dropped && RestoredAtSomeTime(e, id, r.jobs[id]) {
      ShownOne(e.retain, e.disk, attempts, now, id);
      var t :| r.jobs[id] == Recover(e.disk[Record(id)].job, t);
      RestoredOne(e, id, t);
    }
    BootBounded(e.retain, disk, now, dropped);
  }

  lemma WholeDisk(e: State)
    requires Inv(e)
    ensures WholeRecords(e.disk)
  {
    forall id | Record(id) in e.disk ensures e.disk[Record(id)].Whole? {
      assert FileInv(e, id);
    }
  }

  ghost predicate Deletes(a: Action, id: Id) {
    a == RemoveFile(id) || a.CrashAndRestart?
  }

  lemma {:induction false} SavedStays(s: State, actions: seq<Action>, id: Id)
    requires Inv(s) && IsRun(s, actions) && id in s.saved
    requires forall i :: 0 <= i < |actions| ==> !Deletes(actions[i], id)
    ensures id in After(s, actions).saved && After(s, actions).saved[id] == s.saved[id]
    decreases |actions|
  {
    if actions != [] {
      var a := actions[0];
      assert FileInv(s, id) && !Deletes(a, id);
      StepInv(s, a);
      assert id in Do(s, a).saved && Do(s, a).saved[id] == s.saved[id] by {
        match a case _ =>
      }
      SavedStays(Do(s, a), actions[1..], id);
    }
  }

  /**
   * A job whose final record was put in place survives any later crash unchanged, however many startups crash in turn,
   * until its file is deleted.
   */
  lemma FinishedJobSurvives(s: State, id: Id, actions: seq<Action>, attempts: seq<Attempt>, now: Time, dropped: set<Id>)
    requires Inv(s) && Enabled(s, FinishRename(id)) && IsRun(Do(s, FinishRename(id)), actions)
    requires forall i :: 0 <= i < |actions| ==> !Deletes(actions[i], id)
    requires Enabled(After(Do(s, FinishRename(id)), actions), CrashAndRestart(attempts, now, dropped))
    ensures var r := Do(After(Do(s, FinishRename(id)), actions), CrashAndRestart(attempts, now, dropped));
      !DroppedBefore(attempts, id) && id !in dropped ==> id in r.entries && id in r.jobs && r.jobs[id] == s.jobs[id]
  {
    FinalSaved(s, id);
    SavedSurvives(Do(s, FinishRename(id)), id, actions, attempts, now, dropped);
  }

  lemma SavedSurvives(s: State, id: Id, actions: seq<Action>, attempts: seq<Attempt>, now: Time, dropped: set<Id>)
    requires Inv(s) && id in s.saved && IsRun(s, actions) && forall i :: 0 <= i < |actions| ==> !Deletes(actions[i], id)
    requires Enabled(After(s, actions), CrashAndRestart(attempts, now, dropped))
    ensures var r := Do(After(s, actions), CrashAndRestart(attempts, now, dropped));
      !DroppedBefore(attempts, id) && id !in dropped ==> id in r.entries && id in r.jobs && r.jobs[id] == s.saved[id]
  {
    SavedStays(s, actions, id);
    RunInv(s, actions);
    SavedIsShown(After(s, actions), id, attempts, now, dropped);
  }

  lemma FinalSaved(s: State, id: Id)
    requires Inv(s) && Enabled(s, FinishRename(id))
    ensures var s1 := Do(s, FinishRename(id)); Inv(s1) && id in s1.saved && s1.saved[id] == s.jobs[id]
  {
    StepInv(s, FinishRename(id));
  }

  lemma SavedIsShown(e: State, id: Id, attempts: seq<Attempt>, now: Time, dropped: set<Id>)
    requires Inv(e) && id in e.saved && Enabled(e, CrashAndRestart(attempts, now, dropped))
    ensures var r := Do(e, CrashAndRestart(attempts, now, dropped));
      !DroppedBefore(attempts, id) && id !in dropped ==> id in r.entries && id in r.jobs && r.jobs[id] == e.saved[id]
  {
    assert FileInv(e, id) && JobInv(e, id);
    WholeDisk(e);
    StemsAttempts(e.retain, e.disk, attempts, id);
    var disk := Attempted(e.retain, e.disk, attempts);
    if !DroppedBefore(attempts, id) && id !in dropped {
      assert Record(id) in disk && id in Records(disk);
      ShownOne(e.retain, e.disk, attempts, now, id);
    }
  }

  /** Removing a cancelled job before its process has ended: finish puts its record file back, without an entry. */
  lemma EarlyRemovalLeavesRecord(s: State, id: Id, o: Outcome, now: Time)
    requires Inv(s) && id in s.entries && id in s.phase && s.phase[id].Live? && s.jobs[id].status.Cancelled? && now > 0
    ensures var actions := [RemoveEntry(id), RemoveFile(id), Finish(id, o, now), FinishTemp(id), FinishRename(id)];
      IsRun(s, actions) && Record(id) in After(s, actions).disk && id !in After(s, actions).entries
  {
    var s1 := Do(s, RemoveEntry(id));
    var s2 := Do(s1, RemoveFile(id));
    LateFinish(s2, id, o, now);
    RunOf(s1, [Finish(id, o, now), FinishTemp(id), FinishRename(id)], RemoveFile(id));
    RunOf(s, [RemoveFile(id), Finish(id, o, now), FinishTemp(id), FinishRename(id)], RemoveEntry(id));
  }

  lemma LateFinish(s: State, id: Id, o: Outcome, now: Time)
    requires id in s.phase && id in s.jobs && s.phase[id].Live? && id !in s.entries && now > 0
    ensures var actions := [Finish(id, o, now), FinishTemp(id), FinishRename(id)];
      IsRun(s, actions) && Record(id) in After(s, actions).disk && id !in After(s, actions).entries
  {
    var s1 := Do(s, Finish(id, o, now));
    var s2 := Do(s1, FinishTemp(id));
    RunOf(s2, [], FinishRename(id));
    RunOf(s1, [FinishRename(id)], FinishTemp(id));
    RunOf(s, [FinishTemp(id), FinishRename(id)], Finish(id, o, now));
  }

  lemma RunOf(s: State, rest: seq<Action>, a: Action)
    requires Enabled(s, a) && IsRun(Do(s, a), rest)
    ensures IsRun(s, [a] + rest) && After(s, [a] + rest) == After(Do(s, a), rest)
  {
    assert ([a] + rest)[1..] == rest;
  }

  // ---- Restarting again ----

  lemma RecoverTwice(j: Job, now: Time, later: Time)
    ensures Recover(Recover(j, now), later) == Recover(j, now)
  {
  }

  lemma RecordsAfterBoot(retain: nat, disk: map<FileName, Content>, now: Time, dropped: set<Id>)
    ensures Records(Boot(retain, disk, now, dropped).disk) == Records(disk) - dropped
  {
    var s := Boot(retain, disk, now, dropped);
    forall id ensures id in Records(s.disk) <==> id in Records(disk) && id !in dropped {
      if id in Records(disk) && id !in dropped {
        assert Record(id) in s.disk;
      }
      if id in Records(s.disk) {
        assert Record(id) in s.disk && Record(id) in disk;
      }
    }
  }

  lemma LoadedAgain(retain: nat, disk: map<FileName, Content>, now: Time, dropped: set<Id>, later: Time)
    ensures Loaded(Boot(retain, disk, now, dropped).disk, later) == Boot(retain, disk, now, dropped).jobs
  {
    var s := Boot(retain, disk, now, dropped);
    var loaded, again := Loaded(disk, now), Loaded(s.disk, later);
    RecordsAfterBoot(retain, disk, now, dropped);
    assert again.Keys == s.jobs.Keys;
    forall id | id in again ensures again[id] == s.jobs[id] {
      assert Record(id) in s.disk && s.disk[Record(id)] == Whole(loaded[id]);
      RecoverTwice(disk[Record(id)].job, now, later);
    }
  }

  /** A startup that is over leaves nothing unfinished. */
  lemma NothingResumed(retain: nat, disk: map<FileName, Content>, now: Time, dropped: set<Id>, id: Id)
    ensures !Resumed(Boot(retain, disk, now, dropped).disk, id)
  {
    var s := Boot(retain, disk, now, dropped);
    if Record(id) in s.disk {
      assert Record(id) in disk;
      if disk[Record(id)].Whole? {
        assert id in Records(disk) && id in Loaded(disk, now);
      }
    }
  }

  lemma RewrittenAgain(retain: nat, disk: map<FileName, Content>, now: Time, dropped: set<Id>)
    ensures var s := Boot(retain, disk, now, dropped); Rewritten(s.disk, s.jobs, {}) == s.disk
  {
    var s := Boot(retain, disk, now, dropped);
    var again := Rewritten(s.disk, s.jobs, {});
    forall f ensures f in again <==> f in s.disk {
      if f.Temp? {
        NothingResumed(retain, disk, now, dropped, f.id);
      }
    }
    forall f | f in s.disk ensures again[f] == s.disk[f] {
      if f.Record? && f.id in s.jobs {
        assert f == Record(f.id) && s.disk[f] == Whole(s.jobs[f.id]);
      }
    }
  }

  /** A second restart, at any later time, finds and shows exactly what the first one left. */
  lemma SecondRestartChangesNothing(retain: nat, disk: map<FileName, Content>, now: Time, dropped: set<Id>,
                                    later: Time, dropped': set<Id>)
    requires CanBoot(retain, disk, now, dropped)
    requires CanBoot(retain, Boot(retain, disk, now, dropped).disk, later, dropped')
    ensures dropped' == {}
    ensures Boot(retain, Boot(retain, disk, now, dropped).disk, later, dropped') == Boot(retain, disk, now, dropped)
  {
    var s := Boot(retain, disk, now, dropped);
    LoadedAgain(retain, disk, now, dropped, later);
    RewrittenAgain(retain, disk, now, dropped);
    NothingDropped(retain, disk, now, dropped, later, dropped');
    BootOfBooted(retain, s.disk, s.jobs, later);
  }

  lemma BootOfBooted(retain: nat, disk: map<FileName, Content>, jobs: map<Id, Job>, later: Time)
    requires Loaded(disk, later) == jobs && Rewritten(disk, jobs, {}) == disk
    ensures Boot(retain, disk, later, {}) == State(retain, jobs, jobs.Keys, map[], {}, {}, {}, disk, jobs)
  {
    KeepAll(jobs);
  }

  lemma KeepAll(jobs: map<Id, Job>)
    ensures (map id | id in jobs && id !in {} :: jobs[id]) == jobs
  {
  }

  lemma NothingDropped(retain: nat, disk: map<FileName, Content>, now: Time, dropped: set<Id>, later: Time,
                       dropped': set<Id>)
    requires CanBoot(retain, disk, now, dropped)
    requires CanBoot(retain, Boot(retain, disk, now, dropped).disk, later, dropped')
    ensures dropped' == {}
  {
    LoadedAgain(retain, disk, now, dropped, later);
    BootBounded(retain, disk, now, dropped);
    assert |dropped'| == 0;
  }

  /** Nor does one that crashes: it has no file to touch. */
  lemma InterruptedRestartChangesNothing(retain: nat, disk: map<FileName, Content>, now: Time, dropped: set<Id>,
                                         a: Attempt)
    requires CanBoot(retain, disk, now, dropped)
    requires CanAttempt(retain, Boot(retain, disk, now, dropped).disk, [a])
    ensures a.steps == [] && Attempted(retain, Boot(retain, disk, now, dropped).disk, [a]) ==
      Boot(retain, disk, now, dropped).disk
  {
    var d := Boot(retain, disk, now, dropped).disk;
    assert [a][..0] == [] && Attempted(retain, d, []) == d;
    SecondRestartChangesNothing(retain, disk, now, dropped, a.now, a.dropped);
    if a.steps != [] {
      FirstStep(d, a.now, a.dropped, a.steps);
      NothingResumed(retain, disk, now, dropped, a.steps[0].id);
    }
  }

  lemma {:induction false} FirstStep(disk: map<FileName, Content>, now: Time, dropped: set<Id>, steps: seq<BootStep>)
    requires BootLegal(disk, now, dropped, steps) && steps != []
    ensures BootEnabled(disk, now, dropped, steps[0])
  {
    if |steps| > 1 {
      FirstStep(disk, now, dropped, steps[..|steps| - 1]);
    } else {
      assert steps[..0] == [];
    }
  }

  /**
   * The steps of a startup, when they have rewritten all that was unfinished and unlinked all that was to go, have made
   * of the records what Boot says.
   */
  lemma StepsMakeBoot(retain: nat, disk: map<FileName, Content>, now: Time, dropped: set<Id>, steps: seq<BootStep>,
                      id: Id)
    requires CanBoot(retain, disk, now, dropped) && WholeRecords(disk) && BootLegal(disk, now, dropped, steps)
    requires var done := BootRun(disk, now, dropped, steps);
      (Record(id) in done ==> id !in dropped) && !Resumed(done, id)
    ensures var done, booted := BootRun(disk, now, dropped, steps), Boot(retain, disk, now, dropped).disk;
      && (Record(id) in done <==> Record(id) in booted)
      && (Record(id) in done ==> done[Record(id)] == booted[Record(id)])
  {
    MadeBySteps(disk, now, dropped, steps, id);
    if Record(id) in disk {
      assert id in Records(disk);
    }
  }

  lemma {:induction false} MadeBySteps(disk: map<FileName, Content>, now: Time, dropped: set<Id>,
                                       steps: seq<BootStep>, id: Id)
    requires WholeRecords(disk) && BootLegal(disk, now, dropped, steps)
    ensures var done := BootRun(disk, now, dropped, steps);
      && (Record(id) !in done || (Record(id) in disk &&
           (done[Record(id)] == disk[Record(id)] || done[Record(id)] == Whole(Recover(disk[Record(id)].job, now)))))
      && (Record(id) in disk && id !in dropped ==> Record(id) in done)
  {
    if steps != [] {
      MadeBySteps(disk, now, dropped, steps[..|steps| - 1], id);
      if Record(id) in disk {
        RecoverTwice(disk[Record(id)].job, now, now);
      }
    }
  }
}
