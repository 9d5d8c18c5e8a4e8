/**
 * The goroutine that polls the job manager for one replication job (internal/replication/runner.go, afterJob), beside
 * every action of the manager: what its poll can see, and whether the transfer is still going on then.
 */
module Watching {
  import opened ByTime
  import opened JobSpec
  import opened JobTheorems
  import opened Outcomes

  /** What the polls of one job have come to; on a release, whether the process was still running. */
  datatype Watcher = Waiting | Released(status: Status, running: bool) | Vanished

  datatype World = World(s: State, watcher: Watcher)

  datatype Step = Act(a: Action) | Poll

  /** The supervisor of the job has not seen its process end. */
  predicate Transferring(s: State, id: Id) {
    id in s.phase && s.phase[id].Dispatched()
  }

  // A crash ends the goroutine with the process; startup then clears the holds.
  ghost predicate CanStep(w: World, st: Step) {
    match st
    case Act(a) => Enabled(w.s, a) && !a.CrashAndRestart?
    case Poll => w.watcher.Waiting?
  }

  ghost function StepTo(w: World, id: Id, st: Step): World
    requires CanStep(w, st) && id in w.s.jobs
  {
    match st
    case Act(a) => w.(s := Do(w.s, a))
    case Poll =>
      if id !in w.s.entries then w.(watcher := Vanished)
      else if w.s.jobs[id].status.Terminal() then
        w.(watcher := Released(w.s.jobs[id].status, Transferring(w.s, id)))
      else w
  }

  lemma JobStays(w: World, id: Id, st: Step)
    requires CanStep(w, st) && id in w.s.jobs
    ensures id in StepTo(w, id, st).s.jobs
  {
    if st.Act? {
      match st.a case _ =>
    }
  }

  ghost predicate CanRun(w: World, id: Id, steps: seq<Step>)
    requires id in w.s.jobs
    decreases |steps|
  {
    steps == [] ||
    (CanStep(w, steps[0]) && (JobStays(w, id, steps[0]); CanRun(StepTo(w, id, steps[0]), id, steps[1..])))
  }

  ghost function RunTo(w: World, id: Id, steps: seq<Step>): (e: World)
    requires id in w.s.jobs && CanRun(w, id, steps)
    ensures id in e.s.jobs
    decreases |steps|
  {
    if steps == [] then w
    else
      JobStays(w, id, steps[0]);
      RunTo(StepTo(w, id, steps[0]), id, steps[1..])
  }

  // ---- What the history says ----

  predicate Cancels(steps: seq<Step>, id: Id) { Act(Cancel(id)) in steps }

  predicate Ends(st: Step, id: Id) { st.Act? && st.a.Finish? && st.a.id == id }

  predicate Takes(st: Step, id: Id) {
    st.Act? && ((st.a.RemoveEntry? && st.a.id == id) || (st.a.Prune? && id in st.a.dropped))
  }

  predicate Ended(steps: seq<Step>, id: Id) {
    exists k :: 0 <= k < |steps| && Ends(steps[k], id)
  }

  /** The record was taken out of the map, by a user or by a prune. */
  predicate Taken(steps: seq<Step>, id: Id) {
    exists k :: 0 <= k < |steps| && Takes(steps[k], id)
  }

  /** What holds at dispatch, and whenever a poll has found the job unfinished. */
  ghost predicate Watched(w: World, id: Id) {
    && Inv(w.s) && w.watcher.Waiting?
    && id in w.s.jobs && id in w.s.phase && id in w.s.entries && !w.s.jobs[id].status.Terminal()
  }

  lemma HistoryOfFirst(steps: seq<Step>, id: Id)
    requires steps != []
    ensures Cancels(steps, id) <==> steps[0] == Act(Cancel(id)) || Cancels(steps[1..], id)
    ensures Ended(steps, id) <==> Ends(steps[0], id) || Ended(steps[1..], id)
    ensures Taken(steps, id) <==> Takes(steps[0], id) || Taken(steps[1..], id)
  {
    assert forall k :: 1 <= k < |steps| ==> steps[k] == steps[1..][k - 1];
    assert forall k :: 0 <= k < |steps| - 1 ==> steps[1..][k] == steps[k + 1];
  }

  lemma StepKeepsInv(w: World, id: Id, st: Step)
    requires Inv(w.s) && id in w.s.jobs && CanStep(w, st)
    ensures Inv(StepTo(w, id, st).s)
  {
    if st.Act? {
      StepInv(w.s, st.a);
    }
  }

  lemma StepOnPhase(w: World, id: Id, st: Step)
    requires id in w.s.jobs && id in w.s.phase && CanStep(w, st)
    ensures var v := StepTo(w, id, st);
      id in v.s.phase && (Transferring(v.s, id) <==> Transferring(w.s, id) && !Ends(st, id))
  {
    if st.Act? {
      match st.a case _ =>
    }
  }

  lemma StepOnStatus(w: World, id: Id, st: Step)
    requires id in w.s.jobs && CanStep(w, st)
    ensures var v := StepTo(w, id, st);
      && id in v.s.jobs
      && (v.s.jobs[id].status.Terminal() <==>
           w.s.jobs[id].status.Terminal() || st == Act(Cancel(id)) || Ends(st, id))
  {
    if st.Act? {
      match st.a case _ =>
    }
  }

  lemma StepOnEntry(w: World, id: Id, st: Step)
    requires id in w.s.jobs && CanStep(w, st)
    ensures id in StepTo(w, id, st).s.entries <==> id in w.s.entries && !Takes(st, id)
  {
    if st.Act? {
      match st.a case _ =>
    }
  }

  lemma StepOnJob(w: World, id: Id, st: Step)
    requires Inv(w.s) && id in w.s.jobs && id in w.s.phase && CanStep(w, st)
    ensures var v := StepTo(w, id, st);
      && Inv(v.s) && id in v.s.jobs && id in v.s.phase
      && (Transferring(v.s, id) <==> Transferring(w.s, id) && !Ends(st, id))
      && (v.s.jobs[id].status.Terminal() <==>
           w.s.jobs[id].status.Terminal() || st == Act(Cancel(id)) || Ends(st, id))
      && (id in v.s.entries <==> id in w.s.entries && !Takes(st, id))
  {
    StepKeepsInv(w, id, st);
    StepOnPhase(w, id, st);
    StepOnStatus(w, id, st);
    StepOnEntry(w, id, st);
  }

  /** Over every run: what the state says of the job is what was done to it. */
  lemma {:induction false} JobHistory(w: World, id: Id, steps: seq<Step>)
    requires Inv(w.s) && id in w.s.jobs && id in w.s.phase && CanRun(w, id, steps)
    ensures var e := RunTo(w, id, steps);
      && Inv(e.s) && id in e.s.jobs && id in e.s.phase
      && (Transferring(e.s, id) <==> Transferring(w.s, id) && !Ended(steps, id))
      && (e.s.jobs[id].status.Terminal() <==>
           w.s.jobs[id].status.Terminal() || Cancels(steps, id) || Ended(steps, id))
      && (id in e.s.entries <==> id in w.s.entries && !Taken(steps, id))
    decreases |steps|
  {
    if steps != [] {
      StepOnJob(w, id, steps[0]);
      JobHistory(StepTo(w, id, steps[0]), id, steps[1..]);
      HistoryOfFirst(steps, id);
    }
  }

  /**
   * The next poll, whatever was done since the last one: it releases the hold while the transfer is still going on
   * exactly if the job was cancelled, its process has not been seen to end, and its record is still there.
   */
  lemma EarlyReleaseIff(w: World, id: Id, steps: seq<Step>)
    requires Watched(w, id) && CanRun(w, id, steps) && RunTo(w, id, steps).watcher.Waiting?
    ensures var e := RunTo(w, id, steps);
      var v := StepTo(e, id, Poll).watcher;
      && (v.Released? <==> (Cancels(steps, id) || Ended(steps, id)) && !Taken(steps, id))
      && (v.Released? && v.running <==> Cancels(steps, id) && !Ended(steps, id) && !Taken(steps, id))
      && (v.Released? && v.running ==> v.status.Cancelled?)
      && (v.Vanished? <==> Taken(steps, id))
  {
    JobHistory(w, id, steps);
    assert JobInv(w.s, id);
    assert JobInv(RunTo(w, id, steps).s, id);
  }

  lemma {:induction false} RunOfPrefix(w: World, id: Id, steps: seq<Step>, n: nat)
    requires id in w.s.jobs && CanRun(w, id, steps) && n < |steps|
    ensures CanRun(w, id, steps[..n])
    ensures CanStep(RunTo(w, id, steps[..n]), steps[n])
    decreases n
  {
    if n > 0 {
      JobStays(w, id, steps[0]);
      RunOfPrefix(StepTo(w, id, steps[0]), id, steps[1..], n - 1);
      assert steps[..n][0] == steps[0] && steps[..n][1..] == steps[1..][..n - 1] && steps[1..][n - 1] == steps[n];
    }
  }

  /** A record vanishes between two polls only after the job was cancelled or ended between them, too. */
  lemma TakenWasTerminal(w: World, id: Id, steps: seq<Step>, k: nat)
    requires Watched(w, id) && CanRun(w, id, steps) && k < |steps| && Takes(steps[k], id)
    ensures Cancels(steps[..k], id) || Ended(steps[..k], id)
  {
    RunOfPrefix(w, id, steps, k);
    JobHistory(w, id, steps[..k]);
  }

  /**
   * Over any number of polls: as long as nobody cancels the job, the goroutine waits for as long as the transfer goes
   * on, so that the hold spans all of it.
   */
  lemma {:induction false} HoldSpansTransfer(w: World, id: Id, steps: seq<Step>)
    requires Watched(w, id) && CanRun(w, id, steps) && !Cancels(steps, id)
    ensures Transferring(RunTo(w, id, steps).s, id) ==> RunTo(w, id, steps).watcher.Waiting?
    decreases |steps|
  {
    if steps != [] {
      var v := StepTo(w, id, steps[0]);
      StepOnJob(w, id, steps[0]);
      HistoryOfFirst(steps, id);
      if v.s.jobs[id].status.Terminal() {
        JobHistory(v, id, steps[1..]);
      } else {
        assert JobInv(v.s, id);
        HoldSpansTransfer(v, id, steps[1..]);
      }
    }
  }

  /** And a cancelled job is one whose hold can go before its transfer ends: a poll may come at any time. */
  lemma CancelReleasesEarly(w: World, id: Id)
    requires Watched(w, id)
    ensures CanRun(w, id, [Act(Cancel(id)), Poll])
    ensures var e := RunTo(w, id, [Act(Cancel(id)), Poll]);
      e.watcher == Released(Cancelled, true) && Transferring(e.s, id)
  {
    assert JobInv(w.s, id);
    var v := StepTo(w, id, Act(Cancel(id)));
    assert [Act(Cancel(id)), Poll][1..] == [Poll] && [Poll][1..] == [];
    assert CanRun(v, id, [Poll]);
    assert RunTo(v, id, [Poll]) == StepTo(v, id, Poll);
  }

  // ---- What a success that is seen means ----

  // The actions of the manager, without the polls.
  function Acts(steps: seq<Step>): seq<Action> {
    if steps == [] then []
    else (match steps[0] case Act(a) => [a] case Poll => []) + Acts(steps[1..])
  }

  lemma {:induction false} RunOfActs(w: World, id: Id, steps: seq<Step>)
    requires id in w.s.jobs && CanRun(w, id, steps)
    ensures IsRun(w.s, Acts(steps)) && NoCrash(Acts(steps))
    ensures RunTo(w, id, steps).s == After(w.s, Acts(steps))
    decreases |steps|
  {
    if steps != [] {
      JobStays(w, id, steps[0]);
      var v := StepTo(w, id, steps[0]);
      RunOfActs(v, id, steps[1..]);
      match steps[0]
      case Act(a) =>
        assert Acts(steps)[0] == a && Acts(steps)[1..] == Acts(steps[1..]);
      case Poll =>
        assert v.s == w.s && Acts(steps) == Acts(steps[1..]);
    }
  }

  /**
   * The next poll sees a success, after which the target is pruned, exactly if the process came to a clean end, no
   * cancel came before that, and the record is still there.
   */
  lemma SuccessIsCleanEnd(w: World, id: Id, steps: seq<Step>)
    requires Watched(w, id) && w.s.jobs[id].status == Running
    requires CanRun(w, id, steps) && RunTo(w, id, steps).watcher.Waiting?
    ensures var v := StepTo(RunTo(w, id, steps), id, Poll).watcher;
      v.Released? && v.status == Success <==> FateOf(Acts(steps), id) == EndedFirst(Clean) && !Taken(steps, id)
  {
    assert JobInv(w.s, id);
    JobHistory(w, id, steps);
    RunOfActs(w, id, steps);
    SuccessIff(w.s, Acts(steps), id);
  }
}
