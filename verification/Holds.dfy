/**
 * Holds on source snapshots: replication runs in any interleaving, with failures, ended contexts, crashes and
 * restarts, and users who release and destroy snapshots.
 */
module Holds {
  import opened Text

  datatype Snap = Snap(ds: string, snap: string)

  // e is the dataset d or one below it.
  predicate Within(d: string, e: string) {
    e == d || d + "/" <= e
  }

  // What a zfs command names: one snapshot, or with -r the snapshots of that name on all datasets below, too.
  datatype Span = Span(ds: string, snap: string, recursive: bool) {
    predicate Covers(s: Snap) {
      s.snap == snap && if recursive then Within(ds, s.ds) else s.ds == ds
    }
  }

  // Why a run ended without releasing its hold.
  datatype Cause = ContextEnded | RecordGone | Crashed | ReleaseFailed

  datatype Phase = Taken | Held | Watched | Done | Left(why: Cause)

  datatype Run = Run(span: Span, phase: Phase) {
    predicate Live() { phase.Held? || phase.Watched? }
  }

  type RunId = nat

  datatype World = World(
    prefix: string,             // of all own snapshot names
    datasets: set<string>,
    snaps: set<Snap>,
    holds: set<Snap>,           // snapshots with the replication tag
    runs: map<RunId, Run>       // every run ever started
  )

  datatype Step =
    | Snapshot(id: RunId, span: Span)
    | Hold(id: RunId)
    | HoldFails(id: RunId, destroyed: bool)
    | Quit(id: RunId, released: bool)     // no common snapshot could be looked up, or no job was dispatched
    | Dispatch(id: RunId)
    | Seen(id: RunId, released: bool)     // the job was seen terminal
    | Stop(id: RunId)                     // the context ended
    | Gone(id: RunId)                     // the job record vanished
    | Crash
    | Startup(names: set<Snap>)           // the own snapshots whose recursive release worked
    | UserRelease(ds: string, snap: string)
    | UserDestroy(s: Snap)
    | NewDataset(d: string)

  function Covered(span: Span, snaps: set<Snap>): set<Snap> {
    set s | s in snaps && span.Covers(s)
  }

  /** The snapshots that `zfs snapshot [-r]` makes. */
  function Made(span: Span, datasets: set<string>): set<Snap> {
    set d | d in datasets && span.Covers(Snap(d, span.snap)) :: Snap(d, span.snap)
  }

  predicate Named(names: set<Snap>, s: Snap) {
    exists n :: n in names && Span(n.ds, n.snap, true).Covers(s)
  }

  predicate InPhase(w: World, id: RunId, p: Phase) {
    id in w.runs && w.runs[id].phase == p
  }

  predicate Enabled(w: World, step: Step) {
    match step
    case Snapshot(id, span) =>
      // the command is atomic and refuses existing names
      id !in w.runs && w.prefix <= span.snap && span.ds in w.datasets && Made(span, w.datasets) !! w.snaps
    case Hold(id) => InPhase(w, id, Taken) && Covered(w.runs[id].span, w.holds) == {}
    case HoldFails(id, destroyed) => InPhase(w, id, Taken) &&
      (destroyed ==> Snap(w.runs[id].span.ds, w.runs[id].span.snap) !in w.holds)
    case Quit(id, released) => InPhase(w, id, Held)
    case Dispatch(id) => InPhase(w, id, Held)
    case Seen(id, released) => InPhase(w, id, Watched)
    case Stop(id) => InPhase(w, id, Watched)
    case Gone(id) => InPhase(w, id, Watched)
    case Crash => true
    case Startup(names) =>
      && (forall id :: id in w.runs ==> w.runs[id].phase.Done? || w.runs[id].phase.Left?)
      && (forall n :: n in names ==> n in w.snaps && w.prefix <= n.snap)
    case UserRelease(ds, snap) => w.prefix <= snap
    case UserDestroy(s) => s !in w.holds
    case NewDataset(d) => true
  }

  function SetPhase(w: World, id: RunId, p: Phase): map<RunId, Run>
    requires id in w.runs
  {
    w.runs[id := w.runs[id].(phase := p)]
  }

  function Release(w: World, id: RunId, released: bool): World
    requires id in w.runs
  {
    if released then w.(holds := w.holds - Covered(w.runs[id].span, w.holds), runs := SetPhase(w, id, Done))
    else w.(runs := SetPhase(w, id, Left(ReleaseFailed)))
  }

  function Next(w: World, step: Step): World
    requires Enabled(w, step)
  {
    match step
    case Snapshot(id, span) =>
      w.(snaps := w.snaps + Made(span, w.datasets), runs := w.runs[id := Run(span, Taken)])
    case Hold(id) => w.(holds := w.holds + Covered(w.runs[id].span, w.snaps), runs := SetPhase(w, id, Held))
    case HoldFails(id, destroyed) =>
      var own := Snap(w.runs[id].span.ds, w.runs[id].span.snap);
      w.(snaps := if destroyed then w.snaps - {own} else w.snaps, runs := SetPhase(w, id, Done))
    case Quit(id, released) => Release(w, id, released)
    case Dispatch(id) => w.(runs := SetPhase(w, id, Watched))
    case Seen(id, released) => Release(w, id, released)
    case Stop(id) => w.(runs := SetPhase(w, id, Left(ContextEnded)))
    case Gone(id) => w.(runs := SetPhase(w, id, Left(RecordGone)))
    case Crash =>
      w.(runs := map id | id in w.runs ::
        if w.runs[id].Live() then w.runs[id].(phase := Left(Crashed))
        else if w.runs[id].phase.Taken? then w.runs[id].(phase := Done)  // it never held anything
        else w.runs[id])
    case Startup(names) => w.(holds := set s | s in w.holds && !Named(names, s))
    case UserRelease(ds, snap) => w.(holds := w.holds - Covered(Span(ds, snap, true), w.holds))
    case UserDestroy(s) => w.(snaps := w.snaps - {s})
    case NewDataset(d) => w.(datasets := w.datasets + {d})
  }

  // ---- What a step does to one snapshot, and to the runs ----

  /** A hold goes by its run's release, if that works, or by a recursive release of a snapshot at or above it. */
  ghost predicate LosesHold(w: World, step: Step, s: Snap)
    requires Enabled(w, step)
  {
    match step
    case Quit(id, released) => released && w.runs[id].span.Covers(s)
    case Seen(id, released) => released && w.runs[id].span.Covers(s)
    case Startup(names) => exists n :: n in names && n.snap == s.snap && (s.ds == n.ds || n.ds + "/" <= s.ds)
    case UserRelease(ds, snap) => snap == s.snap && (s.ds == ds || ds + "/" <= s.ds)
    case _ => false
  }

  lemma HoldChanges(w: World, step: Step, s: Snap)
    requires Enabled(w, step)
    ensures s !in w.holds ==>
      (s in Next(w, step).holds <==> step.Hold? && s in w.snaps && w.runs[step.id].span.Covers(s))
    ensures s in w.holds ==> (s !in Next(w, step).holds <==> LosesHold(w, step, s))
  {
  }

  lemma SnapChanges(w: World, step: Step, s: Snap)
    requires Enabled(w, step)
    ensures s !in w.snaps ==>
      (s in Next(w, step).snaps <==> step.Snapshot? && s.ds in w.datasets && step.span.Covers(s))
    ensures s in w.snaps ==>
      (s !in Next(w, step).snaps <==>
        || (step.UserDestroy? && step.s == s)
        || (step.HoldFails? && step.destroyed &&
             s.ds == w.runs[step.id].span.ds && s.snap == w.runs[step.id].span.snap))
  {
  }

  /** A run is left without a release exactly by a crash, an ended context, a vanished record or a failed release. */
  lemma RunIsLeft(w: World, step: Step, id: RunId)
    requires Enabled(w, step) && id in w.runs && !w.runs[id].phase.Left?
    ensures id in Next(w, step).runs && Next(w, step).runs[id].span == w.runs[id].span
    ensures Next(w, step).runs[id].phase ==
      match step
      case Hold(i) => if i == id then Held else w.runs[id].phase
      case HoldFails(i, _) => if i == id then Done else w.runs[id].phase
      case Quit(i, released) =>
        if i != id then w.runs[id].phase else if released then Done else Left(ReleaseFailed)
      case Dispatch(i) => if i == id then Watched else w.runs[id].phase
      case Seen(i, released) =>
        if i != id then w.runs[id].phase else if released then Done else Left(ReleaseFailed)
      case Stop(i) => if i == id then Left(ContextEnded) else w.runs[id].phase
      case Gone(i) => if i == id then Left(RecordGone) else w.runs[id].phase
      case Crash => if w.runs[id].phase == Taken || w.runs[id].phase == Done then Done else Left(Crashed)
      case _ => w.runs[id].phase
  {
  }

  /** After a crash, which may come at any time, no run is going on, and startup can come next. */
  lemma CrashThenStartup(w: World, names: set<Snap>)
    requires forall n :: n in names ==> n in w.snaps && w.prefix <= n.snap
    ensures Enabled(w, Crash) && Enabled(Next(w, Crash), Startup(names))
    ensures Next(w, Crash).holds == w.holds && Next(w, Crash).snaps == w.snaps
    ensures forall id :: id in w.runs ==> !Next(w, Crash).runs[id].Live()
  {
  }

  /** Users and administrators are free to act. */
  lemma NothingForbids(w: World, s: Snap, d: string)
    ensures w.prefix <= s.snap ==> Enabled(w, UserRelease(s.ds, s.snap))
    ensures s !in w.holds <==> Enabled(w, UserDestroy(s))
    ensures Enabled(w, NewDataset(d)) && Next(w, NewDataset(d)) == w.(datasets := w.datasets + {d})
  {
  }

  // ---- Runs of the whole system ----

  function Start(prefix: string, datasets: set<string>): World {
    World(prefix, datasets, {}, {}, map[])
  }

  predicate Legal(w: World, steps: seq<Step>)
    decreases |steps|, 0
  {
    steps == [] ||
    (Legal(w, steps[..|steps| - 1]) && Enabled(After(w, steps[..|steps| - 1]), steps[|steps| - 1]))
  }

  function After(w: World, steps: seq<Step>): World
    requires Legal(w, steps)
    decreases |steps|, 1
  {
    if steps == [] then w else Next(After(w, steps[..|steps| - 1]), steps[|steps| - 1])
  }

  // ---- Every hold has an owner ----

  /** The run holds s: it is between hold and release, or it was left without a release. */
  predicate Owns(r: Run, s: Snap) {
    (r.phase.Held? || r.phase.Watched? || r.phase.Left?) && r.span.Covers(s)
  }

  ghost predicate Owned(w: World, s: Snap) {
    exists id :: id in w.runs && Owns(w.runs[id], s)
  }

  ghost predicate Inv(w: World) {
    && w.holds <= w.snaps
    && (forall s :: s in w.snaps ==> s.ds in w.datasets)
    && (forall s :: s in w.holds ==> Owned(w, s) && w.prefix <= s.snap)
    && (forall id :: id in w.runs ==> w.prefix <= w.runs[id].span.snap)
  }

  /** The owner after a step: the same run, unless it is the one that has just made the hold. */
  lemma OwnerStep(w: World, step: Step, s: Snap)
    requires Inv(w) && Enabled(w, step) && s in Next(w, step).holds
    ensures Owned(Next(w, step), s) && w.prefix <= s.snap
  {
    var u := Next(w, step);
    if s in w.holds {
      var id :| id in w.runs && Owns(w.runs[id], s);
      assert id in u.runs && Owns(u.runs[id], s);
    } else {
      assert step.Hold? && Owns(u.runs[step.id], s);
    }
  }

  lemma StepInv(w: World, step: Step)
    requires Inv(w) && Enabled(w, step)
    ensures Inv(Next(w, step))
  {
    forall s | s in Next(w, step).holds ensures Owned(Next(w, step), s) && w.prefix <= s.snap {
      OwnerStep(w, step, s);
    }
  }

  lemma {:induction false} RunInv(w: World, steps: seq<Step>)
    requires Inv(w) && Legal(w, steps)
    ensures Inv(After(w, steps))
  {
    if steps != [] {
      RunInv(w, steps[..|steps| - 1]);
      StepInv(After(w, steps[..|steps| - 1]), steps[|steps| - 1]);
    }
  }

  predicate Works(step: Step) {
    (step.Quit? ==> step.released) && (step.Seen? ==> step.released)
  }

  // Every release succeeds.
  predicate ReleasesWork(steps: seq<Step>) {
    forall i :: 0 <= i < |steps| ==> Works(steps[i])
  }

  lemma {:induction false} NoFailedRelease(w: World, steps: seq<Step>)
    requires Legal(w, steps) && ReleasesWork(steps)
    requires forall id :: id in w.runs ==> w.runs[id].phase != Left(ReleaseFailed)
    ensures forall id :: id in After(w, steps).runs ==> After(w, steps).runs[id].phase != Left(ReleaseFailed)
  {
    if steps != [] {
      var front := steps[..|steps| - 1];
      assert forall i :: 0 <= i < |front| ==> front[i] == steps[i];
      NoFailedRelease(w, front);
      assert Works(steps[|steps| - 1]);
    }
  }

  /**
   * Releases succeeding, in every interleaving: a hold belongs to a run between its hold and the end of its job, or to
   * an orphan that a crash, an ended context or a vanished job record left.
   */
  lemma EveryHoldHasAnOwner(prefix: string, datasets: set<string>, steps: seq<Step>, s: Snap)
    requires Legal(Start(prefix, datasets), steps) && ReleasesWork(steps)
    requires s in After(Start(prefix, datasets), steps).holds
    ensures var w := After(Start(prefix, datasets), steps);
      && s in w.snaps && prefix <= s.snap
      && exists id :: id in w.runs && w.runs[id].span.Covers(s) &&
           w.runs[id].phase in {Held, Watched, Left(Crashed), Left(ContextEnded), Left(RecordGone)}
  {
    var w := After(Start(prefix, datasets), steps);
    RunInv(Start(prefix, datasets), steps);
    PrefixStays(Start(prefix, datasets), steps);
    NoFailedRelease(Start(prefix, datasets), steps);
    var id :| id in w.runs && Owns(w.runs[id], s);
    var p := w.runs[id].phase;
    assert p != Left(ReleaseFailed);
    if p.Left? {
      assert p.why != ReleaseFailed;
    }
  }

  lemma {:induction false} PrefixStays(w: World, steps: seq<Step>)
    requires Legal(w, steps)
    ensures After(w, steps).prefix == w.prefix
  {
    if steps != [] {
      PrefixStays(w, steps[..|steps| - 1]);
    }
  }

  // ---- A live run's snapshots stay held ----

  /** No snapshot can be covered by both. */
  ghost predicate Apart(a: Span, b: Span) {
    forall s: Snap :: !(a.Covers(s) && b.Covers(s))
  }

  /** Spans are apart unless they have one name and one is on the other's dataset or recursively above it. */
  lemma ApartIff(a: Span, b: Span)
    ensures Apart(a, b) <==>
      !(a.snap == b.snap &&
        (a.ds == b.ds || (a.recursive && Within(a.ds, b.ds)) || (b.recursive && Within(b.ds, a.ds))))
  {
    if a.snap == b.snap {
      var inA, inB := Snap(a.ds, a.snap), Snap(b.ds, b.snap);
      assert a.Covers(inA) && b.Covers(inB);
      assert Apart(a, b) ==> !a.Covers(inB) && !b.Covers(inA);
      forall s: Snap | a.Covers(s) && b.Covers(s)
        ensures a.ds == b.ds || (a.recursive && Within(a.ds, b.ds)) || (b.recursive && Within(b.ds, a.ds))
      {
        Comparable(a.ds, b.ds, s.ds);
      }
    }
  }

  lemma Comparable(d: string, e: string, x: string)
    requires Within(d, x) && Within(e, x)
    ensures Within(d, e) || Within(e, d)
  {
    if x != d && x != e {
      assert x[..|d| + 1] == d + "/" && x[..|e| + 1] == e + "/";
      if |d| < |e| {
        assert e == x[..|e|] && e[..|d| + 1] == x[..|d| + 1];
      } else if |e| < |d| {
        assert d == x[..|d|] && d[..|e| + 1] == x[..|e| + 1];
      } else {
        assert d == x[..|d|] == e;
      }
    }
  }

  // Users release nothing that names s, or its name on a dataset above.
  ghost predicate UsersSpare(steps: seq<Step>, s: Snap) {
    forall i :: 0 <= i < |steps| ==> Spares(steps[i], s)
  }

  predicate Spares(step: Step, s: Snap) {
    step.UserRelease? ==> !Span(step.ds, step.snap, true).Covers(s)
  }

  /** No other run between its hold and the end of its job covers s. */
  ghost predicate Sole(w: World, id: RunId, s: Snap) {
    forall other :: other in w.runs && other != id && w.runs[other].Live() ==> !w.runs[other].span.Covers(s)
  }

  lemma LiveBefore(w: World, step: Step, id: RunId)
    requires id in w.runs && !w.runs[id].phase.Taken? && Enabled(w, step)
    ensures id in Next(w, step).runs && Next(w, step).runs[id].span == w.runs[id].span
    ensures !Next(w, step).runs[id].phase.Taken?
    ensures Next(w, step).runs[id].Live() ==> w.runs[id].Live()
  {
  }

  lemma {:induction false} StillThere(w: World, steps: seq<Step>, id: RunId)
    requires Legal(w, steps) && id in w.runs && !w.runs[id].phase.Taken?
    ensures id in After(w, steps).runs && After(w, steps).runs[id].span == w.runs[id].span
    ensures !After(w, steps).runs[id].phase.Taken?
  {
    if steps != [] {
      StillThere(w, steps[..|steps| - 1], id);
      LiveBefore(After(w, steps[..|steps| - 1]), steps[|steps| - 1], id);
    }
  }

  lemma HeldIsInTheWay(w: World, span: Span, s: Snap)
    requires Inv(w) && s in w.holds && span.Covers(s)
    ensures s in Covered(span, w.holds) && s in Made(span, w.datasets) && s in w.snaps
  {
    assert s in w.snaps && s.ds in w.datasets && Snap(s.ds, s.snap) == s;
  }

  /** While s is held no other run can come to cover it: its snapshot, or its hold, is refused. */
  lemma SoleStep(w: World, step: Step, id: RunId, s: Snap)
    requires Inv(w) && Enabled(w, step) && Sole(w, id, s) && s in w.holds
    ensures Sole(Next(w, step), id, s)
  {
    forall span: Span | span.Covers(s)
      ensures s in Covered(span, w.holds) && s in Made(span, w.datasets) && s in w.snaps
    {
      HeldIsInTheWay(w, span, s);
    }
  }

  /**
   * As long as the run lives, what it holds stays held and cannot be destroyed, unless a user releases it by its name
   * or by that of a dataset above.
   */
  lemma {:induction false} LiveStaysHeld(w: World, steps: seq<Step>, id: RunId, s: Snap)
    requires Inv(w) && id in w.runs && w.runs[id].Live() && s in w.holds && w.runs[id].span.Covers(s) && Sole(w, id, s)
    requires Legal(w, steps) && UsersSpare(steps, s)
    requires id in After(w, steps).runs && After(w, steps).runs[id].Live()
    ensures Sole(After(w, steps), id, s)
    ensures s in After(w, steps).holds && s in After(w, steps).snaps && !Enabled(After(w, steps), UserDestroy(s))
  {
    RunInv(w, steps);
    if steps != [] {
      var front, last := steps[..|steps| - 1], steps[|steps| - 1];
      assert forall i :: 0 <= i < |front| ==> front[i] == steps[i];
      var v := After(w, front);
      StillThere(w, front, id);
      LiveBefore(v, last, id);
      LiveStaysHeld(w, front, id, s);
      RunInv(w, front);
      SoleStep(v, last, id, s);
      StaysHeld(v, last, id, s);
    }
  }

  lemma StaysHeld(w: World, step: Step, id: RunId, s: Snap)
    requires Inv(w) && Enabled(w, step) && id in w.runs && w.runs[id].Live() && s in w.holds && Sole(w, id, s)
    requires Next(w, step).runs[id].Live() && Spares(step, s)
    ensures s in Next(w, step).holds
  {
  }

  /**
   * From its hold until its job is seen terminal, whatever else happens, the snapshots a run took stay held, unless a
   * user releases one by its name or by that of a dataset above. Other runs may have the same label; only a run that
   * already covers the same snapshot, between its own hold and the end of its job, is excluded.
   */
  lemma HeldUntilJobEnds(w: World, id: RunId, s: Snap, steps: seq<Step>)
    requires Inv(w) && Enabled(w, Hold(id)) && s in Covered(w.runs[id].span, w.snaps) && Sole(w, id, s)
    requires Legal(Next(w, Hold(id)), steps) && UsersSpare(steps, s)
    requires var u := After(Next(w, Hold(id)), steps); id in u.runs && u.runs[id].Live()
    ensures var u := After(Next(w, Hold(id)), steps); s in u.holds && s in u.snaps && !Enabled(u, UserDestroy(s))
  {
    StepInv(w, Hold(id));
    LiveStaysHeld(Next(w, Hold(id)), steps, id, s);
  }

  // ---- Startup ----

  /** A hold survives startup exactly when no own snapshot of its name, on its dataset or above, was released. */
  lemma StartupClears(w: World, names: set<Snap>)
    requires Inv(w) && Enabled(w, Startup(names))
    ensures Next(w, Startup(names)).holds == {} <==> forall s :: s in w.holds ==> Named(names, s)
    ensures (forall n :: n in w.snaps && w.prefix <= n.snap ==> n in names) ==> Next(w, Startup(names)).holds == {}
  {
    var u := Next(w, Startup(names));
    assert forall s :: s in w.holds && !Named(names, s) ==> s in u.holds;
    if forall n :: n in w.snaps && w.prefix <= n.snap ==> n in names {
      forall s | s in w.holds ensures Named(names, s) {
        assert s in names && Span(s.ds, s.snap, true).Covers(s);
      }
    }
  }
}
