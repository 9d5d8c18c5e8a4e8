/**
 * The chain of incremental sends between one source and one target: any number of replication runs in flight, each
 * taking a snapshot, listing the source and then the target, sending, and pruning the target one snapshot at a time.
 */
module Chain {
  import opened Text
  import opened Snapshots

  // A run's snapshot is identified by its label, the second at which the run started.
  type Stamp = nat

  // A run has taken its snapshot; has listed the source; has listed the target, too, and so chosen a base.
  datatype Run = Taken | Listed(seen: seq<Stamp>) | Based(base: Option<Stamp>)

  datatype World = World(
    src: seq<Stamp>,                  // own snapshots on the source, by creation
    dst: seq<Stamp>,                  // and on the target
    runs: map<Stamp, Run>,            // runs before their transfer has ended
    prunes: map<Stamp, seq<Stamp>>,   // what the prune of a run has still to destroy, of the excess it has listed
    clock: nat                        // the latest label given out
  )

  const START := World([], [], map[], map[], 0)

  datatype Step =
    | Take(x: Stamp)
    | HoldFails(x: Stamp, destroyed: bool)  // the run ends; its snapshot is destroyed, or not even that
    | ListSource(x: Stamp)
    | ListTarget(x: Stamp)
    | Abandon(x: Stamp)                     // listing, dispatch or transfer failed, or the job was cancelled
    | Receive(x: Stamp)                     // the transfer arrived
    | PruneList(x: Stamp, retain: nat)      // the prune of run x lists the target
    | PruneOne(x: Stamp)                    // and destroys the next of the excess
    | PruneEnds(x: Stamp)                   // all is destroyed, or something failed

  function Newest(s: seq<Stamp>): Option<Stamp> {
    if s == [] then None else Some(s[|s| - 1])
  }

  // The elements up to v.
  function UpTo(s: seq<Stamp>, v: Stamp): seq<Stamp> {
    if s == [] || s[|s| - 1] == v then s else UpTo(s[..|s| - 1], v)
  }

  function Remove(s: seq<Stamp>, x: Stamp): seq<Stamp> {
    if s == [] then []
    else if s[|s| - 1] == x then Remove(s[..|s| - 1], x)
    else Remove(s[..|s| - 1], x) + [s[|s| - 1]]
  }

  /** All but the newest `retain`, oldest first. */
  function Excess(s: seq<Stamp>, retain: nat): seq<Stamp> {
    if |s| <= retain then [] else s[..|s| - retain]
  }

  predicate CanReceive(w: World, x: Stamp) {
    && x in w.runs && w.runs[x].Based?
    && match w.runs[x].base
       case None => w.dst == []                    // a full stream needs a target without own snapshots
       case Some(v) => v in w.dst && v < x         // an incremental one starts at an older snapshot on the target
  }

  predicate Enabled(w: World, s: Step) {
    match s
    case Take(x) => x > w.clock
    case HoldFails(x, destroyed) => x in w.runs && w.runs[x].Taken?
    case ListSource(x) => x in w.runs && w.runs[x].Taken?
    case ListTarget(x) => x in w.runs && w.runs[x].Listed?
    case Abandon(x) => x in w.runs
    case Receive(x) => CanReceive(w, x)
    case PruneList(x, retain) => x !in w.prunes && x <= w.clock && x !in w.runs
    case PruneOne(x) => x in w.prunes && w.prunes[x] != [] && w.prunes[x][0] in w.dst
    case PruneEnds(x) => x in w.prunes
  }

  function Next(w: World, s: Step): World
    requires Enabled(w, s)
  {
    match s
    case Take(x) => w.(src := w.src + [x], runs := w.runs[x := Taken], clock := x)
    case HoldFails(x, destroyed) =>
      w.(src := if destroyed then Remove(w.src, x) else w.src, runs := w.runs - {x})
    case ListSource(x) => w.(runs := w.runs[x := Listed(w.src)])
    case ListTarget(x) => w.(runs := w.runs[x := Based(LastCommon(w.runs[x].seen, w.dst))])
    case Abandon(x) => w.(runs := w.runs - {x})
    case Receive(x) =>
      // recv -F first rolls the target back to the base
      var kept := if w.runs[x].base.None? then [] else UpTo(w.dst, w.runs[x].base.value);
      w.(dst := kept + [x], runs := w.runs - {x})
    case PruneList(x, retain) => w.(prunes := w.prunes[x := Excess(w.dst, retain)])
    case PruneOne(x) => w.(dst := Remove(w.dst, w.prunes[x][0]), prunes := w.prunes[x := w.prunes[x][1..]])
    case PruneEnds(x) => w.(prunes := w.prunes - {x})
  }

  // ---- Runs ----

  predicate Legal(w: World, steps: seq<Step>)
    decreases |steps|, 0
  {
    steps == [] ||
    (Legal(w, steps[..|steps| - 1]) && Enabled(After(w, steps[..|steps| - 1]), steps[|steps| - 1]))
  }

  function After(w: World, steps: seq<Step>): World
    requires Legal(w, steps)
    decreases |steps|, 1
  {
    if steps == [] then w else Next(After(w, steps[..|steps| - 1]), steps[|steps| - 1])
  }

  // ---- The invariant ----

  predicate Increasing(s: seq<Stamp>) {
    forall i, j :: 0 <= i < j < |s| ==> s[i] < s[j]
  }

  ghost predicate RunOk(w: World, x: Stamp)
    requires x in w.runs
  {
    x in w.src && x !in w.dst && (w.runs[x].Listed? ==> Increasing(w.runs[x].seen))
  }

  /** Both sides in time order, the target a subset of the source, and runs in flight not yet on the target. */
  ghost predicate Inv(w: World) {
    && Increasing(w.src) && Increasing(w.dst)
    && (forall x :: x in w.dst ==> x in w.src)
    && (forall x :: x in w.src ==> x <= w.clock)
    && (forall x :: x in w.runs ==> RunOk(w, x))
  }

  lemma {:induction false} UpToIs(s: seq<Stamp>, v: Stamp)
    requires Increasing(s) && v in s
    ensures UpTo(s, v) <= s && UpTo(s, v) != [] && UpTo(s, v)[|UpTo(s, v)| - 1] == v
    ensures forall x :: x in s ==> (x in UpTo(s, v) <==> x <= v)
  {
    var front, last := s[..|s| - 1], s[|s| - 1];
    assert s == front + [last];
    assert forall x :: x in front ==> x < last;
    if last != v {
      assert v in front;
      UpToIs(front, v);
      assert last !in UpTo(front, v);
    } else {
      assert UpTo(s, v) == s;
    }
  }

  lemma IncreasingSnoc(s: seq<Stamp>, x: Stamp)
    requires Increasing(s) && forall y :: y in s ==> y < x
    ensures Increasing(s + [x])
  {
    assert forall i :: 0 <= i < |s| ==> s[i] in s;
  }

  lemma {:induction false} RemoveIs(s: seq<Stamp>, x: Stamp)
    requires Increasing(s)
    ensures Increasing(Remove(s, x))
    ensures forall y :: y in Remove(s, x) <==> y in s && y != x
  {
    if s != [] {
      var front, last := s[..|s| - 1], s[|s| - 1];
      assert s == front + [last];
      RemoveIs(front, x);
      if last != x {
        IncreasingSnoc(Remove(front, x), last);
      }
    }
  }

  lemma ReceiveInv(w: World, x: Stamp)
    requires Inv(w) && Enabled(w, Receive(x))
    ensures Inv(Next(w, Receive(x)))
  {
    var u := Next(w, Receive(x));
    var base := w.runs[x].base;
    assert RunOk(w, x);
    if base.Some? {
      UpToIs(w.dst, base.value);
      var kept := UpTo(w.dst, base.value);
      assert forall y :: y in kept ==> y <= base.value && y in w.dst;
      IncreasingSnoc(kept, x);
    }
    forall y | y in u.runs ensures RunOk(u, y) {
      assert RunOk(w, y);
    }
  }

  lemma StepInv(w: World, s: Step)
    requires Inv(w) && Enabled(w, s)
    ensures Inv(Next(w, s))
  {
    if s.Receive? {
      ReceiveInv(w, s.x);
    } else {
      if s.HoldFails? {
        RemoveIs(w.src, s.x);
      } else if s.PruneOne? {
        RemoveIs(w.dst, w.prunes[s.x][0]);
      } else if s.Take? {
        IncreasingSnoc(w.src, s.x);
      }
      var u := Next(w, s);
      assert s.HoldFails? ==> RunOk(w, s.x);
      forall y | y in u.runs ensures RunOk(u, y) {
        assert y in w.runs ==> RunOk(w, y);
      }
    }
  }

  lemma {:induction false} RunInv(w: World, steps: seq<Step>)
    requires Inv(w) && Legal(w, steps)
    ensures Inv(After(w, steps))
  {
    if steps != [] {
      RunInv(w, steps[..|steps| - 1]);
      StepInv(After(w, steps[..|steps| - 1]), steps[|steps| - 1]);
    }
  }

  // ---- The base ----

  lemma {:induction false} CommonIsInBoth(src: seq<Stamp>, dst: seq<Stamp>)
    ensures LastCommon(src, dst).Some? ==> LastCommon(src, dst).value in src && LastCommon(src, dst).value in dst
  {
    if src != [] && src[|src| - 1] !in dst {
      CommonIsInBoth(src[..|src| - 1], dst);
    }
  }

  lemma {:induction false} NewestSurvives(src: seq<Stamp>, dst: seq<Stamp>)
    requires Increasing(src) && Increasing(dst) && dst != [] && dst[|dst| - 1] in src
    ensures LastCommon(src, dst) == Newest(dst)
  {
    var front, last := src[..|src| - 1], src[|src| - 1];
    assert src == front + [last];
    if last in dst {
      assert dst[|dst| - 1] <= last;
    } else {
      NewestSurvives(front, dst);
    }
  }

  lemma {:induction false} NothingCommon(src: seq<Stamp>)
    ensures LastCommon(src, []) == None
  {
    if src != [] {
      NothingCommon(src[..|src| - 1]);
    }
  }

  /** The base is the target's newest exactly when the listing of the source had that one. */
  lemma NewestIff(src: seq<Stamp>, dst: seq<Stamp>)
    requires Increasing(src) && Increasing(dst)
    ensures LastCommon(src, dst) == Newest(dst) <==> dst == [] || dst[|dst| - 1] in src
  {
    if dst == [] {
      NothingCommon(src);
    } else if dst[|dst| - 1] in src {
      NewestSurvives(src, dst);
    } else {
      CommonIsInBoth(src, dst);
    }
  }

  /**
   * Whatever runs overlap, fail half-way or leave a prune unfinished: the base that a run chooses is the newest own
   * snapshot of the target exactly when that snapshot was already in the run's listing of the source.
   */
  lemma BaseIsNewestIff(steps: seq<Step>, x: Stamp)
    requires Legal(START, steps) && Enabled(After(START, steps), ListTarget(x))
    ensures var w := After(START, steps);
      Next(w, ListTarget(x)).runs[x] == Based(Newest(w.dst)) <==> w.dst == [] || w.dst[|w.dst| - 1] in w.runs[x].seen
  {
    RunInv(START, steps);
    var w := After(START, steps);
    assert RunOk(w, x);
    NewestIff(w.runs[x].seen, w.dst);
  }

  // A run starts only when no other is before the end of its transfer; its prune may still be going on.
  predicate OneByOne(w: World, steps: seq<Step>)
    requires Legal(w, steps)
  {
    steps == [] ||
    var front, last := steps[..|steps| - 1], steps[|steps| - 1];
    OneByOne(w, front) && (last.Take? ==> After(w, front).runs == map[])
  }

  /** The only run in flight is newer than the target, and has listed all that is on the target. */
  ghost predicate Single(w: World, x: Stamp)
    requires x in w.runs
  {
    && (forall y :: y in w.runs ==> y == x)
    && (forall y :: y in w.dst ==> y < x)
    && (w.runs[x].Listed? ==> forall y :: y in w.dst ==> y in w.runs[x].seen)
  }

  ghost predicate AllSingle(w: World) {
    forall x :: x in w.runs ==> Single(w, x)
  }

  lemma SingleStep(w: World, s: Step)
    requires Inv(w) && AllSingle(w) && Enabled(w, s) && (s.Take? ==> w.runs == map[])
    ensures AllSingle(Next(w, s))
  {
    var u := Next(w, s);
    if s.PruneOne? {
      RemoveIs(w.dst, w.prunes[s.x][0]);
    }
    if s.Take? {
      assert forall y :: y in w.dst ==> y <= w.clock;
    }
    assert s.Receive? ==> Single(w, s.x);
    forall x | x in u.runs ensures Single(u, x) {
      assert x in w.runs ==> Single(w, x);
    }
  }

  lemma {:induction false} RunsSingle(w: World, steps: seq<Step>)
    requires Inv(w) && AllSingle(w) && Legal(w, steps) && OneByOne(w, steps)
    ensures AllSingle(After(w, steps))
  {
    if steps != [] {
      RunsSingle(w, steps[..|steps| - 1]);
      RunInv(w, steps[..|steps| - 1]);
      SingleStep(After(w, steps[..|steps| - 1]), steps[|steps| - 1]);
    }
  }

  /**
   * Runs one by one, after any failures and half-finished prunes: the base is the newest own snapshot of the target.
   */
  lemma BaseIsNewest(steps: seq<Step>, x: Stamp)
    requires Legal(START, steps) && OneByOne(START, steps) && Enabled(After(START, steps), ListTarget(x))
    ensures var w := After(START, steps); Next(w, ListTarget(x)).runs[x] == Based(Newest(w.dst))
  {
    RunsSingle(START, steps);
    assert Single(After(START, steps), x);
    BaseIsNewestIff(steps, x);
  }

  function LabelsOf(s: seq<Stamp>, labelOf: Stamp -> string): (r: seq<string>)
    ensures |r| == |s| && forall i :: 0 <= i < |s| ==> r[i] == labelOf(s[i])
  {
    seq(|s|, i requires 0 <= i < |s| => labelOf(s[i]))
  }

  /** Choosing by labels is choosing by times, as long as different times have different labels. */
  lemma {:induction false} LabelsChooseTheSame(src: seq<Stamp>, dst: seq<Stamp>, labelOf: Stamp -> string)
    requires forall x, y :: x in src && y in dst && labelOf(x) == labelOf(y) ==> x == y
    ensures LastCommon(LabelsOf(src, labelOf), LabelsOf(dst, labelOf)) ==
      match LastCommon(src, dst) case None => None case Some(v) => Some(labelOf(v))
  {
    if src != [] {
      var front, last := src[..|src| - 1], src[|src| - 1];
      var names, others := LabelsOf(src, labelOf), LabelsOf(dst, labelOf);
      assert names[..|names| - 1] == LabelsOf(front, labelOf);
      if last in dst {
        var k :| 0 <= k < |dst| && dst[k] == last;
        assert others[k] == labelOf(last);
      } else {
        forall k | 0 <= k < |others| ensures others[k] != labelOf(last) {
          assert dst[k] in dst;
        }
        assert forall x :: x in front ==> x in src;
        LabelsChooseTheSame(front, dst, labelOf);
      }
    }
  }

  // ---- Once a run has succeeded ----

  /** Every prune keeps at least one. */
  predicate Retaining(steps: seq<Step>) {
    forall i :: 0 <= i < |steps| && steps[i].PruneList? ==> steps[i].retain >= 1
  }

  /** No prune has the newest snapshot of the target, or that of a run in flight, before it. */
  ghost predicate Spares(w: World, x: Stamp)
    requires x in w.prunes
  {
    forall y :: y in w.prunes[x] ==> Newest(w.dst) != Some(y) && y !in w.runs && y <= w.clock
  }

  ghost predicate NewestSpared(w: World) {
    forall x :: x in w.prunes ==> Spares(w, x)
  }

  lemma RemoveKeepsNewest(s: seq<Stamp>, x: Stamp)
    requires Increasing(s) && Newest(s) != Some(x)
    ensures Newest(Remove(s, x)) == Newest(s)
  {
  }

  lemma ExcessSpares(s: seq<Stamp>, retain: nat)
    requires Increasing(s)
    ensures forall y :: y in Excess(s, retain) ==> y in s
    ensures s != [] ==> (s[|s| - 1] in Excess(s, retain) <==> retain == 0)
  {
    if retain == 0 {
      assert Excess(s, retain) == s;
    }
  }

  lemma SparedStep(w: World, s: Step)
    requires Inv(w) && NewestSpared(w) && Enabled(w, s) && (s.PruneList? ==> s.retain >= 1)
    ensures NewestSpared(Next(w, s))
    ensures w.dst != [] ==> Next(w, s).dst != []
    ensures !s.Receive? ==> Newest(Next(w, s).dst) == Newest(w.dst)
  {
    var u := Next(w, s);
    if s.PruneOne? {
      assert Spares(w, s.x);
      assert w.prunes[s.x][0] in w.prunes[s.x];
      RemoveKeepsNewest(w.dst, w.prunes[s.x][0]);
    } else if s.PruneList? {
      ExcessSpares(w.dst, s.retain);
    }
    forall x | x in u.prunes ensures Spares(u, x) {
      SparesStep(w, s, x);
    }
  }

  lemma SparesStep(w: World, s: Step, x: Stamp)
    requires Inv(w) && NewestSpared(w) && Enabled(w, s) && x in Next(w, s).prunes && (s.PruneList? ==> s.retain >= 1)
    requires !s.Receive? ==> Newest(Next(w, s).dst) == Newest(w.dst)
    ensures Spares(Next(w, s), x)
  {
    assert x in w.prunes ==> Spares(w, x);
    if s.PruneList? {
      ExcessSpares(w.dst, s.retain);
      assert forall y :: y in w.runs ==> RunOk(w, y);
    } else if s.PruneOne? {
      var rest := w.prunes[s.x][1..];
      assert forall y :: y in rest ==> y in w.prunes[s.x];
    }
  }

  lemma {:induction false} NeverEmptyAgain(w: World, steps: seq<Step>)
    requires Inv(w) && NewestSpared(w) && Legal(w, steps) && Retaining(steps)
    ensures NewestSpared(After(w, steps))
    ensures w.dst != [] ==> After(w, steps).dst != []
  {
    if steps != [] {
      var front := steps[..|steps| - 1];
      assert forall i :: 0 <= i < |front| ==> front[i] == steps[i];
      NeverEmptyAgain(w, front);
      RunInv(w, front);
      SparedStep(After(w, front), steps[|steps| - 1]);
    }
  }

  /** Runs one by one: once the target holds a snapshot, with retention at least one, every later run is incremental. */
  lemma IncrementalForever(w: World, later: seq<Step>, x: Stamp)
    requires Inv(w) && AllSingle(w) && NewestSpared(w) && w.dst != []
    requires Legal(w, later) && OneByOne(w, later) && Retaining(later) && Enabled(After(w, later), ListTarget(x))
    ensures var u := After(w, later);
      u.dst != [] && Next(u, ListTarget(x)).runs[x] == Based(Some(u.dst[|u.dst| - 1]))
  {
    NeverEmptyAgain(w, later);
    RunInv(w, later);
    RunsSingle(w, later);
    var u := After(w, later);
    assert Single(u, x) && RunOk(u, x);
    NewestIff(u.runs[x].seen, u.dst);
  }

  /** A transfer that arrives makes the first step to that: its own snapshot is then the target's newest. */
  lemma ArrivedIsNewest(before: seq<Step>, r: Stamp)
    requires Legal(START, before) && Enabled(After(START, before), Receive(r))
    ensures var w := Next(After(START, before), Receive(r)); Inv(w) && Newest(w.dst) == Some(r)
  {
    RunInv(START, before);
    StepInv(After(START, before), Receive(r));
  }

  /** What a prune has before it includes the target's newest exactly when its retention is zero. */
  lemma ZeroRetentionForgets(w: World, x: Stamp, retain: nat)
    requires Inv(w) && w.dst != [] && Enabled(w, PruneList(x, retain))
    ensures var u := Next(w, PruneList(x, retain)); u.dst[|u.dst| - 1] in u.prunes[x] <==> retain == 0
    ensures retain == 0 ==> var steps := seq(|w.dst|, _ => PruneOne(x));
      Legal(Next(w, PruneList(x, 0)), steps) && After(Next(w, PruneList(x, 0)), steps).dst == []
  {
    ExcessSpares(w.dst, retain);
    if retain == 0 {
      var u := Next(w, PruneList(x, 0));
      Drains(u, x, |w.dst|);
      assert w.dst[|w.dst|..] == [];
    }
  }

  lemma {:induction false} Drains(w: World, x: Stamp, n: nat)
    requires Increasing(w.dst) && x in w.prunes && w.prunes[x] == w.dst && n <= |w.dst|
    ensures var steps := seq(n, _ => PruneOne(x));
      && Legal(w, steps) && x in After(w, steps).prunes
      && After(w, steps).prunes[x] == w.dst[n..] && After(w, steps).dst == w.dst[n..]
  {
    var steps := seq(n, _ => PruneOne(x));
    if n > 0 {
      Drains(w, x, n - 1);
      assert steps[..n - 1] == seq(n - 1, _ => PruneOne(x));
      RemoveFirst(w.dst[n - 1..]);
      assert w.dst[n - 1..][1..] == w.dst[n..];
    }
  }

  lemma {:induction false} RemoveFirst(s: seq<Stamp>)
    requires Increasing(s) && s != []
    ensures Remove(s, s[0]) == s[1..]
  {
    if |s| > 1 {
      RemoveFirst(s[..|s| - 1]);
      assert s[1..] == s[..|s| - 1][1..] + [s[|s| - 1]];
    } else {
      assert s[..0] == [];
    }
  }

  /** When someone else destroys source snapshots, the base stays the newest exactly if that one was spared. */
  lemma SourceDestroyed(w: World, gone: Stamp)
    requires Inv(w) && w.dst != []
    ensures LastCommon(Remove(w.src, gone), w.dst) == Newest(w.dst) <==> gone != w.dst[|w.dst| - 1]
  {
    RemoveIs(w.src, gone);
    NewestIff(Remove(w.src, gone), w.dst);
  }

  // ---- What a step does to the two sides ----

  /** The source gets a snapshot from a run that starts, and loses one only by the clean-up of a failed hold. */
  lemma SourceChanges(w: World, s: Step, y: Stamp)
    requires Inv(w) && Enabled(w, s)
    ensures y !in w.src ==> (y in Next(w, s).src <==> s == Take(y))
    ensures y in w.src ==> (y !in Next(w, s).src <==> s == HoldFails(y, true))
  {
    if s.HoldFails? {
      RemoveIs(w.src, s.x);
    }
  }

  /** The target gets the snapshot of a transfer, and loses to a prune its next, and to a transfer what is newer. */
  lemma TargetChanges(w: World, s: Step, y: Stamp)
    requires Inv(w) && Enabled(w, s)
    ensures y !in w.dst ==> (y in Next(w, s).dst <==> s == Receive(y))
    ensures y in w.dst ==>
      (y !in Next(w, s).dst <==>
        || (s.PruneOne? && w.prunes[s.x][0] == y)
        || (s.Receive? && w.runs[s.x].base.Some? && y > w.runs[s.x].base.value))
  {
    if s.PruneOne? {
      RemoveIs(w.dst, w.prunes[s.x][0]);
    } else if s.Receive? {
      assert RunOk(w, s.x);
      if w.runs[s.x].base.Some? {
        UpToIs(w.dst, w.runs[s.x].base.value);
      }
    }
  }

  /** A full stream needs an empty target, and then is all there is on it; an incremental one its base on the target. */
  lemma ArrivesIff(w: World, x: Stamp)
    requires Inv(w) && x in w.runs && w.runs[x].Based?
    ensures w.runs[x].base.None? ==> (Enabled(w, Receive(x)) <==> |w.dst| == 0)
    ensures w.runs[x].base.None? && Enabled(w, Receive(x)) ==> Next(w, Receive(x)).dst == [x]
    ensures w.runs[x].base.Some? ==>
      (Enabled(w, Receive(x)) <==> w.runs[x].base.value in w.dst && w.runs[x].base.value <= x)
  {
    assert RunOk(w, x);
  }

  // ---- What a transfer does to the target ----

  /** A transfer only appends exactly when its base is still the newest; otherwise it destroys all that is newer. */
  lemma ReceiveAppends(w: World, x: Stamp)
    requires Inv(w) && Enabled(w, Receive(x))
    ensures Next(w, Receive(x)).dst == w.dst + [x] <==> w.runs[x].base == Newest(w.dst)
    ensures forall y :: y in w.dst ==>
      (y in Next(w, Receive(x)).dst <==> w.runs[x].base.Some? && y <= w.runs[x].base.value)
  {
    assert RunOk(w, x);
    var base := w.runs[x].base;
    if base.Some? {
      UpToIs(w.dst, base.value);
      var kept := UpTo(w.dst, base.value);
      assert Next(w, Receive(x)).dst == kept + [x];
      if kept + [x] == w.dst + [x] {
        assert |kept| == |w.dst|;
        assert kept == w.dst;
      }
    }
  }

  /** Runs one by one, retention at least one: a run's base stays the target's newest until its transfer arrives. */
  ghost predicate Fresh(w: World) {
    forall x :: x in w.runs && w.runs[x].Based? ==> w.runs[x].base == Newest(w.dst)
  }

  lemma FreshStep(w: World, s: Step)
    requires Inv(w) && AllSingle(w) && NewestSpared(w) && Fresh(w) && Enabled(w, s)
    requires (s.Take? ==> w.runs == map[]) && (s.PruneList? ==> s.retain >= 1)
    ensures Fresh(Next(w, s))
    ensures s.Receive? ==> Next(w, s).dst == w.dst + [s.x]
  {
    if s.Receive? {
      ReceiveAppends(w, s.x);
      assert Single(w, s.x);
    } else {
      SparedStep(w, s);
      if s.ListTarget? {
        assert Single(w, s.x) && RunOk(w, s.x);
        NewestIff(w.runs[s.x].seen, w.dst);
      }
    }
  }

  /** What a prune has still to destroy: the oldest of the target, or it will fail at the first. */
  ghost predicate InOrder(w: World, x: Stamp)
    requires x in w.prunes
  {
    var p := w.prunes[x];
    p == [] || p[0] !in w.dst || p <= w.dst
  }

  ghost predicate AllInOrder(w: World) {
    forall x :: x in w.prunes ==> InOrder(w, x) && forall y :: y in w.prunes[x] ==> y !in w.runs && y <= w.clock
  }

  lemma OrderStep(w: World, s: Step)
    requires Inv(w) && AllInOrder(w) && Enabled(w, s) && (s.Receive? ==> Next(w, s).dst == w.dst + [s.x])
    ensures AllInOrder(Next(w, s))
    ensures s.PruneOne? ==> w.dst != [] && Next(w, s).dst == w.dst[1..]
  {
    var u := Next(w, s);
    if s.PruneOne? {
      OldestGoes(w, s.x);
    }
    if s.PruneList? {
      ExcessSpares(w.dst, s.retain);
      assert forall y :: y in w.runs ==> RunOk(w, y);
    }
    forall x | x in u.prunes
      ensures InOrder(u, x)
      ensures forall y :: y in u.prunes[x] ==> y !in u.runs && y <= u.clock
    {
      if s.PruneOne? {
        OrderAfterPrune(w, s.x, x);
      } else {
        assert x in w.prunes ==> InOrder(w, x);
        assert x in w.prunes && w.prunes[x] != [] ==> w.prunes[x][0] in w.prunes[x];
      }
    }
  }

  lemma OldestGoes(w: World, x: Stamp)
    requires Inv(w) && AllInOrder(w) && Enabled(w, PruneOne(x))
    ensures w.prunes[x] <= w.dst && w.dst != [] && Next(w, PruneOne(x)).dst == w.dst[1..]
  {
    assert InOrder(w, x);
    RemoveFirst(w.dst);
  }

  lemma OrderAfterPrune(w: World, p: Stamp, x: Stamp)
    requires Inv(w) && AllInOrder(w) && Enabled(w, PruneOne(p)) && x in w.prunes
    requires w.dst != [] && w.prunes[p] <= w.dst && Next(w, PruneOne(p)).dst == w.dst[1..]
    ensures InOrder(Next(w, PruneOne(p)), x)
    ensures forall y :: y in Next(w, PruneOne(p)).prunes[x] ==> y !in w.runs && y <= w.clock
  {
    var q := w.prunes[x];
    assert InOrder(w, x);
    assert forall y :: y in w.dst[1..] ==> y in w.dst && y != w.dst[0];
    if x == p {
      assert forall y :: y in q[1..] ==> y in q;
      assert q[1..] <= w.dst[1..];
    }
  }

  function Received(steps: seq<Step>): seq<Stamp> {
    if steps == [] then []
    else Received(steps[..|steps| - 1]) + if steps[|steps| - 1].Receive? then [steps[|steps| - 1].x] else []
  }

  function Pruned(steps: seq<Step>): nat {
    if steps == [] then 0
    else Pruned(steps[..|steps| - 1]) + if steps[|steps| - 1].PruneOne? then 1 else 0
  }

  // The state from which runs one by one are followed.
  ghost predicate Calm(w: World) {
    Inv(w) && AllSingle(w) && NewestSpared(w) && Fresh(w) && AllInOrder(w)
  }

  lemma CalmStep(w: World, s: Step)
    requires Calm(w) && Enabled(w, s) && (s.Take? ==> w.runs == map[]) && (s.PruneList? ==> s.retain >= 1)
    ensures Calm(Next(w, s))
    ensures s.Receive? ==> Next(w, s).dst == w.dst + [s.x]
    ensures s.PruneOne? ==> w.dst != [] && Next(w, s).dst == w.dst[1..]
  {
    StepInv(w, s);
    SingleStep(w, s);
    SparedStep(w, s);
    FreshStep(w, s);
    OrderStep(w, s);
  }

  /**
   * Runs one by one, with retention at least one, prunes overlapping later runs and each other: the target holds what
   * arrived, in order, but for what prunes took from its old end. Nothing that arrived is lost in any other way.
   */
  lemma RetainingFront(steps: seq<Step>)
    requires Retaining(steps) && steps != []
    ensures Retaining(steps[..|steps| - 1])
  {
  }

  lemma {:induction false} TargetIsWhatArrived(w: World, steps: seq<Step>)
    requires Calm(w) && Legal(w, steps) && OneByOne(w, steps) && Retaining(steps)
    ensures Calm(After(w, steps))
    ensures Pruned(steps) <= |w.dst + Received(steps)|
    ensures After(w, steps).dst == (w.dst + Received(steps))[Pruned(steps)..]
  {
    if steps == [] {
      assert w.dst + [] == w.dst;
    } else {
      var front, s := steps[..|steps| - 1], steps[|steps| - 1];
      RetainingFront(steps);
      TargetIsWhatArrived(w, front);
      CalmStep(After(w, front), s);
      OneMore(w.dst, Received(front), Pruned(front), s);
    }
  }

  lemma OneMore(dst: seq<Stamp>, arrived: seq<Stamp>, gone: nat, s: Step)
    requires gone <= |dst + arrived|
    ensures s.Receive? ==> (dst + (arrived + [s.x]))[gone..] == (dst + arrived)[gone..] + [s.x]
    ensures gone < |dst + arrived| ==> (dst + arrived)[gone..][1..] == (dst + arrived)[gone + 1..]
    ensures arrived + [] == arrived
  {
  }

  // ---- Two runs in flight ----

  /**
   * Two runs in flight together, from any state in which the target has a snapshot: both choose the same base, and the
   * transfer that arrives later rolls back over the one that arrived before.
   */
  lemma OverlapDestroys(w: World, x: Stamp, y: Stamp) returns (one: seq<Step>, both: seq<Step>)
    requires Inv(w) && w.dst != [] && w.runs == map[] && w.clock < x < y
    ensures one == [] + [Take(x)] + [ListSource(x)] + [ListTarget(x)] + [Take(y)] + [ListSource(y)] + [ListTarget(y)]
      + [Receive(x)] && both == one + [Receive(y)]
    ensures Legal(w, one) && After(w, one).dst == w.dst + [x]
    ensures Legal(w, both) && After(w, both).dst == w.dst + [y]
  {
    var steps, v := TwoInFlight(w, x, y);
    one := Extend(w, steps, Receive(x));
    var u := Next(v, Receive(x));
    FirstArrives(w, v, x, y);
    both := Extend(w, one, Receive(y));
    SecondArrives(w, u, x, y);
  }

  lemma FirstArrives(w: World, v: World, x: Stamp, y: Stamp)
    requires Inv(v) && v.dst == w.dst != [] && x in v.runs && y in v.runs && w.dst[|w.dst| - 1] < x < y
    requires v.runs[x] == v.runs[y] == Based(Newest(w.dst))
    ensures Enabled(v, Receive(x)) && Next(v, Receive(x)).dst == w.dst + [x]
    ensures Enabled(Next(v, Receive(x)), Receive(y))
  {
    ReceiveAppends(v, x);
    assert w.dst[|w.dst| - 1] in w.dst;
  }

  lemma SecondArrives(w: World, u: World, x: Stamp, y: Stamp)
    requires w.dst != [] && u.dst == w.dst + [x] && w.dst[|w.dst| - 1] < x
    requires Enabled(u, Receive(y)) && u.runs[y] == Based(Newest(w.dst))
    ensures Next(u, Receive(y)).dst == w.dst + [y]
  {
    UpToFront(w.dst, x, w.dst[|w.dst| - 1]);
  }

  lemma UpToFront(s: seq<Stamp>, x: Stamp, v: Stamp)
    requires s != [] && s[|s| - 1] == v != x
    ensures UpTo(s + [x], v) == s
  {
    assert (s + [x])[..|s|] == s;
  }

  lemma TwoInFlight(w: World, x: Stamp, y: Stamp) returns (steps: seq<Step>, v: World)
    requires Inv(w) && w.dst != [] && w.runs == map[] && w.clock < x < y
    ensures steps == [] + [Take(x)] + [ListSource(x)] + [ListTarget(x)] + [Take(y)] + [ListSource(y)] + [ListTarget(y)]
    ensures Legal(w, steps) && v == After(w, steps)
    ensures Inv(v) && v.dst == w.dst && x in v.runs && y in v.runs && w.dst[|w.dst| - 1] < x
    ensures v.runs[x] == v.runs[y] == Based(Newest(w.dst))
  {
    assert w.dst[|w.dst| - 1] in w.dst;
    assert w.dst[|w.dst| - 1] in w.src;
    var first, one := Launch(w, [], x);
    steps, v := Launch(w, first, y);
  }

  /** A run up to the choice of its base, after the given steps. */
  lemma Launch(w: World, steps: seq<Step>, x: Stamp) returns (more: seq<Step>, v: World)
    requires Legal(w, steps) && Inv(After(w, steps)) && After(w, steps).clock < x
    ensures more == steps + [Take(x)] + [ListSource(x)] + [ListTarget(x)] && Legal(w, more)
    ensures v == After(w, more) && Inv(v)
    ensures var u := After(w, steps); v.dst == u.dst && v.clock == x && v.runs == u.runs[x := Based(Newest(u.dst))]
  {
    more := Extend(w, steps, Take(x));
    more := Extend(w, more, ListSource(x));
    more := Extend(w, more, ListTarget(x));
    v := After(w, more);
    Launched(After(w, steps), x);
  }

  lemma Launched(u: World, x: Stamp)
    requires Inv(u) && u.clock < x
    ensures var v := Next(Next(Next(u, Take(x)), ListSource(x)), ListTarget(x));
      Inv(v) && v.dst == u.dst && v.clock == x && v.runs == u.runs[x := Based(Newest(u.dst))]
  {
    var a := Next(u, Take(x));
    StepInv(u, Take(x));
    var b := Next(a, ListSource(x));
    StepInv(a, ListSource(x));
    StepInv(b, ListTarget(x));
    BaseAfterListing(a, x);
    Overwrite(u.runs, x, Taken, Listed(a.src), Based(Newest(u.dst)));
  }

  /** With nothing between the two listings the base is the target's newest. */
  lemma BaseAfterListing(a: World, x: Stamp)
    requires Inv(a) && Enabled(a, ListSource(x))
    ensures LastCommon(a.src, a.dst) == Newest(a.dst)
  {
    assert a.dst != [] ==> a.dst[|a.dst| - 1] in a.dst;
    NewestIff(a.src, a.dst);
  }

  lemma Overwrite(m: map<Stamp, Run>, x: Stamp, a: Run, b: Run, c: Run)
    ensures m[x := a][x := b] == m[x := b] && m[x := b][x := c] == m[x := c]
    ensures m[x := a][x := b][x := c] == m[x := c]
  {
  }

  lemma Extend(w: World, steps: seq<Step>, s: Step) returns (more: seq<Step>)
    requires Legal(w, steps) && Enabled(After(w, steps), s)
    ensures more == steps + [s] && Legal(w, more) && After(w, more) == Next(After(w, steps), s)
  {
    more := steps + [s];
    assert more[..|steps|] == steps;
  }
}
