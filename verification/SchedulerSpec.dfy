/** The scheduler as a state machine: registrations, ticks that fire what is due, and task bodies in flight. */
module SchedulerSpec {
  import opened Text
  import opened Cron
  import opened Filters

  type Id = string

  // A registration; registering an id again makes a new one.
  type Reg = nat

  datatype Registration = Registration(id: Id, schedule: Schedule, running: bool)

  // That the body of a registration was started in the tick of a minute.
  datatype Fired = Fired(reg: Reg, minute: nat)

  datatype State = State(
    tasks: map<Id, Reg>,           // what the scheduler has in its map
    regs: seq<Registration>,       // every registration ever made
    bodies: seq<nat>,              // for each, how many of its bodies are in flight
    due: seq<Reg>,                 // the rest of the pass of the current tick
    minute: nat,                   // of the latest tick
    moment: Option<Moment>,        // and its calendar fields
    fired: seq<Fired>,
    skipped: seq<Fired>            // due, but passed over
  )

  const START := State(map[], [], [], [], 0, None, [], [])

  datatype Step =
    | Register(id: Id, schedule: Schedule)
    | Unregister(id: Id)
    | Collect(minute: nat, moment: Moment, due: seq<Reg>)  // the first half of a tick, under the lock
    | Fire                                                 // the pass comes to the next registration due
    | Finish(reg: Reg)                                     // a body returns

  predicate IsDue(s: State, r: Reg, m: Moment)
    requires m.Valid()
  {
    r < |s.regs| && s.regs[r].schedule.Valid() && s.regs[r].schedule.Matches(m) &&
    s.regs[r].id in s.tasks && s.tasks[s.regs[r].id] == r
  }

  ghost predicate Enabled(s: State, step: Step) {
    match step
    case Register(id, schedule) => id != "" && schedule.Valid()
    case Unregister(id) => true
    case Collect(minute, moment, due) =>
      && s.due == [] && moment.Valid()
      && Distinct(due) && forall r :: r in due <==> IsDue(s, r, moment)
    case Fire => s.due != [] && s.due[0] < |s.regs| == |s.bodies|
    case Finish(r) => r < |s.bodies| == |s.regs| && s.bodies[r] > 0
  }

  function Next(s: State, step: Step): State
    requires Enabled(s, step)
  {
    match step
    case Register(id, schedule) =>
      s.(tasks := s.tasks[id := |s.regs|], regs := s.regs + [Registration(id, schedule, false)],
         bodies := s.bodies + [0])
    case Unregister(id) => s.(tasks := s.tasks - {id})
    case Collect(minute, moment, due) => s.(due := due, minute := minute, moment := Some(moment))
    case Fire =>
      var r := s.due[0];
      if s.regs[r].running then s.(due := s.due[1..], skipped := s.skipped + [Fired(r, s.minute)])
      else s.(due := s.due[1..], regs := s.regs[r := s.regs[r].(running := true)],
              bodies := s.bodies[r := s.bodies[r] + 1], fired := s.fired + [Fired(r, s.minute)])
    case Finish(r) => s.(regs := s.regs[r := s.regs[r].(running := false)], bodies := s.bodies[r := s.bodies[r] - 1])
  }

  ghost predicate Legal(s: State, steps: seq<Step>)
    decreases |steps|, 0
  {
    steps == [] ||
    (Legal(s, steps[..|steps| - 1]) && Enabled(After(s, steps[..|steps| - 1]), steps[|steps| - 1]))
  }

  ghost function After(s: State, steps: seq<Step>): State
    requires Legal(s, steps)
    decreases |steps|, 1
  {
    if steps == [] then s else Next(After(s, steps[..|steps| - 1]), steps[|steps| - 1])
  }

  // ---- The invariant ----

  /** The flag of a registration says whether a body of it is in flight, and there is never a second one. */
  predicate FlagInv(s: State, r: Reg)
    requires r < |s.regs| == |s.bodies|
  {
    s.bodies[r] == if s.regs[r].running then 1 else 0
  }

  ghost predicate Inv(s: State) {
    && |s.regs| == |s.bodies|
    && (forall r :: 0 <= r < |s.regs| ==> FlagInv(s, r) && s.regs[r].schedule.Valid())
    && (forall id :: id in s.tasks ==> s.tasks[id] < |s.regs| && s.regs[s.tasks[id]].id == id)
    && Distinct(s.due) && (forall r :: r in s.due ==> r < |s.regs|)
  }

  lemma FireInv(s: State)
    requires Inv(s) && Enabled(s, Fire)
    ensures Inv(Next(s, Fire))
  {
    var r, rest := s.due[0], s.due[1..];
    assert s.due == [r] + rest;
    assert forall x :: x in rest ==> x in s.due;
    assert r !in rest by { assert forall i :: 0 <= i < |rest| ==> rest[i] == s.due[i + 1]; }
    assert Distinct(rest) by { assert forall i :: 0 <= i < |rest| ==> rest[i] == s.due[i + 1]; }
    assert r in s.due;
    assert FlagInv(s, r);
    var u := Next(s, Fire);
    forall k | 0 <= k < |u.regs| ensures FlagInv(u, k) && u.regs[k].schedule.Valid() {
      assert FlagInv(s, k);
    }
  }

  lemma StepInv(s: State, step: Step)
    requires Inv(s) && Enabled(s, step)
    ensures Inv(Next(s, step))
  {
    var u := Next(s, step);
    if step.Fire? {
      FireInv(s);
    } else {
      forall k | 0 <= k < |u.regs| ensures FlagInv(u, k) && u.regs[k].schedule.Valid() {
        assert k < |s.regs| ==> FlagInv(s, k);
      }
    }
  }

  lemma {:induction false} RunInv(s: State, steps: seq<Step>)
    requires Inv(s) && Legal(s, steps)
    ensures Inv(After(s, steps))
  {
    if steps != [] {
      RunInv(s, steps[..|steps| - 1]);
      StepInv(After(s, steps[..|steps| - 1]), steps[|steps| - 1]);
    }
  }

  /** In every run: one body in flight per registration at most, with the flag set exactly then. */
  lemma NoOverlap(steps: seq<Step>, r: Reg)
    requires Legal(START, steps) && r < |After(START, steps).regs|
    ensures var s := After(START, steps);
      |s.bodies| == |s.regs| && s.bodies[r] <= 1 && (s.regs[r].running <==> s.bodies[r] == 1)
  {
    RunInv(START, steps);
    assert FlagInv(After(START, steps), r);
  }

  // ---- Firing when due ----

  /** What fires was due in this tick; it is passed over exactly when a body of it is still in flight. */
  lemma FiresExactlyWhenIdle(steps: seq<Step>)
    requires Legal(START, steps) && Enabled(After(START, steps), Fire)
    ensures var s := After(START, steps);
      var u := Next(s, Fire);
      var f := Fired(s.due[0], s.minute);
      if s.bodies[s.due[0]] == 0 then u.fired == s.fired + [f] && u.skipped == s.skipped
      else u.fired == s.fired && u.skipped == s.skipped + [f]
  {
    RunInv(START, steps);
    var s := After(START, steps);
    assert FlagInv(s, s.due[0]);
  }

  /** Everything that fires matched the moment of its tick. */
  ghost predicate DueMatch(s: State) {
    s.due == [] || (s.moment.Some? && s.moment.value.Valid() &&
      forall r :: r in s.due ==>
        r < |s.regs| && s.regs[r].schedule.Valid() && s.regs[r].schedule.Matches(s.moment.value))
  }

  lemma {:induction false} DueAlwaysMatch(steps: seq<Step>)
    requires Legal(START, steps)
    ensures DueMatch(After(START, steps))
  {
    if steps != [] {
      var front, last := steps[..|steps| - 1], steps[|steps| - 1];
      DueAlwaysMatch(front);
      var s := After(START, front);
      if last.Fire? {
        assert forall r :: r in s.due[1..] ==> r in s.due;
      }
    }
  }

  /** Dealt with in the pass of this minute: it fired, or a body of it was still in flight. */
  ghost predicate Handled(s: State, r: Reg, minute: nat) {
    Fired(r, minute) in s.fired || Fired(r, minute) in s.skipped
  }

  ghost predicate NoCollect(steps: seq<Step>) {
    forall i :: 0 <= i < |steps| ==> !steps[i].Collect?
  }

  /** Nothing that was due is forgotten: when a pass is over, whatever else happened meanwhile, all is dealt with. */
  lemma {:induction false} PassIsComplete(s: State, minute: nat, moment: Moment, due: seq<Reg>, steps: seq<Step>,
                                          r: Reg)
    requires Enabled(s, Collect(minute, moment, due)) && r in due
    requires Legal(Next(s, Collect(minute, moment, due)), steps) && NoCollect(steps)
    ensures var u := After(Next(s, Collect(minute, moment, due)), steps);
      u.minute == minute && (r in u.due || Handled(u, r, minute)) && (u.due == [] ==> Handled(u, r, minute))
  {
    if steps != [] {
      var front, last := steps[..|steps| - 1], steps[|steps| - 1];
      assert forall i :: 0 <= i < |front| ==> front[i] == steps[i];
      PassIsComplete(s, minute, moment, due, front, r);
      assert last == steps[|steps| - 1] && !last.Collect?;
      var v := After(Next(s, Collect(minute, moment, due)), front);
      if last.Fire? {
        assert v.due == [v.due[0]] + v.due[1..];
        assert Fired(v.due[0], v.minute) in v.fired + [Fired(v.due[0], v.minute)];
        assert Fired(v.due[0], v.minute) in v.skipped + [Fired(v.due[0], v.minute)];
      }
    }
  }

  // ---- A registration lasts ----

  predicate Touches(step: Step, id: Id) {
    (step.Register? || step.Unregister?) && step.id == id
  }

  /** A new registration is the one of its id, idle and with its schedule, and no other id is touched. */
  lemma RegisterTakesEffect(s: State, id: Id, schedule: Schedule)
    requires Inv(s) && Enabled(s, Register(id, schedule))
    ensures var u := Next(s, Register(id, schedule));
      && id in u.tasks && u.tasks[id] == |s.regs| < |u.regs| == |u.bodies|
      && u.regs[u.tasks[id]] == Registration(id, schedule, false) && u.bodies[u.tasks[id]] == 0
      && u.tasks - {id} == s.tasks - {id} && s.regs <= u.regs && s.bodies <= u.bodies
  {
  }

  lemma {:induction false} StaysRegistered(s: State, steps: seq<Step>, id: Id)
    requires Inv(s) && Legal(s, steps) && id in s.tasks
    requires forall i :: 0 <= i < |steps| ==> !Touches(steps[i], id)
    ensures var u := After(s, steps);
      && id in u.tasks && u.tasks[id] == s.tasks[id] < |s.regs| <= |u.regs|
      && u.regs[u.tasks[id]].schedule == s.regs[s.tasks[id]].schedule && u.regs[u.tasks[id]].id == id
  {
    if steps != [] {
      var front, last := steps[..|steps| - 1], steps[|steps| - 1];
      assert forall i :: 0 <= i < |front| ==> front[i] == steps[i];
      StaysRegistered(s, front, id);
    }
  }

  /** Whatever happens to others, a tick passes an id that stays registered exactly if its schedule matches. */
  lemma DueWhileRegistered(s: State, steps: seq<Step>, id: Id, minute: nat, moment: Moment, due: seq<Reg>)
    requires Inv(s) && Legal(s, steps) && id in s.tasks
    requires forall i :: 0 <= i < |steps| ==> !Touches(steps[i], id)
    requires Enabled(After(s, steps), Collect(minute, moment, due))
    ensures s.tasks[id] in due <==> s.regs[s.tasks[id]].schedule.Matches(moment)
  {
    RunInv(s, steps);
    StaysRegistered(s, steps, id);
    assert IsDue(After(s, steps), s.tasks[id], moment) <==> s.regs[s.tasks[id]].schedule.Matches(moment);
  }

  /** An unregistered id is not passed by any tick until it is registered again. */
  lemma {:induction false} StaysUnregistered(s: State, steps: seq<Step>, id: Id)
    requires Inv(s) && Legal(s, steps) && id !in s.tasks
    requires forall i :: 0 <= i < |steps| ==> !(steps[i].Register? && steps[i].id == id)
    ensures id !in After(s, steps).tasks
    ensures id !in Next(s, Unregister(id)).tasks && Next(s, Unregister(id)).tasks == s.tasks
  {
    if steps != [] {
      var front := steps[..|steps| - 1];
      assert forall i :: 0 <= i < |front| ==> front[i] == steps[i];
      StaysUnregistered(s, front, id);
    }
  }

  // ---- The flag belongs to a registration ----

  /** A body of it is in flight, or it is about to be looked at. */
  predicate Active(s: State, r: Reg)
    requires r < |s.regs|
  {
    s.regs[r].running || r in s.due
  }

  ghost predicate Idle(s: State, id: Id) {
    forall r :: 0 <= r < |s.regs| && s.regs[r].id == id ==> !Active(s, r)
  }

  /** An id is registered only while no earlier registration of it is active. */
  ghost predicate Careful(s: State, steps: seq<Step>)
    requires Legal(s, steps)
  {
    steps == [] ||
    var front, last := steps[..|steps| - 1], steps[|steps| - 1];
    Careful(s, front) && (last.Register? ==> Idle(After(s, front), last.id))
  }

  ghost predicate OneActive(s: State, r: Reg, q: Reg)
    requires r < |s.regs| && q < |s.regs|
  {
    r != q && s.regs[r].id == s.regs[q].id && Active(s, r) ==>
      !Active(s, q) && (s.regs[r].id in s.tasks ==> s.tasks[s.regs[r].id] == r)
  }

  /** One registration of an id is active at most, and none that the map has replaced. */
  ghost predicate AllOneActive(s: State) {
    forall r, q :: 0 <= r < |s.regs| && 0 <= q < |s.regs| ==> OneActive(s, r, q)
  }

  lemma OneActiveStep(s: State, step: Step, r: Reg, q: Reg)
    requires Inv(s) && AllOneActive(s) && Enabled(s, step) && (step.Register? ==> Idle(s, step.id))
    requires r < |Next(s, step).regs| && q < |Next(s, step).regs|
    ensures OneActive(Next(s, step), r, q)
  {
    assert r < |s.regs| && q < |s.regs| ==> OneActive(s, r, q) && OneActive(s, q, r);
    if step.Fire? {
      assert s.due[0] in s.due && forall x :: x in s.due[1..] ==> x in s.due;
      assert s.due == [s.due[0]] + s.due[1..];
    } else if step.Register? {
      assert r < |s.regs| && s.regs[r].id == step.id ==> !Active(s, r);
      assert q < |s.regs| && s.regs[q].id == step.id ==> !Active(s, q);
    }
  }

  lemma {:induction false} StayOneActive(s: State, steps: seq<Step>)
    requires Inv(s) && AllOneActive(s) && Legal(s, steps) && Careful(s, steps)
    ensures AllOneActive(After(s, steps))
  {
    if steps != [] {
      var front, last := steps[..|steps| - 1], steps[|steps| - 1];
      StayOneActive(s, front);
      RunInv(s, front);
      var u := After(s, steps);
      forall r, q | 0 <= r < |u.regs| && 0 <= q < |u.regs| ensures OneActive(u, r, q) {
        OneActiveStep(After(s, front), last, r, q);
      }
    }
  }

  /** In every run that registers ids only while they are idle, two bodies of one id are never in flight together. */
  lemma OneBodyPerId(steps: seq<Step>, r: Reg, q: Reg)
    requires Legal(START, steps) && Careful(START, steps)
    requires r < |After(START, steps).regs| && q < |After(START, steps).regs| && r != q
    ensures var s := After(START, steps);
      |s.bodies| == |s.regs| && (s.regs[r].id == s.regs[q].id ==> s.bodies[r] == 0 || s.bodies[q] == 0)
  {
    RunInv(START, steps);
    StayOneActive(START, steps);
    var s := After(START, steps);
    assert OneActive(s, r, q) && FlagInv(s, r) && FlagInv(s, q);
  }

  ghost predicate TwoBodies(s: State, id: Id) {
    exists r, q :: 0 <= r < q < |s.bodies| && |s.bodies| == |s.regs| && BothRun(s, id, r, q)
  }

  ghost predicate BothRun(s: State, id: Id, r: Reg, q: Reg)
    requires r < |s.bodies| == |s.regs| && q < |s.bodies|
  {
    s.regs[r].id == s.regs[q].id == id && s.bodies[r] > 0 && s.bodies[q] > 0
  }

  /** A fire brings a second body of an id exactly if it starts one while another registration of the id is running. */
  lemma SecondBodyIff(steps: seq<Step>)
    requires Legal(START, steps) && Enabled(After(START, steps), Fire)
    requires var s := After(START, steps); !TwoBodies(s, s.regs[s.due[0]].id)
    ensures var s := After(START, steps);
      var r := s.due[0];
      TwoBodies(Next(s, Fire), s.regs[r].id) <==>
        && !s.regs[r].running
        && exists q :: 0 <= q < |s.regs| && q != r && s.regs[q].id == s.regs[r].id && s.regs[q].running
  {
    RunInv(START, steps);
    var s := After(START, steps);
    var r, u := s.due[0], Next(s, Fire);
    var id := s.regs[r].id;
    assert FlagInv(s, r);
    if TwoBodies(u, id) {
      var a, b :| 0 <= a < b < |u.bodies| && BothRun(u, id, a, b);
      assert !BothRun(s, id, a, b);
      var q := if a == r then b else a;
      assert FlagInv(s, q) && s.regs[q].id == id;
      assert FlagInv(s, a) && FlagInv(s, b);
    }
    if q :| 0 <= q < |s.regs| && q != r && s.regs[q].id == id && s.regs[q].running && !s.regs[r].running {
      assert FlagInv(s, q);
      var a, b := if q < r then q else r, if q < r then r else q;
      assert BothRun(u, id, a, b);
    }
  }

  // The whole rest of a pass, without interference.
  function Pass(n: nat): seq<Step> {
    seq(n, _ => Fire)
  }

  /** u is s after n fires: what was due is running, and what was running still is. */
  ghost predicate Fires(s: State, u: State, n: nat)
    requires n <= |s.due|
  {
    && u.due == s.due[n..] && |u.regs| == |s.regs| && u.minute == s.minute && u.tasks == s.tasks
    && forall r :: 0 <= r < |s.regs| ==> u.regs[r] == s.regs[r].(running := s.regs[r].running || r in s.due[..n])
  }

  lemma OneMoreFire(s: State, v: State, n: nat)
    requires n < |s.due| && Fires(s, v, n) && Inv(v)
    ensures Enabled(v, Fire) && Fires(s, Next(v, Fire), n + 1) && Inv(Next(v, Fire))
  {
    assert v.due[0] == s.due[n] && v.due[0] in v.due;
    StepInv(v, Fire);
    assert s.due[..n + 1] == s.due[..n] + [s.due[n]];
    assert v.due[1..] == s.due[n + 1..];
  }

  lemma NoFire(s: State)
    ensures Pass(0) == [] && Fires(s, s, 0)
  {
    assert s.due[0..] == s.due && s.due[..0] == [];
  }

  lemma PassSnoc(s: State, n: nat)
    requires n > 0 && Legal(s, Pass(n - 1)) && Enabled(After(s, Pass(n - 1)), Fire)
    ensures Legal(s, Pass(n)) && After(s, Pass(n)) == Next(After(s, Pass(n - 1)), Fire)
  {
    assert Pass(n)[..n - 1] == Pass(n - 1) && Pass(n)[n - 1] == Fire;
  }

  // Where n fires of the pass lead.
  ghost predicate Reaches(s: State, n: nat)
    requires n <= |s.due|
  {
    Legal(s, Pass(n)) && Inv(After(s, Pass(n))) && Fires(s, After(s, Pass(n)), n)
  }

  lemma OneMoreRuns(s: State, n: nat)
    requires n < |s.due| && Reaches(s, n)
    ensures Reaches(s, n + 1)
  {
    OneMoreFire(s, After(s, Pass(n)), n);
    PassSnoc(s, n + 1);
  }

  lemma {:induction false} PassRuns(s: State, n: nat)
    requires Inv(s) && n <= |s.due|
    ensures Legal(s, Pass(n)) && Inv(After(s, Pass(n))) && Fires(s, After(s, Pass(n)), n)
    ensures Reaches(s, n)
  {
    if n == 0 {
      NoFire(s);
    } else {
      PassRuns(s, n - 1);
      OneMoreRuns(s, n - 1);
    }
  }

  /**
   * Conversely, registering an id while any registration q of it is active, running or still waiting in the pass: once
   * the pass is over, the next tick at which the new registration is due leaves two bodies of the id in flight, if q's
   * has not returned.
   */
  lemma ReRegistrationOverlaps(s: State, id: Id, schedule: Schedule, q: Reg, minute: nat, moment: Moment, due: seq<Reg>)
    requires Inv(s) && Enabled(s, Register(id, schedule)) && q < |s.regs| && s.regs[q].id == id && Active(s, q)
    ensures var a := Next(s, Register(id, schedule));
      Inv(a) && Legal(a, Pass(|a.due|))
    ensures var a := Next(s, Register(id, schedule));
      var b := After(a, Pass(|a.due|));
      Enabled(b, Collect(minute, moment, due)) && |s.regs| in due ==>
        var c := Next(b, Collect(minute, moment, due));
        Legal(c, Pass(|due|)) && TwoBodies(After(c, Pass(|due|)), id)
  {
    var a := Next(s, Register(id, schedule));
    StepInv(s, Register(id, schedule));
    PassRuns(a, |a.due|);
    var b := After(a, Pass(|a.due|));
    assert a.due[..|a.due|] == a.due;
    assert b.regs[q].running && b.regs[q].id == id;
    if Enabled(b, Collect(minute, moment, due)) && |s.regs| in due {
      StepInv(b, Collect(minute, moment, due));
      var c := Next(b, Collect(minute, moment, due));
      PassRuns(c, |due|);
      assert due[..|due|] == due;
      var u := After(c, Pass(|due|));
      assert u.regs[q].running && u.regs[|s.regs|].running;
      assert FlagInv(u, q) && FlagInv(u, |s.regs|);
      assert BothRun(u, id, q, |s.regs|);
    }
  }

  // ---- The tick loop ----

  // A wall-clock time in nanoseconds.
  type Instant = nat

  const MINUTE := 60_000_000_000

  function MinuteOf(t: Instant): nat {
    t / MINUTE
  }

  /** The start of the next minute. */
  function NextMinute(t: Instant): Instant {
    (t / MINUTE) * MINUTE + MINUTE
  }

  // The readings of the clock around one tick: when the timer has fired, and when the pass is over.
  datatype Round = Round(fired: Instant, over: Instant)

  /** The clock is monotone and no timer fires early. */
  ghost predicate Timely(start: Instant, rounds: seq<Round>) {
    rounds == [] ||
    var n := |rounds| - 1;
    && Timely(start, rounds[..n])
    && rounds[n].fired >= NextMinute(Before(start, rounds[..n]))
    && rounds[n].over >= rounds[n].fired
  }

  // The reading from which the next timer is computed.
  function Before(start: Instant, rounds: seq<Round>): Instant {
    if rounds == [] then start else rounds[|rounds| - 1].over
  }

  lemma NextIsLater(t: Instant, u: Instant)
    requires u >= NextMinute(t)
    ensures MinuteOf(u) >= MinuteOf(t) + 1
    ensures 0 < NextMinute(t) - t <= MINUTE && MinuteOf(NextMinute(t)) == MinuteOf(t) + 1
  {
    var m := t / MINUTE;
    assert m * MINUTE <= t < m * MINUTE + MINUTE;
    assert (m + 1) * MINUTE == m * MINUTE + MINUTE;
    MinuteBounds(u, m + 1);
    MinuteBounds(NextMinute(t), m + 1);
  }

  /** Minutes are those of the clock: sixty seconds of a thousand million nanoseconds. */
  lemma SixtySeconds(t: Instant)
    ensures MinuteOf(t + 60 * 1_000_000_000) == MinuteOf(t) + 1 && MinuteOf(0) == 0
  {
  }

  lemma MinuteBounds(u: Instant, m: nat)
    requires u >= m * MINUTE
    ensures MinuteOf(u) >= m
    ensures u < m * MINUTE + MINUTE ==> MinuteOf(u) == m
  {
  }

  lemma SameOrLater(t: Instant, u: Instant)
    requires t <= u
    ensures MinuteOf(t) <= MinuteOf(u)
  {
  }

  /** Ticks are in strictly increasing minutes. */
  lemma {:induction false} TicksIncrease(start: Instant, rounds: seq<Round>, i: nat, j: nat)
    requires Timely(start, rounds) && i < j < |rounds|
    ensures MinuteOf(rounds[i].fired) < MinuteOf(rounds[j].fired)
  {
    var n := |rounds| - 1;
    if j < n {
      TicksIncrease(start, rounds[..n], i, j);
    } else {
      var last := rounds[n - 1];
      assert rounds[..n][n - 1] == last;
      SameOrLater(last.fired, last.over);
      NextIsLater(last.over, rounds[n].fired);
      if i < n - 1 {
        TicksIncrease(start, rounds[..n], i, n - 1);
      }
    }
  }

  /** Two ticks in succession are in successive minutes exactly when the pass and the timer stayed within theirs. */
  lemma NoMinuteSkipped(start: Instant, rounds: seq<Round>, k: nat)
    requires Timely(start, rounds) && k + 1 < |rounds|
    ensures MinuteOf(rounds[k + 1].fired) == MinuteOf(rounds[k].fired) + 1 <==>
      MinuteOf(rounds[k].over) == MinuteOf(rounds[k].fired) && rounds[k + 1].fired - NextMinute(rounds[k].over) < MINUTE
  {
    TimelyPrefix(start, rounds, k + 2);
    var p := rounds[..k + 2];
    assert p[..k + 1][k] == rounds[k];
    var a, b, c := rounds[k].fired, rounds[k].over, rounds[k + 1].fired;
    TimelyPrefix(start, rounds, k + 1);
    assert rounds[..k + 1][..k] == rounds[..k];
    SameOrLater(a, b);
    NextIsLater(b, c);
    var m := b / MINUTE;
    assert NextMinute(b) == (m + 1) * MINUTE;
    MinuteBounds(c, m + 1);
    if MinuteOf(c) == m + 1 {
      assert c < (m + 1) * MINUTE + MINUTE;
    }
  }

  lemma {:induction false} TimelyPrefix(start: Instant, rounds: seq<Round>, n: nat)
    requires Timely(start, rounds) && n <= |rounds|
    ensures Timely(start, rounds[..n])
  {
    if n < |rounds| {
      TimelyPrefix(start, rounds[..|rounds| - 1], n);
      assert rounds[..|rounds| - 1][..n] == rounds[..n];
    } else {
      assert rounds[..n] == rounds;
    }
  }

  // ---- Runs under the clock ----

  // The ticks of a run.
  function Ticks(steps: seq<Step>): seq<Step> {
    if steps == [] then []
    else
      Ticks(steps[..|steps| - 1]) + if steps[|steps| - 1].Collect? then [steps[|steps| - 1]] else []
  }

  /** The k-th tick of the run is that of the k-th round of the clock. */
  ghost predicate Driven(steps: seq<Step>, rounds: seq<Round>, cal: nat -> Moment) {
    && |Ticks(steps)| <= |rounds|
    && forall k :: 0 <= k < |Ticks(steps)| ==> IsTick(Ticks(steps)[k], MinuteOf(rounds[k].fired), cal)
  }

  predicate IsTick(step: Step, minute: nat, cal: nat -> Moment) {
    step.Collect? && step.minute == minute && step.moment == cal(minute)
  }

  lemma DrivenFront(steps: seq<Step>, rounds: seq<Round>, cal: nat -> Moment)
    requires steps != [] && Driven(steps, rounds, cal)
    ensures Driven(steps[..|steps| - 1], rounds, cal)
  {
    var front := steps[..|steps| - 1];
    forall k | 0 <= k < |Ticks(front)| ensures IsTick(Ticks(front)[k], MinuteOf(rounds[k].fired), cal) {
      assert Ticks(steps)[k] == Ticks(front)[k];
    }
  }

  // The minute of the latest of the first n ticks.
  function LatestMinute(rounds: seq<Round>, n: nat): nat
    requires n <= |rounds|
  {
    if n == 0 then 0 else MinuteOf(rounds[n - 1].fired)
  }

  lemma NextTickIsLater(start: Instant, rounds: seq<Round>, n: nat)
    requires Timely(start, rounds) && n < |rounds|
    ensures MinuteOf(rounds[n].fired) > LatestMinute(rounds, n)
  {
    if n == 0 {
      TimelyPrefix(start, rounds, 1);
      assert rounds[..1][..0] == [];
      NextIsLater(start, rounds[0].fired);
    } else {
      TicksIncrease(start, rounds, n - 1, n);
    }
  }

  /** What was fired is not due any more in this minute, and was never fired twice in one. */
  ghost predicate Once(s: State) {
    && Distinct(s.fired)
    && (forall r :: r in s.due ==> Fired(r, s.minute) !in s.fired)
    && (forall f :: f in s.fired ==> f.minute <= s.minute)
  }

  lemma FireOnce(s: State)
    requires Inv(s) && Once(s) && Enabled(s, Fire)
    ensures Once(Next(s, Fire))
  {
    var r, rest := s.due[0], s.due[1..];
    assert s.due == [r] + rest;
    assert r !in rest by { assert forall i :: 0 <= i < |rest| ==> rest[i] == s.due[i + 1]; }
    assert r in s.due && forall x :: x in rest ==> x in s.due;
  }

  ghost predicate AtMoment(s: State, cal: nat -> Moment) {
    s.due != [] ==> s.moment == Some(cal(s.minute))
  }

  lemma StepOnce(s: State, step: Step, cal: nat -> Moment)
    requires Inv(s) && Once(s) && AtMoment(s, cal) && Enabled(s, step)
    requires step.Collect? ==> step.minute > s.minute && step.moment == cal(step.minute)
    ensures var u := Next(s, step);
      Once(u) && AtMoment(u, cal) && u.minute == if step.Collect? then step.minute else s.minute
  {
    if step.Fire? {
      FireOnce(s);
    }
  }

  lemma {:induction false} DrivenRun(start: Instant, rounds: seq<Round>, cal: nat -> Moment, steps: seq<Step>)
    requires Timely(start, rounds) && Legal(START, steps) && Driven(steps, rounds, cal)
    ensures var s := After(START, steps);
      Once(s) && AtMoment(s, cal) && s.minute == LatestMinute(rounds, |Ticks(steps)|)
  {
    if steps != [] {
      var front, last := steps[..|steps| - 1], steps[|steps| - 1];
      DrivenFront(steps, rounds, cal);
      DrivenRun(start, rounds, cal, front);
      RunInv(START, front);
      if last.Collect? {
        var n := |Ticks(front)|;
        assert IsTick(Ticks(steps)[n], MinuteOf(rounds[n].fired), cal);
        NextTickIsLater(start, rounds, n);
      }
      StepOnce(After(START, front), last, cal);
    }
  }

  /**
   * With a monotone clock and timers that are never early, whatever is registered, unregistered or finished meanwhile:
   * a registration fires at most once in a minute of the calendar.
   */
  lemma FiresOncePerMinute(start: Instant, rounds: seq<Round>, cal: nat -> Moment, steps: seq<Step>, i: nat, j: nat)
    requires Timely(start, rounds) && Legal(START, steps) && Driven(steps, rounds, cal)
    requires i < j < |After(START, steps).fired|
    ensures var f := After(START, steps).fired; f[i].reg != f[j].reg || f[i].minute != f[j].minute
  {
    DrivenRun(start, rounds, cal, steps);
  }

  /** The schedule of a registration matches a minute, as the calendar has it. */
  predicate OnSchedule(s: State, f: Fired, cal: nat -> Moment) {
    f.reg < |s.regs| && s.regs[f.reg].schedule.Valid() && cal(f.minute).Valid() &&
    s.regs[f.reg].schedule.Matches(cal(f.minute))
  }

  lemma StepOnSchedule(s: State, step: Step, f: Fired, cal: nat -> Moment)
    requires Inv(s) && DueMatch(s) && AtMoment(s, cal) && Enabled(s, step) && f in Next(s, step).fired
    requires f in s.fired ==> OnSchedule(s, f, cal)
    ensures OnSchedule(Next(s, step), f, cal)
  {
    if f !in s.fired {
      assert f == Fired(s.due[0], s.minute) && s.due[0] in s.due;
    }
  }

  /** And it fires only in minutes that its schedule matches. */
  lemma {:induction false} FiresOnSchedule(start: Instant, rounds: seq<Round>, cal: nat -> Moment, steps: seq<Step>,
                                           f: Fired)
    requires Timely(start, rounds) && Legal(START, steps) && Driven(steps, rounds, cal)
    requires f in After(START, steps).fired
    ensures OnSchedule(After(START, steps), f, cal)
  {
    var front, last := steps[..|steps| - 1], steps[|steps| - 1];
    DrivenFront(steps, rounds, cal);
    DrivenRun(start, rounds, cal, front);
    DueAlwaysMatch(front);
    RunInv(START, front);
    if f in After(START, front).fired {
      FiresOnSchedule(start, rounds, cal, front, f);
    }
    StepOnSchedule(After(START, front), last, f, cal);
  }
}
