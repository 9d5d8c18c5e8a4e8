/** The scheduler object and its tick loop. */
module Scheduler {
  import opened Text
  import opened Cron
  import opened Filters
  import opened SchedulerSpec

  class Registered {
    const id: Id
    const schedule: Schedule
    var running: bool

    constructor (id: Id, schedule: Schedule)
      ensures this.id == id && this.schedule == schedule && !running
    {
      this.id, this.schedule, running := id, schedule, false;
    }

    /** The atomic test and set that guards a body. */
    method CompareAndSwap() returns (swapped: bool)
      modifies this
      ensures swapped == !old(running) && running
    {
      swapped := !running;
      running := true;
    }
  }

  class Scheduler {
    var tasks: map<Id, Registered>

    ghost predicate Valid()
      reads this
    {
      forall id :: id in tasks ==> tasks[id].id == id && tasks[id].schedule.Valid()
    }

    /** The ids registered now, with their schedules. */
    ghost function Schedules(): map<Id, Schedule>
      reads this
    {
      map id | id in tasks :: tasks[id].schedule
    }

    constructor ()
      ensures Valid() && tasks == map[]
    {
      tasks := map[];
    }

    /** Adds a registration, or replaces that of the same id by a fresh one that is not running. */
    method Register(id: Id, schedule: Schedule)
      requires Valid() && schedule.Valid()
      modifies this
      ensures Valid()
      ensures id == "" ==> tasks == old(tasks)
      ensures id != "" ==> id in tasks && fresh(tasks[id]) && tasks[id].schedule == schedule && !tasks[id].running
      ensures id != "" ==> tasks == old(tasks)[id := tasks[id]]
      ensures Schedules() == if id == "" then old(Schedules()) else old(Schedules())[id := schedule]
    {
      if id == "" {
        return;
      }
      var r := new Registered(id, schedule);
      tasks := tasks[id := r];
    }

    method Unregister(id: Id)
      requires Valid()
      modifies this
      ensures Valid() && tasks == old(tasks) - {id} && Schedules() == old(Schedules()) - {id}
    {
      tasks := tasks - {id};
    }

    predicate Due(t: Registered, m: Moment)
      requires Valid() && m.Valid()
      reads this
    {
      t.id in tasks && tasks[t.id] == t && t.schedule.Matches(m)
    }

    /** What has been collected outside `rest`, each registration once. */
    ghost predicate Collected(due: seq<Registered>, m: Moment, rest: set<Id>)
      requires Valid() && m.Valid()
      reads this
    {
      && (forall i :: 0 <= i < |due| ==> Due(due[i], m) && due[i].id !in rest)
      && (forall i, j :: 0 <= i < j < |due| ==> due[i] != due[j])
      && (forall id :: id in tasks && id !in rest && Due(tasks[id], m) ==> tasks[id] in due)
    }

    /** The registrations whose schedule matches, in map order. */
    method CollectDue(m: Moment) returns (due: seq<Registered>)
      requires Valid() && m.Valid()
      ensures Collected(due, m, {})
    {
      var rest := tasks.Keys;
      due := [];
      while rest != {}
        invariant rest <= tasks.Keys && Collected(due, m, rest)
        decreases |rest|
      {
        var id :| id in rest;
        var t := tasks[id];
        ghost var before := due;
        if t.schedule.Matches(m) {
          due := due + [t];
        }
        rest := rest - {id};
      }
    }

    /**
     * One tick without interference: a body is started for exactly those registrations that match and are idle, and
     * nothing else changes.
     */
    method Tick(m: Moment) returns (started: seq<Registered>)
      requires Valid() && m.Valid()
      modifies tasks.Values
      ensures Valid() && tasks == old(tasks)
      ensures forall id :: id in tasks ==> (tasks[id] in started <==> Due(tasks[id], m) && !old(tasks[id].running))
      ensures forall t :: t in started ==> t.id in tasks && tasks[t.id] == t
      ensures forall i, j :: 0 <= i < j < |started| ==> started[i] != started[j]
      ensures forall id :: id in tasks ==> tasks[id].running == (old(tasks[id].running) || Due(tasks[id], m))
    {
      var due := CollectDue(m);
      started := [];
      for i := 0 to |due|
        invariant forall t :: t in started ==> t in due[..i] && !old(t.running)
        invariant forall k :: 0 <= k < i && !old(due[k].running) ==> due[k] in started
        invariant forall a, b :: 0 <= a < b < |started| ==> started[a] != started[b]
        invariant forall id :: id in tasks ==> tasks[id].running == (old(tasks[id].running) || tasks[id] in due[..i])
      {
        var t := due[i];
        assert Due(t, m);
        assert due[..i + 1] == due[..i] + [t];
        assert t !in due[..i];
        var swapped := t.CompareAndSwap();
        if swapped {
          started := started + [t];
        }
      }
      assert due[..|due|] == due;
      forall id | id in tasks ensures tasks[id] in due <==> Due(tasks[id], m) {
        if tasks[id] in due {
          var k :| 0 <= k < |due| && due[k] == tasks[id];
          assert Due(due[k], m);
        }
      }
    }
  }

  // ---- The tick loop ----

  /**
   * The loop over the readings of the clock: each timer is set to the start of the next minute, and each tick gets the
   * time read after its timer has fired.
   */
  method Run(start: Instant, rounds: seq<Round>) returns (timers: seq<nat>, ticks: seq<Instant>)
    requires Timely(start, rounds)
    ensures |timers| == |rounds| + 1 && |ticks| == |rounds|
    ensures forall k :: 0 <= k < |ticks| ==> ticks[k] == rounds[k].fired
    ensures forall k :: 0 <= k < |timers| ==> 0 < timers[k] <= MINUTE
    ensures forall k :: 0 <= k < |ticks| ==> SetForNextMinute(Before(start, rounds[..k]), timers[k])
    ensures forall i, j :: 0 <= i < j < |ticks| ==> MinuteOf(ticks[i]) < MinuteOf(ticks[j])
  {
    var now := start;
    var next := NextMinute(now);
    NextIsLater(now, next);
    timers, ticks := [next - now], [];
    for i := 0 to |rounds|
      invariant now == Before(start, rounds[..i])
      invariant |timers| == i + 1 && |ticks| == i
      invariant forall k :: 0 <= k < i ==> ticks[k] == rounds[k].fired
      invariant forall k :: 0 <= k <= i ==>
        0 < timers[k] <= MINUTE && SetForNextMinute(Before(start, rounds[..k]), timers[k])
    {
      ticks := ticks + [rounds[i].fired];
      now := rounds[i].over;
      next := NextMinute(now);
      NextIsLater(now, next);
      assert rounds[..i + 1][i] == rounds[i];
      timers := timers + [next - now];
    }
    forall i, j | 0 <= i < j < |ticks| ensures MinuteOf(ticks[i]) < MinuteOf(ticks[j]) {
      TicksIncrease(start, rounds, i, j);
    }
  }

  predicate SetForNextMinute(now: Instant, timer: nat) {
    (now + timer) % MINUTE == 0 && MinuteOf(now + timer) == MinuteOf(now) + 1
  }
}
