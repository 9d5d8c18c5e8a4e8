/** The create, update and delete handlers on the store and scheduler objects. */
module Handlers {
  import opened Text
  import opened ByTime
  import opened StoreSpec
  import opened RegistrationSpec
  import Cron
  import Store
  import Scheduler

  lemma ParsedIsValid(text: string)
    requires Cron.ParseSpec(text).Parsed?
    ensures Cron.ParseSpec(text).schedule.Valid()
  {
  }

  method ParseSchedule(rules: Rules, text: string) returns (r: Cron.ParseResult)
    requires rules.parse == Cron.ParseSpec
    ensures r == rules.parse(text) && (r.Parsed? ==> r.schedule.Valid())
  {
    r := Cron.Parse(text);
    if r.Parsed? {
      ParsedIsValid(text);
    }
  }

  // The part after the parser, whatever parser that is.
  method RegisterParsed(sched: Scheduler.Scheduler, id: Id, config: Config, r: Cron.ParseResult, ghost rules: Rules)
    returns (ok: bool)
    requires sched.Valid() && config.enabled && r == rules.parse(config.schedule) && (r.Parsed? ==> r.schedule.Valid())
    modifies sched
    ensures sched.Valid()
    ensures var regs := Registered(old(sched.Schedules()), id, config, rules);
      ok == regs.Some? && sched.Schedules() == if regs.Some? then regs.value else old(sched.Schedules())
  {
    if !r.Parsed? {
      return false;
    }
    sched.Register(id, r.schedule);
    return true;
  }

  function IdsIn(list: seq<(Id, Store.TaskValue)>): set<Id> {
    set i | 0 <= i < |list| :: list[i].0
  }

  // The listed tasks are configured as the store has them.
  ghost predicate Configured(list: seq<(Id, Store.TaskValue)>, mem: map<Id, Task>) {
    forall i :: 0 <= i < |list| ==> list[i].0 in mem && mem[list[i].0].config == list[i].1.config
  }

  lemma OneMoreId(list: seq<(Id, Store.TaskValue)>, i: nat)
    requires i < |list|
    ensures IdsIn(list[..i + 1]) == IdsIn(list[..i]) + {list[i].0}
  {
    assert list[..i + 1] == list[..i] + [list[i]];
  }

  class Handlers {
    const store: Store.Store
    const sched: Scheduler.Scheduler
    const rules: Rules

    ghost predicate Valid()
      reads this, store, store.repr, sched
    {
      store.Valid() && sched.Valid() && rules.parse == Cron.ParseSpec
    }

    ghost function State(): System
      reads store, sched
    {
      System(store.State(), sched.Schedules())
    }

    constructor (store: Store.Store, sched: Scheduler.Scheduler, zfsName: string -> bool, remoteSpec: string -> bool)
      requires store.Valid() && sched.Valid()
      ensures Valid() && this.store == store && this.sched == sched && rules == ProgramRules(zfsName, remoteSpec)
    {
      this.store, this.sched, rules := store, sched, ProgramRules(zfsName, remoteSpec);
    }

    /** Registers the task or, if it is disabled, makes sure that it is not registered. */
    method RegisterEnabled(id: Id, config: Config) returns (ok: bool)
      requires Valid()
      modifies sched
      ensures Valid()
      ensures var regs := Registered(old(sched.Schedules()), id, config, rules);
        ok == regs.Some? && sched.Schedules() == if regs.Some? then regs.value else old(sched.Schedules())
    {
      if !config.enabled {
        sched.Unregister(id);
        return true;
      }
      var r := ParseSchedule(rules, config.schedule);
      ok := RegisterParsed(sched, id, config, r, rules);
    }

    /** Registers the listed tasks, each once, as far as they are enabled and parse. */
    method LoadAndRegisterAll()
      requires Valid() && sched.tasks == map[]
      modifies store, sched
      ensures Valid() && State() == Startup(old(store.State()), rules)
    {
      var list := store.List();
      ghost var mem := store.mem;
      ListMatches(list, mem);
      ListedIds(list, mem);
      RegisterAll(list, mem);
    }

    lemma ListMatches(list: seq<(Id, Store.TaskValue)>, mem: map<Id, Task>)
      requires store.Valid() && store.Lists(list) && mem == store.mem
      ensures Configured(list, mem)
    {
      forall i | 0 <= i < |list| ensures list[i].0 in mem && mem[list[i].0].config == list[i].1.config {
        assert store.TaskOk(list[i].0, store.tasks[list[i].0]);
      }
    }

    method RegisterAll(list: seq<(Id, Store.TaskValue)>, ghost mem: map<Id, Task>)
      requires Valid() && Configured(list, mem) && sched.tasks == map[]
      modifies sched
      ensures Valid() && sched.Schedules() == Registrations(mem, IdsIn(list), rules)
    {
      for i := 0 to |list|
        invariant Valid() && sched.Schedules() == Registrations(mem, IdsIn(list[..i]), rules)
      {
        OneMoreId(list, i);
        RegisterListed(list[i].0, list[i].1.config, IdsIn(list[..i]), mem);
      }
      assert list[..|list|] == list;
    }

    method RegisterListed(id: Id, config: Config, ghost ids: set<Id>, ghost mem: map<Id, Task>)
      requires Valid() && id in mem && mem[id].config == config && sched.Schedules() == Registrations(mem, ids, rules)
      modifies sched
      ensures Valid() && sched.Schedules() == Registrations(mem, ids + {id}, rules)
    {
      RegisterOne(mem, ids, id, rules);
      if config.enabled {
        var ok := RegisterEnabled(id, config);
      }
    }

    lemma ListedIds(list: seq<(Id, Store.TaskValue)>, mem: map<Id, Task>)
      requires store.Lists(list) && mem == store.mem && store.tasks.Keys == mem.Keys
      ensures IdsIn(list) == mem.Keys
    {
    }

    method CreateReplication(id: Id, req: Request, now: Time, saved: bool, undone: bool) returns (r: Response)
      requires Valid()
      modifies store, sched
      ensures Valid()
      ensures (State(), r) == Do(old(State()), CreateTask(id, req, now, saved, undone), rules)
      ensures r == Okay && id !in old(store.mem) ==> id in store.mem && CreatedBy(store.mem[id].config, req)
    {
      ghost var call := CreateTask(id, req, now, saved, undone);
      if id !in store.mem {
        CreateLeaves(State(), call, rules);
      }
      var v := Validate(req, true, rules);
      if v != Accepted {
        return Refusal(v);
      }
      r := PersistTask(id, req, now, saved, undone);
    }

    /** The part after validation; a task whose registration fails is deleted again. */
    method PersistTask(id: Id, req: Request, now: Time, saved: bool, undone: bool) returns (r: Response)
      requires Valid()
      modifies store, sched
      ensures Valid()
      ensures (State(), r) == Persist(old(State()), CreateTask(id, req, now, saved, undone), rules)
    {
      var config := Apply(WithDefaults(req), ZERO);
      var stored := store.Create(id, config, now, saved);
      if stored.None? {
        return ServerError;
      }
      var ok := RegisterEnabled(id, config);
      if !ok {
        var deleted := store.Delete(id, undone);
        return BadRequest;
      }
      return Okay;
    }

    method UpdateReplication(id: Id, req: Request, now: Time, saved: bool) returns (r: Response)
      requires Valid()
      modifies store, sched
      ensures Valid()
      ensures (State(), r) == Do(old(State()), UpdateTask(id, req, now, saved), rules)
      ensures r == Okay ==>
        id in old(store.mem) && id in store.mem && ChangedBy(old(store.mem)[id].config, store.mem[id].config, req)
    {
      UpdateLeaves(State(), UpdateTask(id, req, now, saved), rules);
      if id == "" {
        return BadRequest;
      }
      var v := Validate(req, false, rules);
      if v != Accepted {
        return Refusal(v);
      }
      r := ChangeTask(id, req, now, saved);
    }

    method ChangeTask(id: Id, req: Request, now: Time, saved: bool) returns (r: Response)
      requires Valid()
      modifies store, sched
      ensures Valid()
      ensures (State(), r) == Change(old(State()), UpdateTask(id, req, now, saved), rules)
    {
      ghost var before := store.mem;
      var updated := store.Update(id, Mutation(req), now, saved);
      if updated.None? {
        return if id in store.tasks then ServerError else NotFound;
      }
      assert updated.value.config == Apply(req, before[id].config);
      var ok := RegisterEnabled(id, updated.value.config);
      return if ok then Okay else BadRequest;
    }

    method DeleteReplication(id: Id, saved: bool) returns (r: Response)
      requires Valid()
      modifies store, sched
      ensures Valid()
      ensures (State(), r) == Do(old(State()), DeleteTask(id, saved), rules)
    {
      if id == "" {
        return BadRequest;
      }
      sched.Unregister(id);
      var known := id in store.tasks;
      var ok := store.Delete(id, saved);
      return if !known then NotFound else if ok then Okay else ServerError;
    }

    /** A scheduled callback: reads the store anew, and executes exactly if the task is there and enabled. */
    method Fire(id: Id) returns (run: Option<Config>)
      requires Valid()
      modifies store
      ensures Valid() && State() == old(State())
      ensures run == Callback(State(), id)
      ensures run.Some? <==> id in store.mem && store.mem[id].config.enabled
      ensures run.Some? ==> run.value == store.mem[id].config
    {
      var current := store.Get(id);
      if current.None? || !current.value.config.enabled {
        return None;
      }
      return Some(current.value.config);
    }
  }
}
