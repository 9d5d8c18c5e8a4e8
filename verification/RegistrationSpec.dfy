/** The replication request handlers: how the task store and the scheduler are kept in step. */
module RegistrationSpec {
  import opened Text
  import opened ByTime
  import opened StoreSpec
  import Cron

  // The body of a create or update request; absent fields are not set.
  datatype Request = Request(name: Option<string>, source: Option<string>, target: Option<string>,
                             remote: Option<string>, schedule: Option<string>, retention: Option<int>,
                             raw: Option<bool>, recursive: Option<bool>,
                             enabled: Option<bool>)

  datatype Label = NAME | SOURCE | TARGET | REMOTE | SCHEDULE | RETENTION

  datatype Verdict = Accepted | Required(field: Label) | Invalid(field: Label) | Crashed

  // The name patterns, which are not part of this model, and the schedule parser.
  datatype Rules = Rules(zfsName: string -> bool, remoteSpec: string -> bool, parse: string -> Cron.ParseResult)

  function ProgramRules(zfsName: string -> bool, remoteSpec: string -> bool): Rules {
    Rules(zfsName, remoteSpec, Cron.ParseSpec)
  }

  function Check(field: Label, value: Option<string>, required: bool, creating: bool, valid: string -> bool): Verdict {
    match value
    case None => if creating && required then Required(field) else Accepted
    case Some(v) =>
      if v == "" then if required then Required(field) else Accepted
      else if valid(v) then Accepted
      else Invalid(field)
  }

  function CheckSchedule(value: Option<string>, creating: bool, rules: Rules): Verdict {
    match value
    case None => if creating then Required(SCHEDULE) else Accepted
    case Some(v) =>
      if v == "" then Required(SCHEDULE)
      else
        match rules.parse(v)
        case Parsed(_) => Accepted
        case Rejected => Invalid(SCHEDULE)
        case Panicked => Crashed
  }

  function Validate(req: Request, creating: bool, rules: Rules): Verdict {
    var source := Check(SOURCE, req.source, true, creating, rules.zfsName);
    var target := Check(TARGET, req.target, true, creating, v => rules.zfsName(v) && '/' in v);
    var remote := Check(REMOTE, req.remote, false, creating, rules.remoteSpec);
    var schedule := CheckSchedule(req.schedule, creating, rules);
    if source != Accepted then source
    else if target != Accepted then target
    else if remote != Accepted then remote
    else if schedule != Accepted then schedule
    else if req.name == Some("") then Invalid(NAME)
    else if creating && req.name == None then Required(NAME)
    else if req.retention.Some? && req.retention.value < 0 then Invalid(RETENTION)
    else Accepted
  }

  function Or<T>(value: Option<T>, default: T): T {
    if value.Some? then value.value else default
  }

  function Apply(req: Request, c: Config): Config {
    Config(Or(req.name, c.name), Or(req.source, c.source), Or(req.target, c.target), Or(req.remote, c.remote),
           Or(req.schedule, c.schedule), Or(req.retention, c.retention), Or(req.raw, c.raw),
           Or(req.recursive, c.recursive), Or(req.enabled, c.enabled))
  }

  const ZERO := Config("", "", "", "", "", 0, false, false, false)

  // A new task is enabled and keeps seven snapshots unless the request says otherwise.
  function WithDefaults(req: Request): Request {
    req.(enabled := Some(Or(req.enabled, true)), retention := Some(Or(req.retention, 7)))
  }

  // A field that may be left out unless it is required, and otherwise passes its check.
  predicate FieldOk(value: Option<string>, required: bool, creating: bool, valid: string -> bool) {
    if value.None? then !(creating && required) else if value.value == "" then !required else valid(value.value)
  }

  /** The checks let a request pass exactly when every field does, in whatever order they are made. */
  lemma AcceptedIff(req: Request, creating: bool, rules: Rules)
    ensures Validate(req, creating, rules) == Accepted <==>
      && FieldOk(req.source, true, creating, rules.zfsName)
      && FieldOk(req.target, true, creating, v => rules.zfsName(v) && '/' in v)
      && FieldOk(req.remote, false, creating, rules.remoteSpec)
      && FieldOk(req.schedule, true, creating, v => rules.parse(v).Parsed?)
      && FieldOk(req.name, true, creating, _ => true)
      && (req.retention.Some? ==> req.retention.value >= 0)
  {
  }

  // A required field that is left out of a create, or empty.
  predicate Missing(value: Option<string>, creating: bool) {
    if value.None? then creating else value.value == ""
  }

  predicate SourceOk(req: Request, creating: bool, rules: Rules) {
    FieldOk(req.source, true, creating, rules.zfsName)
  }

  predicate TargetOk(req: Request, creating: bool, rules: Rules) {
    FieldOk(req.target, true, creating, v => rules.zfsName(v) && '/' in v)
  }

  predicate RemoteOk(req: Request, creating: bool, rules: Rules) {
    FieldOk(req.remote, false, creating, rules.remoteSpec)
  }

  predicate ScheduleOk(req: Request, creating: bool, rules: Rules) {
    FieldOk(req.schedule, true, creating, v => rules.parse(v).Parsed?)
  }

  /** Why a request is refused: the first field that is wrong, in this order, and in what way. */
  lemma RefusedFor(req: Request, creating: bool, rules: Rules)
    ensures var v := Validate(req, creating, rules);
      && (v == Required(SOURCE) <==> Missing(req.source, creating))
      && (v == Invalid(SOURCE) <==> !SourceOk(req, creating, rules) && !Missing(req.source, creating))
      && (v == Required(TARGET) <==> SourceOk(req, creating, rules) && Missing(req.target, creating))
      && (v == Invalid(TARGET) <==>
           SourceOk(req, creating, rules) && !TargetOk(req, creating, rules) && !Missing(req.target, creating))
      && (v == Invalid(REMOTE) <==>
           SourceOk(req, creating, rules) && TargetOk(req, creating, rules) && !RemoteOk(req, creating, rules))
  {
  }

  lemma RefusedForSchedule(req: Request, creating: bool, rules: Rules)
    ensures var v := Validate(req, creating, rules);
      var before := SourceOk(req, creating, rules) && TargetOk(req, creating, rules) && RemoteOk(req, creating, rules);
      && (v == Required(SCHEDULE) <==> before && Missing(req.schedule, creating))
      && (v == Invalid(SCHEDULE) <==>
           && before && !Missing(req.schedule, creating)
           && req.schedule.Some? && rules.parse(req.schedule.value).Rejected?)
      && (v == Crashed <==>
           && before && !Missing(req.schedule, creating)
           && req.schedule.Some? && rules.parse(req.schedule.value).Panicked?)
      && (v == Invalid(NAME) <==> before && ScheduleOk(req, creating, rules) && req.name == Some(""))
      && (v == Required(NAME) <==> before && ScheduleOk(req, creating, rules) && creating && req.name == None)
  {
  }

  /** What an accepted create request guarantees about the task it makes. */
  lemma AcceptedCreate(req: Request, rules: Rules)
    requires Validate(req, true, rules) == Accepted
    ensures var c := Apply(WithDefaults(req), ZERO);
      && c.name != "" && rules.zfsName(c.source) && rules.zfsName(c.target) && '/' in c.target
      && (c.remote == "" || rules.remoteSpec(c.remote)) && rules.parse(c.schedule).Parsed? && c.retention >= 0
      && (req.enabled == None ==> c.enabled)
  {
  }

  // A field has the value that was asked for, or else another.
  predicate Takes<T(==)>(field: T, asked: Option<T>, otherwise: T) {
    && (asked.Some? ==> field == asked.value)
    && (asked.None? ==> field == otherwise)
  }

  /** A new task is configured as requested, with the defaults for what was left out. */
  predicate CreatedBy(c: Config, req: Request) {
    && Some(c.name) == req.name && Some(c.source) == req.source && Some(c.target) == req.target
    && Some(c.schedule) == req.schedule
    && Takes(c.remote, req.remote, "") && Takes(c.retention, req.retention, 7)
    && Takes(c.raw, req.raw, false) && Takes(c.recursive, req.recursive, false) && Takes(c.enabled, req.enabled, true)
  }

  /** A task is changed where the request says so, and nowhere else. */
  predicate ChangedBy(was: Config, c: Config, req: Request) {
    && Takes(c.name, req.name, was.name) && Takes(c.source, req.source, was.source)
    && Takes(c.target, req.target, was.target) && Takes(c.remote, req.remote, was.remote)
    && Takes(c.schedule, req.schedule, was.schedule) && Takes(c.retention, req.retention, was.retention)
    && Takes(c.raw, req.raw, was.raw) && Takes(c.recursive, req.recursive, was.recursive)
    && Takes(c.enabled, req.enabled, was.enabled)
  }

  // ---- The store together with the registrations ----

  datatype System = System(disk: Disk, regs: map<Id, Cron.Schedule>)

  /** RegisterEnabled: None when the schedule does not parse. */
  function Registered(regs: map<Id, Cron.Schedule>, id: Id, c: Config, rules: Rules): Option<map<Id, Cron.Schedule>> {
    if !c.enabled then Some(regs - {id})
    else
      match rules.parse(c.schedule)
      case Parsed(s) => Some(if id == "" then regs else regs[id := s])
      case _ => None
  }

  datatype Call =
    | CreateTask(id: Id, req: Request, now: Time, saved: bool, undone: bool)
    | UpdateTask(id: Id, req: Request, now: Time, saved: bool)
    | DeleteTask(id: Id, saved: bool)

  datatype Response = Okay | BadRequest | NotFound | ServerError | HandlerCrashed

  function Refusal(v: Verdict): Response {
    if v.Crashed? then HandlerCrashed else BadRequest
  }

  function StoreCreate(call: Call): Op
    requires call.CreateTask?
  {
    Create(call.id, Apply(WithDefaults(call.req), ZERO), call.now, call.saved)
  }

  function DoCreate(s: System, call: Call, rules: Rules): (System, Response)
    requires call.CreateTask?
  {
    var v := Validate(call.req, true, rules);
    if v != Accepted then (s, Refusal(v))
    else Persist(s, call, rules)
  }

  /** Persists the task, then registers it; a registration that fails takes the task back. */
  function Persist(s: System, call: Call, rules: Rules): (System, Response)
    requires call.CreateTask?
  {
    var disk := Step(s.disk, StoreCreate(call));
    if !call.saved then (System(disk, s.regs), ServerError)
    else
      match Registered(s.regs, call.id, StoreCreate(call).config, rules)
      case Some(regs) => (System(disk, regs), Okay)
      case None => (System(Step(disk, Delete(call.id, call.undone)), s.regs), BadRequest)
  }

  function StoreUpdate(call: Call): Op
    requires call.UpdateTask?
  {
    Update(call.id, Mutation(call.req), call.now, call.saved)
  }

  function Mutation(req: Request): Config -> Config {
    c => Apply(req, c)
  }

  function DoUpdate(s: System, call: Call, rules: Rules): (System, Response)
    requires call.UpdateTask?
  {
    var v := Validate(call.req, false, rules);
    if call.id == "" then (s, BadRequest)
    else if v != Accepted then (s, Refusal(v))
    else Change(s, call, rules)
  }

  function Change(s: System, call: Call, rules: Rules): (System, Response)
    requires call.UpdateTask?
  {
    var disk := Step(s.disk, StoreUpdate(call));
    if call.id !in s.disk.mem then (System(disk, s.regs), NotFound)
    else if !call.saved then (System(disk, s.regs), ServerError)
    else
      match Registered(s.regs, call.id, Apply(call.req, s.disk.mem[call.id].config), rules)
      case Some(regs) => (System(disk, regs), Okay)
      case None => (System(disk, s.regs), BadRequest)
  }

  function DoDelete(s: System, call: Call): (System, Response)
    requires call.DeleteTask?
  {
    if call.id == "" then (s, BadRequest)
    else
      var after := System(Step(s.disk, Delete(call.id, call.saved)), s.regs - {call.id});
      (after, if call.id !in s.disk.mem then NotFound else if call.saved then Okay else ServerError)
  }

  function Do(s: System, call: Call, rules: Rules): (System, Response) {
    match call
    case CreateTask(_, _, _, _, _) => DoCreate(s, call, rules)
    case UpdateTask(_, _, _, _) => DoUpdate(s, call, rules)
    case DeleteTask(_, _) => DoDelete(s, call)
  }

  // ---- What a call leaves, field by field ----

  // Nothing but this id is touched, in the store, its file or the scheduler.
  ghost predicate OnlyOn(s: System, u: System, id: Id) {
    && u.disk.mem - {id} == s.disk.mem - {id} && u.regs - {id} == s.regs - {id}
    && (s.disk.mem == s.disk.file ==> u.disk.file - {id} == s.disk.file - {id})
  }

  /** The task a create leaves when it succeeds, and that one that is refused, or fails and is undone, leaves none. */
  lemma CreateLeaves(s: System, call: Call, rules: Rules)
    requires call.CreateTask? && call.id !in s.disk.mem
    ensures var (u, r) := Do(s, call, rules);
      && OnlyOn(s, u, call.id)
      && (r == Okay ==>
           && call.id in u.disk.mem && u.disk.file == u.disk.mem
           && CreatedBy(u.disk.mem[call.id].config, call.req) && u.disk.mem[call.id].runs == []
           && u.disk.mem[call.id].createdAt == u.disk.mem[call.id].updatedAt == call.now)
      && (r != Okay ==> u.regs == s.regs)
      && (r == HandlerCrashed <==> Validate(call.req, true, rules) == Crashed)
      && (Validate(call.req, true, rules) !in {Accepted, Crashed} ==> r == BadRequest && u == s)
      && (Validate(call.req, true, rules) == Accepted && !call.saved <==> r == ServerError)
      && (r != Okay && (call.saved ==> call.undone) ==> call.id !in u.disk.mem)
  {
    if Validate(call.req, true, rules) == Accepted {
      AcceptedCreate(call.req, rules);
    }
  }

  /** What an update changes when it succeeds; one that is refused or not saved changes nothing in the store. */
  lemma UpdateLeaves(s: System, call: Call, rules: Rules)
    requires call.UpdateTask?
    ensures var (u, r) := Do(s, call, rules);
      && OnlyOn(s, u, call.id)
      && (r == Okay ==>
           && call.id in s.disk.mem && call.id in u.disk.mem && u.disk.file == u.disk.mem
           && var was, t := s.disk.mem[call.id], u.disk.mem[call.id];
              && ChangedBy(was.config, t.config, call.req)
              && t.createdAt == was.createdAt && t.updatedAt == call.now && t.runs == was.runs)
      && (r == NotFound ==> call.id !in s.disk.mem)
      && (r in {NotFound, ServerError, HandlerCrashed} ==> u == s)
      && (r == HandlerCrashed <==> call.id != "" && Validate(call.req, false, rules) == Crashed)
      && (call.id != "" && Validate(call.req, false, rules) !in {Accepted, Crashed} ==> r == BadRequest && u == s)
  {
  }

  /** A delete takes the task out of both, or leaves the store alone if it is not saved. */
  lemma DeleteLeaves(s: System, call: Call, rules: Rules)
    requires call.DeleteTask?
    ensures var (u, r) := Do(s, call, rules);
      && OnlyOn(s, u, call.id)
      && (r == Okay ==>
           call.id in s.disk.mem && call.id !in u.disk.mem && u.disk.file == u.disk.mem && call.id !in u.regs)
      && (r == NotFound ==> call.id !in s.disk.mem)
      && (r == ServerError ==> call.id in s.disk.mem && !call.saved && u.disk == s.disk && call.id !in u.regs)
  {
  }

  // ---- Agreement ----

  predicate Parses(t: Task, rules: Rules) {
    rules.parse(t.config.schedule).Parsed?
  }

  /** The scheduler knows the id exactly if the store has it enabled, and with the schedule the store has. */
  predicate AgreesOn(s: System, id: Id, rules: Rules) {
    && (id in s.regs <==> id in s.disk.mem && s.disk.mem[id].config.enabled)
    && (id in s.regs ==> rules.parse(s.disk.mem[id].config.schedule) == Cron.Parsed(s.regs[id]))
  }

  ghost predicate Agree(s: System, rules: Rules) {
    && (forall id :: AgreesOn(s, id, rules))
    && (forall id :: id in s.disk.mem ==> id != "" && Parses(s.disk.mem[id], rules))
  }

  lemma CreateAgrees(s: System, call: Call, rules: Rules)
    requires Agree(s, rules) && call.CreateTask? && call.id != "" && call.id !in s.disk.mem
    ensures Agree(Do(s, call, rules).0, rules)
    ensures Do(s, call, rules).1.Okay? <==> Validate(call.req, true, rules) == Accepted && call.saved
  {
    if Validate(call.req, true, rules) == Accepted {
      AcceptedCreate(call.req, rules);
    }
    var u := Do(s, call, rules).0;
    forall id ensures AgreesOn(u, id, rules) {
      assert AgreesOn(s, id, rules);
    }
  }

  lemma UpdateAgrees(s: System, call: Call, rules: Rules)
    requires Agree(s, rules) && call.UpdateTask?
    ensures Agree(Do(s, call, rules).0, rules)
    ensures Do(s, call, rules).1.Okay? <==>
      Validate(call.req, false, rules) == Accepted && call.saved && call.id in s.disk.mem
  {
    var u := Do(s, call, rules).0;
    if call.id in s.disk.mem {
      assert Parses(s.disk.mem[call.id], rules);
    }
    forall id ensures AgreesOn(u, id, rules) {
      assert AgreesOn(s, id, rules);
    }
  }

  /** A delete unregisters first: agreement is lost exactly when the save then fails for an enabled task. */
  lemma DeleteAgreesIff(s: System, call: Call, rules: Rules)
    requires Agree(s, rules) && call.DeleteTask?
    ensures Agree(Do(s, call, rules).0, rules) <==>
      !(call.id in s.disk.mem && s.disk.mem[call.id].config.enabled && !call.saved)
  {
    var u := Do(s, call, rules).0;
    if call.id in s.disk.mem && s.disk.mem[call.id].config.enabled && !call.saved {
      assert !AgreesOn(u, call.id, rules);
    } else {
      forall id ensures AgreesOn(u, id, rules) {
        assert AgreesOn(s, id, rules);
      }
    }
  }

  // ---- Startup ----

  /** The registrations of those of the ids whose task is enabled and parses. */
  function Registrations(mem: map<Id, Task>, ids: set<Id>, rules: Rules): map<Id, Cron.Schedule> {
    map id | id in ids && id in mem && mem[id].config.enabled && Parses(mem[id], rules) && id != "" ::
      rules.parse(mem[id].config.schedule).schedule
  }

  /** LoadAndRegisterAll: registers every enabled task, and passes over a schedule that does not parse. */
  function Startup(disk: Disk, rules: Rules): System {
    System(disk, Registrations(disk.mem, disk.mem.Keys, rules))
  }

  /** One more task registered, or passed over. */
  lemma RegisterOne(mem: map<Id, Task>, ids: set<Id>, id: Id, rules: Rules)
    requires id in mem
    ensures var before := Registrations(mem, ids, rules);
      Registrations(mem, ids + {id}, rules) ==
        if mem[id].config.enabled then Or(Registered(before, id, mem[id].config, rules), before) else before
  {
  }

  /** After startup the two agree exactly when all that was loaded parses. */
  lemma StartupAgreesIff(disk: Disk, rules: Rules)
    requires "" !in disk.mem
    ensures Agree(Startup(disk, rules), rules) <==> forall id :: id in disk.mem ==> Parses(disk.mem[id], rules)
    ensures (forall id :: AgreesOn(Startup(disk, rules), id, rules)) <==>
      forall id :: id in disk.mem && disk.mem[id].config.enabled ==> Parses(disk.mem[id], rules)
  {
    var s := Startup(disk, rules);
    forall id
      ensures AgreesOn(s, id, rules) <==>
        (id in disk.mem && disk.mem[id].config.enabled ==> Parses(disk.mem[id], rules))
    {
    }
    if !forall id :: id in disk.mem && disk.mem[id].config.enabled ==> Parses(disk.mem[id], rules) {
      var id :| id in disk.mem && disk.mem[id].config.enabled && !Parses(disk.mem[id], rules);
      assert !AgreesOn(s, id, rules);
    }
  }

  // ---- Runs of calls ----

  function After(s: System, calls: seq<Call>, rules: Rules): System {
    if calls == [] then s else Do(After(s, calls[..|calls| - 1], rules), calls[|calls| - 1], rules).0
  }

  /** Ids of new tasks are new, and saves succeed, or fail other than for the delete of an enabled task. */
  predicate Regular(s: System, call: Call) {
    match call
    case CreateTask(id, _, _, _, _) => id != "" && id !in s.disk.mem
    case UpdateTask(_, _, _, _) => true
    case DeleteTask(id, saved) => saved || id !in s.disk.mem || !s.disk.mem[id].config.enabled
  }

  predicate AllRegular(s: System, calls: seq<Call>, rules: Rules) {
    calls == [] ||
    var front := calls[..|calls| - 1];
    AllRegular(s, front, rules) && Regular(After(s, front, rules), calls[|calls| - 1])
  }

  /** From startup on, handler after handler: what is scheduled is exactly what the store has enabled. */
  lemma {:induction false} AgreementForever(s: System, calls: seq<Call>, rules: Rules)
    requires Agree(s, rules) && AllRegular(s, calls, rules)
    ensures Agree(After(s, calls, rules), rules)
  {
    if calls != [] {
      var front, last := calls[..|calls| - 1], calls[|calls| - 1];
      AgreementForever(s, front, rules);
      var u := After(s, front, rules);
      match last
      case CreateTask(_, _, _, _, _) => CreateAgrees(u, last, rules);
      case UpdateTask(_, _, _, _) => UpdateAgrees(u, last, rules);
      case DeleteTask(_, _) => DeleteAgreesIff(u, last, rules);
    }
  }

  // ---- Interleaved handlers ----

  /** What a scheduled callback runs: the task as the store has it when it fires. */
  function Callback(s: System, id: Id): Option<Config> {
    if id in s.disk.mem && s.disk.mem[id].config.enabled then Some(s.disk.mem[id].config) else None
  }

  // The two halves of a handler: what it does in the store, and then, or before for a delete, in the scheduler.
  datatype Half =
    | StoreHalf(op: Op)
    | RegisterHalf(id: Id, config: Config)
    | UnregisterHalf(id: Id)

  function HalfStep(s: System, h: Half, rules: Rules): System {
    match h
    case StoreHalf(op) => s.(disk := Step(s.disk, op))
    case RegisterHalf(id, c) => s.(regs := Or(Registered(s.regs, id, c, rules), s.regs))
    case UnregisterHalf(id) => s.(regs := s.regs - {id})
  }

  function Interleaved(s: System, halves: seq<Half>, rules: Rules): System {
    if halves == [] then s else HalfStep(Interleaved(s, halves[..|halves| - 1], rules), halves[|halves| - 1], rules)
  }

  // What a task asks of the scheduler.
  datatype Wish = Off | On(schedule: Cron.Schedule) | Unparsable

  function WishOf(c: Config, rules: Rules): Wish {
    if !c.enabled then Off
    else match rules.parse(c.schedule) case Parsed(s) => On(s) case _ => Unparsable
  }

  function StoreWish(s: System, id: Id, rules: Rules): Wish {
    if id in s.disk.mem then WishOf(s.disk.mem[id].config, rules) else Off
  }

  function Scheduled(s: System, id: Id): Wish {
    if id in s.regs then On(s.regs[id]) else Off
  }

  lemma AgreesMeans(s: System, id: Id, rules: Rules)
    ensures AgreesOn(s, id, rules) <==> Scheduled(s, id) == StoreWish(s, id, rules)
  {
  }

  /** What the last store half that changed the task has left. */
  function LastStored(s: System, halves: seq<Half>, id: Id, rules: Rules): Option<Wish> {
    if halves == [] then None
    else
      var front := halves[..|halves| - 1];
      var earlier := LastStored(s, front, id, rules);
      match halves[|halves| - 1]
      case StoreHalf(op) =>
        if op.id != id || op.AppendRun? then earlier
        else
          (match op
           case Create(_, c, _, saved) => Some(if saved then WishOf(c, rules) else Off)
           case Update(_, f, _, saved) =>
             var mem := Interleaved(s, front, rules).disk.mem;
             if saved && id in mem then Some(WishOf(f(mem[id].config), rules)) else earlier
           case Delete(_, saved) => if saved then Some(Off) else earlier
           case _ => earlier)
      case _ => earlier
  }

  /** What the last register half of the task has asked for; one that does not parse has no effect. */
  function LastRegistered(halves: seq<Half>, id: Id, rules: Rules): Option<Wish> {
    if halves == [] then None
    else
      var earlier := LastRegistered(halves[..|halves| - 1], id, rules);
      match halves[|halves| - 1]
      case StoreHalf(_) => earlier
      case RegisterHalf(i, c) => if i == id && WishOf(c, rules) != Unparsable then Some(WishOf(c, rules)) else earlier
      case UnregisterHalf(i) => if i == id then Some(Off) else earlier
  }

  lemma {:induction false} StoredIsLast(s: System, halves: seq<Half>, id: Id, rules: Rules)
    ensures StoreWish(Interleaved(s, halves, rules), id, rules) ==
      Or(LastStored(s, halves, id, rules), StoreWish(s, id, rules))
  {
    if halves != [] {
      var front := halves[..|halves| - 1];
      StoredIsLast(s, front, id, rules);
      StoreWishStep(Interleaved(s, front, rules), halves[|halves| - 1], id, rules);
    }
  }

  lemma StoreWishStep(s: System, h: Half, id: Id, rules: Rules)
    ensures var after := StoreWish(HalfStep(s, h, rules), id, rules);
      match h
      case StoreHalf(op) =>
        if op.id != id || op.AppendRun? then after == StoreWish(s, id, rules)
        else
          (match op
           case Create(_, c, _, saved) => after == if saved then WishOf(c, rules) else Off
           case Update(_, f, _, saved) =>
             after == if saved && id in s.disk.mem then WishOf(f(s.disk.mem[id].config), rules)
                      else StoreWish(s, id, rules)
           case Delete(_, saved) => after == if saved then Off else StoreWish(s, id, rules)
           case _ => true)
      case _ => after == StoreWish(s, id, rules)
  {
  }

  lemma {:induction false} ScheduledIsLast(s: System, halves: seq<Half>, id: Id, rules: Rules)
    requires id != ""
    ensures Scheduled(Interleaved(s, halves, rules), id) == Or(LastRegistered(halves, id, rules), Scheduled(s, id))
  {
    if halves != [] {
      ScheduledIsLast(s, halves[..|halves| - 1], id, rules);
    }
  }

  /**
   * However the halves of any handlers interleave, saved or not: scheduler and store agree on a task exactly if what
   * the last effective register half asked for is what the last effective store half has left.
   */
  lemma InterleavedAgreesIff(s: System, halves: seq<Half>, id: Id, rules: Rules)
    requires id != "" && AgreesOn(s, id, rules)
    ensures AgreesOn(Interleaved(s, halves, rules), id, rules) <==>
      var before := StoreWish(s, id, rules);
      Or(LastRegistered(halves, id, rules), before) == Or(LastStored(s, halves, id, rules), before)
  {
    AgreesMeans(s, id, rules);
    AgreesMeans(Interleaved(s, halves, rules), id, rules);
    StoredIsLast(s, halves, id, rules);
    ScheduledIsLast(s, halves, id, rules);
  }

  /**
   * Two updates of one task whose registrations come in the other order than their stores: they end in agreement
   * exactly if they ask for the same; and where they do not, a task left disabled is not run by its callback.
   */
  lemma CrossedUpdates(s: System, one: Call, two: Call, rules: Rules)
    requires one.UpdateTask? && two.UpdateTask? && one.id == two.id != "" && one.saved && two.saved
    requires one.id in s.disk.mem && AgreesOn(s, one.id, rules)
    requires var c := Apply(one.req, s.disk.mem[one.id].config);
      WishOf(c, rules) != Unparsable && WishOf(Apply(two.req, c), rules) != Unparsable
    ensures var c := Apply(one.req, s.disk.mem[one.id].config);
      var d := Apply(two.req, c);
      var crossed := Interleaved(s, [StoreHalf(StoreUpdate(one)), StoreHalf(StoreUpdate(two)), RegisterHalf(one.id, d),
                                     RegisterHalf(one.id, c)], rules);
      && (AgreesOn(crossed, one.id, rules) <==> WishOf(c, rules) == WishOf(d, rules))
      && (!d.enabled ==> Callback(crossed, one.id) == None)
  {
    var c := Apply(one.req, s.disk.mem[one.id].config);
    var d := Apply(two.req, c);
    var h := [StoreHalf(StoreUpdate(one)), StoreHalf(StoreUpdate(two)),
              RegisterHalf(one.id, d), RegisterHalf(one.id, c)];
    assert h[..3][..2] == h[..2] && h[..2][..1] == h[..1] && h[..1][..0] == [];
    InterleavedAgreesIff(s, h, one.id, rules);
    StoredIsLast(s, h, one.id, rules);
    assert LastRegistered(h, one.id, rules) == Some(WishOf(c, rules));
    CrossedStores(s, h, one, two, rules);
  }

  lemma CrossedStores(s: System, h: seq<Half>, one: Call, two: Call, rules: Rules)
    requires one.UpdateTask? && two.UpdateTask? && one.id == two.id && one.saved && two.saved && one.id in s.disk.mem
    requires |h| == 4 && h[0] == StoreHalf(StoreUpdate(one)) && h[1] == StoreHalf(StoreUpdate(two))
    requires h[2].RegisterHalf? && h[3].RegisterHalf?
    ensures var d := Apply(two.req, Apply(one.req, s.disk.mem[one.id].config));
      && LastStored(s, h, one.id, rules) == Some(WishOf(d, rules))
      && one.id in Interleaved(s, h, rules).disk.mem && Interleaved(s, h, rules).disk.mem[one.id].config == d
  {
    var s0 := Interleaved(s, h[..1], rules);
    assert h[..1][..0] == [] && h[..2][..1] == h[..1] && h[..3][..2] == h[..2];
    assert h[..1] == [h[0]] && [h[0]][..0] == [] && Interleaved(s, [], rules) == s;
    assert s0 == HalfStep(s, h[0], rules);
    assert s0.disk.mem[one.id].config == Apply(one.req, s.disk.mem[one.id].config);
    var s1 := Interleaved(s, h[..2], rules);
    assert s1 == HalfStep(s0, h[1], rules);
    assert LastStored(s, h[..2], one.id, rules) == Some(WishOf(s1.disk.mem[one.id].config, rules));
    assert LastStored(s, h[..3], one.id, rules) == LastStored(s, h[..2], one.id, rules);
    assert Interleaved(s, h[..3], rules).disk == s1.disk;
  }
}
