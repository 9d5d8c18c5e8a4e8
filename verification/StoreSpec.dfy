/** The replication task store of internal/replication/store.go: what is in memory and what is in the file. */
module StoreSpec {
  import opened ByTime
  import opened Tails

  // Number of run records kept per task.
  const MAX_RUN_HISTORY := 20

  datatype RunRecord = RunRecord(jobId: string, snapshot: string, startedAt: Time, finishedAt: Time, status: string,
                                 error: string)

  /** The fields of a task that a request can set. */
  datatype Config = Config(name: string, source: string, target: string, remote: string, schedule: string,
                           retention: int, raw: bool, recursive: bool, enabled: bool)

  datatype Task = Task(config: Config, createdAt: Time, updatedAt: Time, runs: seq<RunRecord>)

  datatype Disk = Disk(mem: map<Id, Task>, file: map<Id, Task>)

  // Each operation is told whether its save succeeds.
  datatype Op =
    | Create(id: Id, config: Config, now: Time, saved: bool)
    | Update(id: Id, mutate: Config -> Config, now: Time, saved: bool)
    | Delete(id: Id, saved: bool)
    | AppendRun(id: Id, rec: RunRecord, saved: bool)

  /** The contents of memory an operation asks for; None if it names no task. */
  function Wanted(mem: map<Id, Task>, op: Op): map<Id, Task> {
    match op
    case Create(id, c, now, _) => mem[id := Task(c, now, now, [])]
    case Update(id, f, now, _) =>
      if id in mem then mem[id := mem[id].(config := f(mem[id].config), updatedAt := now)] else mem
    case Delete(id, _) => mem - {id}
    case AppendRun(id, rec, _) =>
      if id in mem then mem[id := mem[id].(runs := Last(mem[id].runs + [rec], MAX_RUN_HISTORY))] else mem
  }

  predicate Saves(mem: map<Id, Task>, op: Op) {
    op.saved && (op.Create? || op.id in mem)
  }

  /** A failed save undoes the operation in memory, except that an appended record stays. */
  function Step(s: Disk, op: Op): Disk {
    var mem := Wanted(s.mem, op);
    if Saves(s.mem, op) then Disk(mem, mem)
    else if op.AppendRun? then Disk(mem, s.file)
    else if op.Create? then Disk(s.mem - {op.id}, s.file)
    else s
  }

  function Run(s: Disk, ops: seq<Op>): Disk {
    if ops == [] then s else Step(Run(s, ops[..|ops| - 1]), ops[|ops| - 1])
  }

  /** A record was appended in memory only, and nothing has been saved since. */
  predicate Dirty(s: Disk, ops: seq<Op>) {
    if ops == [] then false
    else
      var before := Run(s, ops[..|ops| - 1]);
      var op := ops[|ops| - 1];
      if Saves(before.mem, op) then false
      else Dirty(s, ops[..|ops| - 1]) || (op.AppendRun? && op.id in before.mem)
  }

  // Created tasks get random ids; none is in use already.
  ghost predicate FreshIds(s: Disk, ops: seq<Op>) {
    forall i :: 0 <= i < |ops| && ops[i].Create? ==> ops[i].id !in Run(s, ops[..i]).mem
  }

  function Histories(m: map<Id, Task>): map<Id, Task> {
    map id | id in m :: m[id].(runs := [])
  }

  /**
   * Memory equals the file after every sequence of operations, including those whose save fails, unless a record
   * was appended without being saved; then they differ in run histories at most, and the next save ends it.
   */
  lemma {:induction false} MemoryEqualsFile(s: Disk, ops: seq<Op>)
    requires s.mem == s.file && FreshIds(s, ops)
    ensures !Dirty(s, ops) ==> Run(s, ops).mem == Run(s, ops).file
    ensures Histories(Run(s, ops).mem) == Histories(Run(s, ops).file)
  {
    if ops != [] {
      var front := ops[..|ops| - 1];
      assert forall i :: 0 <= i < |front| ==> front[..i] == ops[..i];
      MemoryEqualsFile(s, front);
      var before, op := Run(s, ops[..|ops| - 1]), ops[|ops| - 1];
      if op.AppendRun? && !Saves(before.mem, op) && op.id in before.mem {
        assert Histories(Wanted(before.mem, op)) == Histories(before.mem);
      }
    }
  }

  /** The run records appended to a task since it was last created. */
  function Appended(s: Disk, ops: seq<Op>, id: Id): seq<RunRecord> {
    if ops == [] then []
    else
      var before := Run(s, ops[..|ops| - 1]);
      match ops[|ops| - 1]
      case Create(i, _, _, saved) => if i == id && saved then [] else Appended(s, ops[..|ops| - 1], id)
      case AppendRun(i, rec, _) => Appended(s, ops[..|ops| - 1], id) + if i == id && id in before.mem then [rec] else []
      case _ => Appended(s, ops[..|ops| - 1], id)
  }

  /** Memory and file part only by an append that is not saved, and any save brings them together. */
  lemma {:induction false} CleanWhenSaved(s: Disk, ops: seq<Op>)
    ensures (forall i :: 0 <= i < |ops| && ops[i].AppendRun? ==> ops[i].saved) ==> !Dirty(s, ops)
    ensures ops != [] && Saves(Run(s, ops[..|ops| - 1]).mem, ops[|ops| - 1]) ==> !Dirty(s, ops)
  {
    if ops != [] {
      CleanWhenSaved(s, ops[..|ops| - 1]);
    }
  }

  /** From an empty store: the history of a task is the last records appended to it, at most twenty. */
  lemma {:induction false} HistoryIsTail(ops: seq<Op>, id: Id)
    requires id in Run(Disk(map[], map[]), ops).mem
    ensures Run(Disk(map[], map[]), ops).mem[id].runs == Last(Appended(Disk(map[], map[]), ops, id), 20)
  {
    var s := Disk(map[], map[]);
    var front, op := ops[..|ops| - 1], ops[|ops| - 1];
    var before := Run(s, front);
    if id in before.mem {
      HistoryIsTail(front, id);
      if op.AppendRun? && op.id == id {
        TailOfTail(Appended(s, front, id), [op.rec], MAX_RUN_HISTORY);
      } else {
        assert Appended(s, front, id) + [] == Appended(s, front, id);
      }
    }
  }
}
