/**
 * The replication runner: one run up to its dispatch, the wait for its job, and the two loops that release holds, each
 * a sequence of steps of the hold protocol.
 */
module Runner {
  import opened Text
  import opened Filters
  import opened Snapshots
  import opened Holds
  import J = JobSpec
  import StoreSpec
  import S = Store

  // ---- Names ----

  predicate IsName(name: string) {
    IsLine(name) && '@' in name && '@' !in name[IndexByte(name, '@') + 1..]
  }

  function SnapOf(name: string): Snap
    requires '@' in name
  {
    Snap(name[..IndexByte(name, '@')], name[IndexByte(name, '@') + 1..])
  }

  // strings.Contains
  predicate Contains(s: string, sub: string) {
    sub <= s || (s != "" && Contains(s[1..], sub))
  }

  lemma {:induction false} ContainsNone(s: string, sub: string)
    requires sub != "" && sub[0] !in s
    ensures !Contains(s, sub)
  {
    if s != "" {
      assert forall k :: 0 <= k < |s[1..]| ==> s[1..][k] == s[k + 1];
      ContainsNone(s[1..], sub);
    }
  }

  lemma {:induction false} ContainsBehind(ds: string, snap: string, prefix: string)
    requires '@' !in ds && '@' !in snap
    ensures Contains(ds + ("@" + snap), "@" + prefix) <==> prefix <= snap
  {
    var s, sub := ds + ("@" + snap), "@" + prefix;
    if ds == "" {
      assert s == "@" + snap && s[1..] == snap;
      ContainsNone(snap, sub);
      assert prefix <= snap ==> sub == s[..|sub|];
      assert sub <= s ==> prefix == s[..|sub|][1..] == snap[..|prefix|];
    } else {
      assert s[1..] == ds[1..] + ("@" + snap);
      assert forall k :: 0 <= k < |ds[1..]| ==> ds[1..][k] == ds[k + 1];
      assert s[0] == ds[0] && sub[0] == '@';
      ContainsBehind(ds[1..], snap, prefix);
    }
  }

  /** A snapshot name contains `@prefix` exactly when its part behind the '@' starts with the prefix. */
  lemma ContainsAt(name: string, prefix: string)
    requires IsName(name)
    ensures Contains(name, "@" + prefix) <==> prefix <= SnapOf(name).snap
  {
    var at := IndexByte(name, '@');
    ContainsBehind(name[..at], name[at + 1..], prefix);
    assert name == name[..at] + ("@" + name[at + 1..]);
  }

  // ---- Outcomes of the commands a run issues ----

  datatype Script = Script(snapshot: bool, hold: bool, destroy: bool, srcList: Listing, dstList: Listing,
                           dispatch: bool, release: bool)

  // The settings of a task that shape the command line.
  datatype Task = Task(target: string, remote: string, raw: bool)

  datatype Result = NotCreated | NotHeld | NotListed | NotDispatched | Dispatched

  /** The sending half of the pipeline; a base makes it incremental. */
  function SendArgs(raw: bool, recursive: bool, base: string, srcSnap: string): seq<string> {
    ["zfs", "send"] + (if raw then ["--raw"] else []) + (if recursive then ["-R"] else [])
      + (if base != "" then ["-i", base] else []) + [srcSnap]
  }

  /** The receiving half, through ssh for a remote target. */
  function RecvArgs(remote: string, target: string): seq<string> {
    (if remote != "" then ["ssh", "-o", "BatchMode=yes", remote] else []) + ["zfs", "recv", "-F", "-u", target]
  }

  // ---- What the two command lines ask for ----

  /** A send as zfs-send(8) reads its arguments: options in any order, each once, and then the snapshot. */
  datatype SendRequest = SendRequest(raw: bool, replicate: bool, base: Option<string>, snapshot: string)

  function ReadSend(args: seq<string>): Option<SendRequest> {
    if |args| < 2 || args[0] != "zfs" || args[1] != "send" then None
    else ReadOptions(args[2..], SendRequest(false, false, None, ""))
  }

  function ReadOptions(args: seq<string>, r: SendRequest): Option<SendRequest> {
    if args == [] then None
    else if |args| == 1 then Some(r.(snapshot := args[0]))
    else if args[0] == "--raw" && !r.raw then ReadOptions(args[1..], r.(raw := true))
    else if args[0] == "-R" && !r.replicate then ReadOptions(args[1..], r.(replicate := true))
    else if args[0] == "-i" && r.base.None? then ReadOptions(args[2..], r.(base := Some(args[1])))
    else None
  }

  /** A receive as zfs-recv(8) reads it, here or on the host that ssh logs in to. */
  datatype RecvRequest = RecvRequest(host: Option<string>, rollback: bool, unmounted: bool, target: string)

  function ReadRecv(args: seq<string>): Option<RecvRequest> {
    if |args| > 4 && args[..3] == ["ssh", "-o", "BatchMode=yes"] then
      match ReadLocalRecv(args[4..]) case None => None case Some(r) => Some(r.(host := Some(args[3])))
    else ReadLocalRecv(args)
  }

  function ReadLocalRecv(args: seq<string>): Option<RecvRequest> {
    if |args| < 3 || args[0] != "zfs" || args[1] != "recv" then None
    else
      var options := args[2..|args| - 1];
      if forall i :: 0 <= i < |options| ==> options[i] == "-F" || options[i] == "-u" then
        Some(RecvRequest(None, "-F" in options, "-u" in options, args[|args| - 1]))
      else None
  }

  // The base in the form of a request; an empty one is none.
  function BaseOf(base: string): Option<string> {
    if base == "" then None else Some(base)
  }

  /** A send is raw and recursive as the settings say, incremental exactly from the base, and of the snapshot. */
  lemma SendSays(raw: bool, recursive: bool, base: string, srcSnap: string)
    ensures ReadSend(SendArgs(raw, recursive, base, srcSnap)) ==
      Some(SendRequest(raw, recursive, BaseOf(base), srcSnap))
  {
    var args := SendArgs(raw, recursive, base, srcSnap);
    var tail := [srcSnap];
    var incremental := (if base != "" then ["-i", base] else []) + tail;
    var replicate := (if recursive then ["-R"] else []) + incremental;
    assert args[2..] == (if raw then ["--raw"] else []) + replicate;
    ReadRaw(raw, replicate);
    ReadReplicate(recursive, incremental, raw);
    ReadBase(base, srcSnap, raw, recursive);
  }

  lemma ReadRaw(raw: bool, rest: seq<string>)
    requires rest != []
    ensures ReadOptions((if raw then ["--raw"] else []) + rest, SendRequest(false, false, None, "")) ==
      ReadOptions(rest, SendRequest(raw, false, None, ""))
  {
    var args := (if raw then ["--raw"] else []) + rest;
    if raw {
      assert args[1..] == rest;
    } else {
      assert args == rest;
    }
  }

  lemma OptionsDiffer()
    ensures "--raw" != "-R" && "--raw" != "-i" && "-R" != "-i"
  {
    assert |"--raw"| == 5 && |"-R"| == |"-i"| == 2 && "-R"[1] == 'R' && "-i"[1] == 'i';
  }

  lemma ReadBase(base: string, srcSnap: string, raw: bool, recursive: bool)
    ensures ReadOptions((if base != "" then ["-i", base] else []) + [srcSnap], SendRequest(raw, recursive, None, "")) ==
      Some(SendRequest(raw, recursive, BaseOf(base), srcSnap))
  {
    OptionsDiffer();
    var args := (if base != "" then ["-i", base] else []) + [srcSnap];
    if base != "" {
      assert args[2..] == [srcSnap];
    }
  }

  lemma ReadReplicate(recursive: bool, rest: seq<string>, raw: bool)
    requires rest != []
    ensures ReadOptions((if recursive then ["-R"] else []) + rest, SendRequest(raw, false, None, "")) ==
      ReadOptions(rest, SendRequest(raw, recursive, None, ""))
  {
    OptionsDiffer();
    var args := (if recursive then ["-R"] else []) + rest;
    if recursive {
      assert args[1..] == rest;
    } else {
      assert args == rest;
    }
  }

  /** A receive rolls back, does not mount, and goes to the target on the task's host. */
  lemma RecvSays(remote: string, target: string)
    ensures ReadRecv(RecvArgs(remote, target)) == Some(RecvRequest(BaseOf(remote), true, true, target))
  {
    var local := ["zfs", "recv", "-F", "-u", target];
    assert local[2..4] == ["-F", "-u"];
    assert |"ssh"| == |"zfs"| == 3 && "ssh"[0] == 's' && "zfs"[0] == 'z';
    var args := RecvArgs(remote, target);
    if remote == "" {
      assert args == local;
    } else {
      assert args[4..] == local && args[..3] == ["ssh", "-o", "BatchMode=yes"] && args[3] == remote;
    }
  }

  // What one tick of the wait finds.
  datatype Poll = ContextDone | NoRecord | Found(job: J.Job)

  predicate Decides(p: Poll) {
    p.Found? ==> p.job.status.Terminal()
  }

  /** The first tick that ends the wait. */
  function Verdict(polls: seq<Poll>): Option<Poll> {
    if polls == [] then None
    else if Decides(polls[0]) then Some(polls[0])
    else Verdict(polls[1..])
  }

  /** The wait ends with the first tick that finds its context ended, no record, or a job that is over. */
  lemma {:induction false} VerdictIs(polls: seq<Poll>)
    ensures Verdict(polls).None? <==> forall k :: 0 <= k < |polls| ==> GoesOn(polls[k])
    ensures Verdict(polls).Some? ==>
      exists k :: 0 <= k < |polls| && FirstEnd(polls, k) && polls[k] == Verdict(polls).value
  {
    if polls != [] && GoesOn(polls[0]) {
      VerdictIs(polls[1..]);
      assert forall k :: 1 <= k < |polls| ==> polls[k] == polls[1..][k - 1];
      if Verdict(polls).Some? {
        var k :| 0 <= k < |polls[1..]| && FirstEnd(polls[1..], k) && polls[1..][k] == Verdict(polls).value;
        assert FirstEnd(polls, k + 1);
      }
    } else if polls != [] {
      assert FirstEnd(polls, 0);
    }
  }

  // A tick that finds the job still running.
  predicate GoesOn(p: Poll) {
    p.Found? && (p.job.status == J.Pending || p.job.status == J.Running)
  }

  predicate FirstEnd(polls: seq<Poll>, k: nat)
    requires k < |polls|
  {
    !GoesOn(polls[k]) && forall j :: 0 <= j < k ==> GoesOn(polls[j])
  }

  function StatusText(s: J.Status): string {
    match s
    case Pending => "pending"
    case Running => "running"
    case Success => "success"
    case Failed => "failed"
    case Cancelled => "cancelled"
    case Interrupted => "interrupted"
  }

  const RECORD_GONE := "job record disappeared"

  /** The run record of a finished wait. */
  function RecordOf(v: Poll, jobId: string, snapshot: string, started: nat, now: nat): Option<StoreSpec.RunRecord> {
    match v
    case ContextDone => None
    case NoRecord => Some(StoreSpec.RunRecord(jobId, snapshot, started, now, StatusText(J.Failed), RECORD_GONE))
    case Found(j) =>
      var status := StatusText(j.status);
      var error := if j.status.Success? then "" else if j.error != "" then j.error else status;
      Some(StoreSpec.RunRecord(jobId, snapshot, started, now, status, error))
  }

  /**
   * What a run record says: whose it is, and how the wait ended. Its status is the word of the job's status, or
   * `failed` when the record of the job has vanished. Its error is empty exactly after a success, and otherwise what
   * the job says or, if it says nothing, that word.
   */
  lemma RecordSays(v: Poll, jobId: string, snapshot: string, started: nat, now: nat)
    ensures RecordOf(v, jobId, snapshot, started, now).None? <==> v.ContextDone?
    ensures !v.ContextDone? ==>
      var r := RecordOf(v, jobId, snapshot, started, now).value;
      && r.jobId == jobId && r.snapshot == snapshot && r.startedAt == started && r.finishedAt == now
      && (r.status == "success" <==> Succeeded(v))
      && (r.error == "" <==> Succeeded(v))
      && (r.status == "failed" <==> v.NoRecord? || v.job.status.Failed?)
      && (r.status == "cancelled" <==> v.Found? && v.job.status.Cancelled?)
      && (r.status == "interrupted" <==> v.Found? && v.job.status.Interrupted?)
      && (v.NoRecord? ==> r.error == "job record disappeared")
      && (v.Found? && !Succeeded(v) ==> r.error == if v.job.error != "" then v.job.error else r.status)
  {
    WordsDiffer();
  }

  lemma WordsDiffer()
    ensures "success" != "failed" && "success" != "cancelled" && "success" != "interrupted"
    ensures "failed" != "cancelled" && "failed" != "interrupted" && "cancelled" != "interrupted"
    ensures "pending" !in {"success", "failed", "cancelled", "interrupted"}
    ensures "running" !in {"success", "failed", "cancelled", "interrupted"}
  {
    assert |"success"| == |"pending"| == |"running"| == 7 && |"failed"| == 6 && |"cancelled"| == 9;
    assert |"interrupted"| == 11 && "success"[0] == 's' && "pending"[0] == 'p' && "running"[0] == 'r';
  }

  class Runner {
    const prefix: string
    var datasets: set<string>
    var snaps: set<Snap>
    var holds: set<Snap>
    ghost var world: World

    ghost predicate Valid()
      reads this
    {
      && world.prefix == prefix && world.datasets == datasets && world.snaps == snaps && world.holds == holds
      && Inv(world)
    }

    constructor (prefix: string, datasets: set<string>)
      ensures Valid() && world == Start(prefix, datasets) && this.prefix == prefix
    {
      this.prefix, this.datasets, snaps, holds := prefix, datasets, {}, {};
      world := Start(prefix, datasets);
    }

    // ---- The commands, which work or fail without effect ----

    method CreateSnapshot(id: RunId, span: Span, works: bool) returns (ok: bool)
      requires Valid() && id !in world.runs && prefix <= span.snap
      modifies this
      ensures Valid()
      ensures ok == (works && Enabled(old(world), Snapshot(id, span)))
      ensures world == if ok then Next(old(world), Snapshot(id, span)) else old(world)
    {
      var made := Made(span, datasets);
      ok := works && span.ds in datasets && made !! snaps;
      if ok {
        StepInv(world, Snapshot(id, span));
        snaps := snaps + made;
        world := Next(world, Snapshot(id, span));
      }
    }

    method HoldSnapshot(id: RunId, span: Span, works: bool) returns (ok: bool)
      requires Valid() && InPhase(world, id, Taken) && world.runs[id].span == span
      modifies this
      ensures Valid()
      ensures ok == (works && Enabled(old(world), Hold(id)))
      ensures world == if ok then Next(old(world), Hold(id)) else old(world)
    {
      ok := works && Covered(span, holds) == {};
      if ok {
        StepInv(world, Hold(id));
        holds := holds + Covered(span, snaps);
        world := Next(world, Hold(id));
      }
    }

    /** Cleans up after a failed hold, as far as that works. */
    method DestroyOwn(id: RunId, span: Span, works: bool)
      requires Valid() && InPhase(world, id, Taken) && world.runs[id].span == span
      modifies this
      ensures Valid() && holds == old(holds)
      ensures world == Next(old(world), HoldFails(id, works && Snap(span.ds, span.snap) !in old(holds)))
    {
      ghost var step := HoldFails(id, works && Snap(span.ds, span.snap) !in holds);
      StepInv(world, step);
      if works && Snap(span.ds, span.snap) !in holds {
        snaps := snaps - {Snap(span.ds, span.snap)};
      }
      world := Next(world, step);
    }

    method ReleaseSnapshot(span: Span, works: bool)
      modifies this`holds
      ensures holds == if works then old(holds) - Covered(span, old(holds)) else old(holds)
    {
      if works {
        holds := holds - Covered(span, holds);
      }
    }

    // ---- One run ----

    /**
     * Snapshot, hold, look up the base, dispatch. A run that got as far as the dispatch holds all it took; one that did
     * not, and whose release worked, left no hold behind.
     */
    method Execute(id: RunId, span: Span, task: Task, o: Script)
      returns (r: Result, base: string, send: seq<string>, recv: seq<string>)
      requires Valid() && id !in world.runs && prefix <= span.snap
      modifies this
      ensures Valid()
      ensures r.NotCreated? <==> !(o.snapshot && Enabled(old(world), Snapshot(id, span)))
      ensures r.NotCreated? ==> world == old(world)
      ensures r.Dispatched? ==> InPhase(world, id, Watched) && Made(span, datasets) <= holds && o.dispatch
      ensures r.Dispatched? ==>
        && SourceSnaps(o.srcList, span.ds, prefix).Some? && TargetSnaps(o.dstList, task.target, prefix).Some?
        && IsBase(base, SourceSnaps(o.srcList, span.ds, prefix).value,
                  TargetSnaps(o.dstList, task.target, prefix).value)
        && ReadSend(send) == Some(SendRequest(task.raw, span.recursive, BaseOf(base), Name(span.ds, span.snap)))
        && ReadRecv(recv) == Some(RecvRequest(BaseOf(task.remote), true, true, task.target))
      ensures !r.Dispatched? && !r.NotCreated? ==>
        InPhase(world, id, if r.NotHeld? || o.release then Done else Left(ReleaseFailed))
      ensures !r.Dispatched? && (r.NotHeld? || o.release) ==> holds == old(holds)
      ensures snaps == if r.NotCreated? then old(snaps)
        else if r.NotHeld? && o.destroy && Snap(span.ds, span.snap) !in old(holds)
        then old(snaps) + Made(span, old(datasets)) - {Snap(span.ds, span.snap)}
        else old(snaps) + Made(span, old(datasets))
    {
      base, send, recv := "", [], [];
      var created := CreateSnapshot(id, span, o.snapshot);
      if !created {
        return NotCreated, base, send, recv;
      }
      var held := HoldSnapshot(id, span, o.hold);
      if !held {
        DestroyOwn(id, span, o.destroy);
        return NotHeld, base, send, recv;
      }
      FreshlyHeld(old(world), id, span);
      AfterHold(old(world), id, span, o.release);
      r, base, send, recv := SendHeld(id, span, task, o);
    }

    /** The part of a run after its hold: the base, and the dispatch. */
    method SendHeld(id: RunId, span: Span, task: Task, o: Script)
      returns (r: Result, base: string, send: seq<string>, recv: seq<string>)
      requires Valid() && InPhase(world, id, Held) && world.runs[id].span == span
      modifies this
      ensures Valid() && (r.NotListed? || r.NotDispatched? || r.Dispatched?) && (r.Dispatched? ==> o.dispatch)
      ensures world == Next(old(world), if r.Dispatched? then Dispatch(id) else Quit(id, o.release))
      ensures r.Dispatched? ==>
        && SourceSnaps(o.srcList, span.ds, prefix).Some? && TargetSnaps(o.dstList, task.target, prefix).Some?
        && IsBase(base, SourceSnaps(o.srcList, span.ds, prefix).value,
                  TargetSnaps(o.dstList, task.target, prefix).value)
        && ReadSend(send) == Some(SendRequest(task.raw, span.recursive, BaseOf(base), Name(span.ds, span.snap)))
        && ReadRecv(recv) == Some(RecvRequest(BaseOf(task.remote), true, true, task.target))
    {
      base, send, recv := "", [], [];
      var found := FindLastCommon(span.ds, task.target, prefix, o.srcList, o.dstList);
      if found.None? {
        QuitRun(id, span, o.release);
        return NotListed, base, send, recv;
      }
      base := found.value;
      send := SendArgs(task.raw, span.recursive, base, Name(span.ds, span.snap));
      recv := RecvArgs(task.remote, task.target);
      SendSays(task.raw, span.recursive, base, Name(span.ds, span.snap));
      RecvSays(task.remote, task.target);
      if !o.dispatch {
        QuitRun(id, span, o.release);
        return NotDispatched, base, send, recv;
      }
      StepInv(world, Dispatch(id));
      world := Next(world, Dispatch(id));
      return Dispatched, base, send, recv;
    }

    method QuitRun(id: RunId, span: Span, works: bool)
      requires Valid() && InPhase(world, id, Held) && world.runs[id].span == span
      modifies this
      ensures Valid() && world == Next(old(world), Quit(id, works))
    {
      StepInv(world, Quit(id, works));
      ReleaseSnapshot(span, works);
      world := Next(world, Quit(id, works));
    }

    // The ticks of the wait, up to the run record.
    method AwaitJob(id: RunId, span: Span, jobId: string, snapshot: string, started: nat, now: nat, polls: seq<Poll>,
                    release: bool, host: Host, listing: Listing, target: string, retain: int, works: string -> bool)
      returns (rec: Option<StoreSpec.RunRecord>)
      requires Valid() && InPhase(world, id, Watched) && world.runs[id].span == span
      modifies this, host
      ensures Valid()
      ensures Verdict(polls).None? ==> world == old(world) && rec.None? && host.snaps == old(host.snaps)
      ensures Verdict(polls).Some? ==> rec == RecordOf(Verdict(polls).value, jobId, snapshot, started, now)
      ensures Verdict(polls).Some? ==> world == Next(old(world), StepOf(Verdict(polls).value, id, release))
      ensures Verdict(polls).Some? && !Succeeded(Verdict(polls).value) ==> host.snaps == old(host.snaps)
      ensures Verdict(polls).Some? && Succeeded(Verdict(polls).value) ==>
        PrunedTo(old(host.snaps), TargetSnaps(listing, target, prefix), retain, works, host.snaps)
    {
      for i := 0 to |polls|
        invariant Valid() && world == old(world) && host.snaps == old(host.snaps)
        invariant Verdict(polls) == Verdict(polls[i..])
      {
        assert polls[i..][1..] == polls[i + 1..];
        match polls[i]
        case ContextDone =>
          StepInv(world, Stop(id));
          world := Next(world, Stop(id));
          return None;
        case NoRecord =>
          StepInv(world, Gone(id));
          world := Next(world, Gone(id));
          return RecordOf(NoRecord, jobId, snapshot, started, now);
        case Found(job) =>
          if job.status.Terminal() {
            FinishSeen(id, span, job.status, release, host, listing, target, retain, works);
            return RecordOf(Found(job), jobId, snapshot, started, now);
          }
      }
      return None;
    }

    /**
     * Waits for the job and records the run. The hold goes exactly when the job is seen terminal; the target is pruned
     * exactly when it succeeded; a wait that ends for another reason leaves the hold in place; and the task's history
     * gets exactly one record unless the context ended.
     */
    method AfterJob(id: RunId, span: Span, taskId: string, jobId: string, snapshot: string, started: nat, now: nat,
                    polls: seq<Poll>, release: bool, host: Host, listing: Listing, target: string, retain: int,
                    works: string -> bool, store: S.Store, room: nat, saved: bool)
      requires Valid() && InPhase(world, id, Watched) && world.runs[id].span == span && store.Valid()
      modifies this, host, store, store.repr
      ensures Valid() && store.Valid() && store.handed == old(store.handed)
      ensures Verdict(polls).None? ==> world == old(world) && host.snaps == old(host.snaps)
      ensures Verdict(polls).Some? ==> world == Next(old(world), StepOf(Verdict(polls).value, id, release))
      ensures Verdict(polls).Some? ==> InPhase(world, id, match Verdict(polls).value
        case ContextDone => Left(ContextEnded)
        case NoRecord => Left(RecordGone)
        case Found(_) => if release then Done else Left(ReleaseFailed))
      ensures holds == if Verdict(polls).Some? && Verdict(polls).value.Found? && release
        then old(holds) - Covered(span, old(holds)) else old(holds)
      ensures Verdict(polls).Some? && !Succeeded(Verdict(polls).value) ==> host.snaps == old(host.snaps)
      ensures Verdict(polls).Some? && Succeeded(Verdict(polls).value) ==>
        PrunedTo(old(host.snaps), TargetSnaps(listing, target, prefix), retain, works, host.snaps)
      ensures Verdict(polls).None? || Verdict(polls).value.ContextDone? ==> store.State() == old(store.State())
      ensures Verdict(polls).Some? && !Verdict(polls).value.ContextDone? ==>
        var rec := RecordOf(Verdict(polls).value, jobId, snapshot, started, now).value;
        store.State() == StoreSpec.Step(old(store.State()), StoreSpec.AppendRun(taskId, rec, saved))
    {
      var rec := AwaitJob(id, span, jobId, snapshot, started, now, polls, release, host, listing, target, retain,
                          works);
      if rec.Some? {
        var appended := store.AppendRun(taskId, rec.value, room, saved);
      }
    }

    /** The job is over: release, and prune after a success. */
    method FinishSeen(id: RunId, span: Span, status: J.Status, release: bool, host: Host, listing: Listing,
                      target: string, retain: int, works: string -> bool)
      requires Valid() && InPhase(world, id, Watched) && world.runs[id].span == span
      modifies this, host
      ensures Valid() && world == Next(old(world), Seen(id, release))
      ensures !status.Success? ==> host.snaps == old(host.snaps)
      ensures status.Success? ==>
        PrunedTo(old(host.snaps), TargetSnaps(listing, target, prefix), retain, works, host.snaps)
    {
      StepInv(world, Seen(id, release));
      ReleaseSnapshot(span, release);
      world := Next(world, Seen(id, release));
      if status.Success? {
        var destroyed, ok := PruneTarget(host, listing, target, prefix, retain, works);
        NothingToDo(old(host.snaps), works);
      }
    }

    // ---- Releasing ----

    /** The users' deletes: releases, recursively, whatever is named like one of ours. */
    method ReleaseHoldsFor(names: seq<string>, works: string -> bool)
      requires Valid()
      modifies this
      ensures Valid() && snaps == old(snaps) && world.runs == old(world.runs)
      ensures holds == Unnamed(old(holds), Freed(names, prefix, works))
    {
      NothingFreed(holds);
      for i := 0 to |names|
        invariant Valid() && snaps == old(snaps) && world.runs == old(world.runs)
        invariant holds == Unnamed(old(holds), Freed(names[..i], prefix, works))
      {
        FreedSnoc(old(holds), names, i, prefix, works);
        var at := IndexByte(names[i], '@');
        if at < 0 {
          continue;
        }
        var span := Span(names[i][..at], names[i][at + 1..], true);
        if !(prefix <= span.snap) {
          continue;
        }
        ReleaseNamed(span, works(names[i]));
      }
      assert names[..|names|] == names;
    }

    method ReleaseNamed(span: Span, works: bool)
      requires Valid() && span.recursive && prefix <= span.snap
      modifies this
      ensures Valid() && snaps == old(snaps) && world.runs == old(world.runs)
      ensures holds == if works then old(holds) - Covered(span, old(holds)) else old(holds)
    {
      if works {
        StepInv(world, UserRelease(span.ds, span.snap));
        world := Next(world, UserRelease(span.ds, span.snap));
      }
      ReleaseSnapshot(span, works);
    }

    /**
     * Startup: goes through every snapshot on the host. Where listing and releases work, no hold is left.
     */
    method ReleaseOrphanedHolds(listed: bool, names: seq<string>, works: string -> bool) returns (released: nat)
      requires Valid() && forall id :: id in world.runs ==> world.runs[id].phase.Done? || world.runs[id].phase.Left?
      requires AllNamed(names, snaps)
      modifies this
      ensures Valid() && snaps == old(snaps)
      ensures Enabled(old(world), Startup(Freed(names, prefix, works)))
      ensures world == if listed then Next(old(world), Startup(Freed(names, prefix, works))) else old(world)
      ensures listed && (forall i :: 0 <= i < |names| ==> works(names[i])) ==> holds == {}
      ensures released == if listed then |ReleasedOf(names, prefix, works, |names|)| else 0
    {
      released := 0;
      FreedAreOwn(names, snaps, prefix, works);
      if !listed {
        return;
      }
      var lines := Split(TrimSpace(Lines(names)), '\n');
      ListedNames(names, lines, prefix, works);
      released := ReleaseLines(lines, works);
      ghost var step := Startup(Freed(names, prefix, works));
      StepInv(world, step);
      AllCleared(world, names, works);
      world := Next(world, step);
    }

    /** The loop over the lines that were printed. */
    method ReleaseLines(lines: seq<string>, works: string -> bool) returns (released: nat)
      requires forall i :: 0 <= i < |lines| ==> lines[i] == "" || IsName(lines[i])
      modifies this`holds
      ensures holds == Unnamed(old(holds), Freed(lines, prefix, works))
      ensures released == |ReleasedOf(lines, prefix, works, |lines|)|
    {
      released := 0;
      NothingFreed(holds);
      for i := 0 to |lines|
        invariant holds == Unnamed(old(holds), Freed(lines[..i], prefix, works))
        invariant released == |ReleasedOf(lines, prefix, works, i)|
      {
        FreedSnoc(old(holds), lines, i, prefix, works);
        ReleasedSnoc(lines, prefix, works, i);
        var done := ReleaseLine(lines[i], works);
        if done {
          released := released + 1;
        }
      }
      assert lines[..|lines|] == lines;
    }

    method ReleaseLine(line: string, works: string -> bool) returns (done: bool)
      requires line == "" || IsName(line)
      modifies this`holds
      ensures done == ('@' in line && prefix <= SnapOf(line).snap && works(line))
      ensures holds == if done then old(holds) - Covered(Span(SnapOf(line).ds, SnapOf(line).snap, true), old(holds))
                       else old(holds)
    {
      if line == "" {
        return false;
      }
      ContainsAt(line, prefix);
      if !Contains(line, "@" + prefix) {
        return false;
      }
      var at := IndexByte(line, '@');
      ReleaseSnapshot(Span(line[..at], line[at + 1..], true), works(line));
      return works(line);
    }
  }

  predicate Succeeded(v: Poll) {
    v.Found? && v.job.status.Success?
  }

  // The step of the hold protocol that ends the wait.
  function StepOf(v: Poll, id: RunId, release: bool): Step {
    match v
    case ContextDone => Stop(id)
    case NoRecord => Gone(id)
    case Found(_) => Seen(id, release)
  }

  /** `after` is `before` without what a prune destroys, all of it or up to the first that could not be destroyed. */
  ghost predicate PrunedTo(before: seq<string>, all: Option<seq<string>>, retain: int, works: string -> bool,
                           after: seq<string>)
  {
    if all.None? then after == before
    else exists gone :: InOrder(before, Doomed(all.value, retain), gone, works) && after == Without(before, gone)
  }

  /** The own snapshots in a list of names whose release works. */
  function Freed(names: seq<string>, prefix: string, works: string -> bool): set<Snap> {
    if names == [] then {}
    else
      var front, n := Freed(names[..|names| - 1], prefix, works), names[|names| - 1];
      if '@' in n && prefix <= SnapOf(n).snap && works(n) then front + {SnapOf(n)} else front
  }

  predicate IsReleased(name: string, prefix: string, works: string -> bool) {
    '@' in name && prefix <= SnapOf(name).snap && works(name)
  }

  /** Which of the first n names are own snapshots whose release works. */
  function ReleasedOf(names: seq<string>, prefix: string, works: string -> bool, n: nat): set<int>
    requires n <= |names|
  {
    set i | 0 <= i < n && IsReleased(names[i], prefix, works)
  }

  lemma ReleasedSnoc(names: seq<string>, prefix: string, works: string -> bool, i: nat)
    requires i < |names|
    ensures |ReleasedOf(names, prefix, works, i + 1)| ==
      |ReleasedOf(names, prefix, works, i)| + if IsReleased(names[i], prefix, works) then 1 else 0
  {
    var now := ReleasedOf(names, prefix, works, i);
    assert ReleasedOf(names, prefix, works, i + 1) == now + if IsReleased(names[i], prefix, works) then {i} else {};
    assert i !in now;
  }

  /** What is held and is neither named nor below a named snapshot. */
  function Unnamed(holds: set<Snap>, names: set<Snap>): set<Snap> {
    set s | s in holds && !Named(names, s)
  }

  lemma ListedNames(names: seq<string>, lines: seq<string>, prefix: string, works: string -> bool)
    requires (forall i :: 0 <= i < |names| ==> IsName(names[i])) && lines == Split(TrimSpace(Lines(names)), '\n')
    ensures forall i :: 0 <= i < |lines| ==> lines[i] == "" || IsName(lines[i])
    ensures Freed(lines, prefix, works) == Freed(names, prefix, works)
    ensures |ReleasedOf(lines, prefix, works, |lines|)| == |ReleasedOf(names, prefix, works, |names|)|
  {
    LinesAreRead(names);
    if names == [] {
      assert lines[..0] == [];
      assert ReleasedOf(lines, prefix, works, 1) == {};
    }
  }

  lemma NothingFreed(holds: set<Snap>)
    ensures Unnamed(holds, {}) == holds
  {
  }

  lemma FreedSnoc(holds: set<Snap>, names: seq<string>, i: nat, prefix: string, works: string -> bool)
    requires i < |names|
    ensures var n := names[i];
      var before, after := Freed(names[..i], prefix, works), Freed(names[..i + 1], prefix, works);
      if '@' in n && prefix <= SnapOf(n).snap && works(n)
      then Unnamed(holds, after) ==
        Unnamed(holds, before) - Covered(Span(SnapOf(n).ds, SnapOf(n).snap, true), Unnamed(holds, before))
      else after == before
  {
    var n := names[i];
    var before, after := Freed(names[..i], prefix, works), Freed(names[..i + 1], prefix, works);
    var p := names[..i + 1];
    assert p[..i] == names[..i] && p[i] == n;
    if '@' in n && prefix <= SnapOf(n).snap && works(n) {
      NamedWithOne(before, SnapOf(n));
      assert after == before + {SnapOf(n)};
    }
  }

  lemma NamedWithOne(names: set<Snap>, n: Snap)
    ensures forall s :: Named(names + {n}, s) <==> Named(names, s) || Span(n.ds, n.snap, true).Covers(s)
  {
    forall s ensures Named(names + {n}, s) <==> Named(names, s) || Span(n.ds, n.snap, true).Covers(s) {
      if Named(names, s) {
        var m :| m in names && Span(m.ds, m.snap, true).Covers(s);
        assert m in names + {n};
      }
      assert n in names + {n};
    }
  }

  /** The list names every snapshot, and nothing else. */
  ghost predicate AllNamed(names: seq<string>, snaps: set<Snap>) {
    && (forall i :: 0 <= i < |names| ==> IsName(names[i]) && SnapOf(names[i]) in snaps)
    && (forall s :: s in snaps ==> Lists(names, s))
  }

  ghost predicate Lists(names: seq<string>, s: Snap) {
    exists i :: 0 <= i < |names| && IsName(names[i]) && SnapOf(names[i]) == s
  }

  lemma {:induction false} FreedAreOwn(names: seq<string>, snaps: set<Snap>, prefix: string, works: string -> bool)
    requires forall i :: 0 <= i < |names| ==> IsName(names[i]) && SnapOf(names[i]) in snaps
    ensures forall n :: n in Freed(names, prefix, works) ==> n in snaps && prefix <= n.snap
  {
    if names != [] {
      FreedAreOwn(names[..|names| - 1], snaps, prefix, works);
    }
  }

  lemma {:induction false} FreedHas(names: seq<string>, i: nat, prefix: string, works: string -> bool)
    requires i < |names| && IsName(names[i]) && prefix <= SnapOf(names[i]).snap && works(names[i])
    ensures SnapOf(names[i]) in Freed(names, prefix, works)
  {
    if i < |names| - 1 {
      FreedHas(names[..|names| - 1], i, prefix, works);
    }
  }

  lemma AllFreed(names: seq<string>, snaps: set<Snap>, prefix: string, works: string -> bool)
    requires AllNamed(names, snaps) && forall i :: 0 <= i < |names| ==> works(names[i])
    ensures forall n :: n in snaps && prefix <= n.snap ==> n in Freed(names, prefix, works)
  {
    forall n | n in snaps && prefix <= n.snap ensures n in Freed(names, prefix, works) {
      assert Lists(names, n);
      var i :| 0 <= i < |names| && IsName(names[i]) && SnapOf(names[i]) == n;
      FreedHas(names, i, prefix, works);
    }
  }

  lemma AllCleared(w: World, names: seq<string>, works: string -> bool)
    requires Inv(w) && AllNamed(names, w.snaps) && Enabled(w, Startup(Freed(names, w.prefix, works)))
    ensures (forall i :: 0 <= i < |names| ==> works(names[i])) ==>
      Next(w, Startup(Freed(names, w.prefix, works))).holds == {}
  {
    if forall i :: 0 <= i < |names| ==> works(names[i]) {
      AllFreed(names, w.snaps, w.prefix, works);
      StartupClears(w, Freed(names, w.prefix, works));
    }
  }

  /** How a run that holds its snapshot goes on: dispatched, or given up. */
  lemma AfterHold(w: World, id: RunId, span: Span, released: bool)
    requires Inv(w) && Enabled(w, Snapshot(id, span)) && Enabled(Next(w, Snapshot(id, span)), Hold(id))
    ensures var v := Next(Next(w, Snapshot(id, span)), Hold(id));
      && InPhase(v, id, Held) && v.runs[id].span == span
      && InPhase(Next(v, Dispatch(id)), id, Watched) && Made(span, w.datasets) <= Next(v, Dispatch(id)).holds
      && Next(v, Dispatch(id)).snaps == w.snaps + Made(span, w.datasets) && Next(v, Dispatch(id)).datasets == w.datasets
      && Next(v, Quit(id, released)).snaps == w.snaps + Made(span, w.datasets)
      && InPhase(Next(v, Quit(id, released)), id, if released then Done else Left(ReleaseFailed))
      && (released ==> Next(v, Quit(id, released)).holds == w.holds)
  {
    FreshlyHeld(w, id, span);
  }

  lemma FreshlyHeld(w: World, id: RunId, span: Span)
    requires Inv(w) && Enabled(w, Snapshot(id, span)) && Enabled(Next(w, Snapshot(id, span)), Hold(id))
    ensures var u := Next(Next(w, Snapshot(id, span)), Hold(id));
      Made(span, w.datasets) <= u.holds && u.holds - Covered(span, u.holds) == w.holds
  {
    var v := Next(w, Snapshot(id, span));
    forall s | s in w.holds ensures !span.Covers(s) {
      assert s !in Covered(span, v.holds);
    }
  }
}
