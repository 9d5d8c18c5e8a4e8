/** The job manager object of internal/jobs/manager.go, one critical section a method, proved against JobSpec. */
module Jobs {
  import opened ByTime
  import opened JobSpec

  class Entry {
    const id: Id
    var job: Job

    constructor (id: Id, job: Job)
      ensures this.id == id && this.job == job
    {
      this.id, this.job := id, job;
    }

    /** The locked part of finish. */
    method SetFinal(o: Outcome, now: Time)
      modifies this
      ensures EndedBy(old(job), job, o, now)
      ensures job == FinishJob(old(job), o, now)
    {
      job := job.(finishedAt := now);
      if job.status.Cancelled? {
        if o.ExitCode? {
          job := job.(exitCode := o.code);
        }
      } else if o.Clean? {
        job := job.(status := Success, exitCode := 0);
      } else {
        job := job.(status := Failed);
        if o.ExitCode? {
          job := job.(exitCode := o.code);
        } else {
          job := job.(exitCode := -1);
        }
        job := job.(error := o.text);
      }
    }
  }

  datatype CancelResult = NotFound | Already(status: Status) | Signalled

  // How a record write ends: before the temporary file is complete, before the rename, or in place.
  datatype WriteEnd = TempFailed | RenameFailed | InPlace

  function WithoutRecords(dir: map<FileName, Content>, ids: set<Id>): map<FileName, Content> {
    map f | f in dir && !(f.Record? && f.id in ids) :: dir[f]
  }

  lemma OneRecordLess(dir: map<FileName, Content>, ids: set<Id>, id: Id)
    ensures WithoutRecords(dir, ids + {id}) == WithoutRecords(dir, ids) - {Record(id)}
  {
  }

  function AfterWrite(dir: map<FileName, Content>, id: Id, j: Job, end: WriteEnd): map<FileName, Content> {
    if end.InPlace? then dir[Record(id) := Whole(j)] - {Temp(id)}
    else dir[Temp(id) := if end.TempFailed? then Torn else Whole(j)]
  }

  /** The finish times of the terminal jobs. */
  ghost function DoneOf(entries: map<Id, Entry>): map<Id, Time>
    reads entries.Values
  {
    map id | id in entries && entries[id].job.status.Terminal() :: entries[id].job.finishedAt
  }

  /** The first of the sorted finished jobs are what a prune is to drop. */
  lemma FirstArePruned(keys: set<Id>, done: seq<Item>, excess: nat, times: map<Id, Time>, retain: nat)
    requires SortedByTime(done) && TimesFrom(done, times) && IdsOf(done) == times.Keys <= keys && DistinctIds(done)
    requires |keys| > retain && excess == if |keys| - retain < |done| then |keys| - retain else |done|
    ensures IsPrune(keys, times, retain, IdsOf(done[..excess]))
  {
    var dropped := IdsOf(done[..excess]);
    PrefixDistinct(done, excess, times);
    assert |times| == |times.Keys| == |done|;
    forall d, k | d in dropped && k in times && k !in dropped ensures times[d] <= times[k] {
      OldestFirst(done, excess, times, d, k);
    }
  }

  class Manager {
    const retain: nat
    var entries: map<Id, Entry>
    var dir: map<FileName, Content>

    ghost predicate Valid()
      reads this
    {
      forall id :: id in entries ==> entries[id].id == id
    }

    ghost function Jobs(): map<Id, Job>
      reads this, entries.Values
    {
      map id | id in entries :: entries[id].job
    }

    constructor (retain: nat, dir: map<FileName, Content>)
      ensures Valid() && this.retain == retain && this.dir == dir && entries == map[]
    {
      this.retain, this.dir, entries := retain, dir, map[];
    }

    method Cancel(id: Id) returns (r: CancelResult)
      requires Valid()
      modifies entries.Values
      ensures Valid() && entries == old(entries) && dir == old(dir)
      ensures r == if id !in old(Jobs()) then NotFound
                   else if old(Jobs())[id].status.Terminal() then Already(old(Jobs())[id].status) else Signalled
      ensures Jobs() == if r.Signalled? then old(Jobs())[id := old(Jobs())[id].(status := Cancelled)] else old(Jobs())
    {
      if id !in entries {
        return NotFound;
      }
      var e := entries[id];
      if e.job.status.Terminal() {
        return Already(e.job.status);
      }
      e.job := e.job.(status := Cancelled);
      return Signalled;
    }

    /** Removes a terminal job and, if the system call succeeds, its record file. */
    method Remove(id: Id, unlinked: bool) returns (removed: bool)
      requires Valid()
      modifies this
      ensures Valid() && Jobs() == if removed then old(Jobs()) - {id} else old(Jobs())
      ensures removed <==> id in old(Jobs()) && old(Jobs())[id].status.Terminal()
      ensures dir == if removed && unlinked then old(dir) - {Record(id)} else old(dir)
    {
      if id !in entries || !entries[id].job.status.Terminal() {
        return false;
      }
      entries := entries - {id};
      if unlinked {
        dir := dir - {Record(id)};
      }
      return true;
    }

    /** Temporary file, then rename: whatever fails, a record in place is the old one or the whole new one. */
    method WriteRecord(id: Id, j: Job, end: WriteEnd)
      modifies this`dir
      ensures dir == AfterWrite(old(dir), id, j, end)
      ensures end == InPlace ==> Record(id) in dir && dir[Record(id)] == Whole(j) && Temp(id) !in dir
      ensures end != InPlace ==> (Record(id) in dir <==> Record(id) in old(dir))
      ensures end != InPlace && Record(id) in dir ==> dir[Record(id)] == old(dir)[Record(id)]
      ensures dir - {Record(id), Temp(id)} == old(dir) - {Record(id), Temp(id)}
      ensures forall k :: Record(k) in dir && dir[Record(k)] == Torn ==>
        Record(k) in old(dir) && old(dir)[Record(k)] == Torn
    {
      dir := dir[Temp(id) := Torn];
      if end.TempFailed? {
        return;
      }
      dir := dir[Temp(id) := Whole(j)];
      if end.RenameFailed? {
        return;
      }
      dir := dir[Record(id) := dir[Temp(id)]] - {Temp(id)};
    }

    ghost function DoneTimes(): map<Id, Time>
      reads this, entries.Values
    {
      DoneOf(entries)
    }

    /** The terminal jobs with their finish times, in map order. */
    method CollectDone() returns (done: seq<Item>)
      requires Valid()
      ensures TimesFrom(done, DoneTimes()) && IdsOf(done) == DoneTimes().Keys && DistinctIds(done)
    {
      var rest := entries.Keys;
      done := [];
      ghost var times := DoneTimes();
      NoItems(times, rest);
      while rest != {}
        invariant rest <= entries.Keys && ItemsBut(done, times, rest)
        decreases |rest|
      {
        var id :| id in rest;
        TakeItem(done, times, rest, id);
        var e := entries[id];
        if e.job.status.Terminal() {
          done := done + [(id, e.job.finishedAt)];
        }
        rest := rest - {id};
      }
      AllItems(done, times);
    }

    /** Drops the oldest finished jobs above the retention limit, with their record files. */
    method PruneLocked() returns (ghost dropped: set<Id>)
      requires Valid()
      modifies this
      ensures Valid() && IsPrune(old(entries.Keys), old(DoneTimes()), retain, dropped)
      ensures entries == old(entries) - dropped
      ensures dir == WithoutRecords(old(dir), dropped)
    {
      dropped := {};
      if |entries| <= retain {
        return;
      }
      var done := CollectDone();
      ghost var times := DoneTimes();
      SortKeeps(done, times);
      done := SortByTime(done);
      assert |times| == |times.Keys| == |done|;
      var excess := |entries| - retain;
      if excess > |done| {
        excess := |done|;
      }
      DropFirst(done, excess, times);
      dropped := IdsOf(done[..excess]);
      FirstArePruned(old(entries.Keys), done, excess, times, retain);
    }

    /** The deletion loop of a prune. */
    method DropFirst(done: seq<Item>, n: nat, ghost times: map<Id, Time>)
      requires Valid() && n <= |done| && DistinctIds(done) && TimesFrom(done, times)
      modifies this
      ensures Valid() && entries == old(entries) - IdsOf(done[..n])
      ensures dir == WithoutRecords(old(dir), IdsOf(done[..n]))
    {
      for i := 0 to n
        invariant Valid() && entries == old(entries) - IdsOf(done[..i])
        invariant dir == WithoutRecords(old(dir), IdsOf(done[..i]))
      {
        var id := done[i].0;
        FirstItems(done, i, times);
        OneRecordLess(old(dir), IdsOf(done[..i]), id);
        entries := entries - {id};
        dir := dir - {Record(id)};
      }
    }

    /**
     * The end of a job's supervisor, uninterrupted: the final status, its record file, and a prune that sees the job
     * finished.
     */
    method Finish(e: Entry, o: Outcome, now: Time, end: WriteEnd) returns (ghost dropped: set<Id>)
      requires Valid() && now > 0
      modifies this, e
      ensures Valid() && EndedBy(old(e.job), e.job, o, now) && e.job == FinishJob(old(e.job), o, now)
      ensures entries == old(entries) - dropped
      ensures IsPrune(old(entries.Keys), DoneOf(old(entries)), retain, dropped)
      ensures dir == WithoutRecords(AfterWrite(old(dir), e.id, e.job, end), dropped)
    {
      e.SetFinal(o, now);
      WriteRecord(e.id, e.job, end);
      dropped := PruneLocked();
    }

    /** The record as it is shown after a restart; a record of an unfinished job is rewritten first. */
    method LoadOne(id: Id, now: Time) returns (j: Job)
      requires Record(id) in dir && dir[Record(id)].Whole?
      modifies this`dir
      ensures j == Recover(old(dir)[Record(id)].job, now)
      ensures dir == if Resumed(old(dir), id) then old(dir)[Record(id) := Whole(j)] - {Temp(id)} else old(dir)
    {
      j := dir[Record(id)].job;
      if j.status.Running? || j.status.Pending? {
        j := j.(status := Interrupted);
        if j.finishedAt == 0 {
          j := j.(finishedAt := now);
        }
        if j.error == "" {
          j := j.(error := RESTARTED);
        }
        WriteRecord(id, j, InPlace);
      }
    }

    /** The records outside `rest` have been read into entries, and rewritten where that was needed. */
    ghost predicate LoadedSoFar(disk: map<FileName, Content>, loaded: map<Id, Job>, rest: set<Id>)
      reads this, entries.Values
    {
      && Valid()
      && entries.Keys == loaded.Keys - rest
      && (forall id :: id in entries ==> entries[id].job == loaded[id])
      && dir == Rewritten(disk, loaded - rest, {})
    }

    method LoadNext(id: Id, now: Time, ghost disk: map<FileName, Content>, ghost loaded: map<Id, Job>,
                    ghost rest: set<Id>)
      requires LoadedSoFar(disk, loaded, rest)
      requires id in rest && id in loaded && id in Records(disk) && loaded[id] == Recover(disk[Record(id)].job, now)
      modifies this
      ensures LoadedSoFar(disk, loaded, rest - {id})
    {
      RewriteOneMore(disk, loaded, rest, id);
      var j := LoadOne(id, now);
      var e := new Entry(id, j);
      entries := entries[id := e];
    }

    method LoadAll(now: Time, ghost loaded: map<Id, Job>)
      requires Valid() && entries == map[] && loaded == Loaded(dir, now)
      modifies this
      ensures LoadedSoFar(old(dir), loaded, {})
    {
      ghost var disk := dir;
      var rest := Records(dir);
      RewriteNothing(disk, loaded);
      while rest != {}
        invariant rest <= loaded.Keys == Records(disk)
        invariant LoadedSoFar(disk, loaded, rest)
        decreases |rest|
      {
        var id :| id in rest;
        LoadNext(id, now, disk, loaded, rest);
        rest := rest - {id};
      }
    }

    /** Reads the record files back, rewriting those of unfinished jobs, and prunes. */
    method LoadFromDisk(now: Time) returns (ghost dropped: set<Id>)
      requires Valid() && entries == map[] && now > 0
      modifies this
      ensures Valid() && CanBoot(retain, old(dir), now, dropped)
      ensures Jobs() == Boot(retain, old(dir), now, dropped).jobs
      ensures dir == Boot(retain, old(dir), now, dropped).disk
    {
      ghost var loaded := Loaded(dir, now);
      LoadAll(now, loaded);
      AllLoaded(old(dir), loaded);
      dropped := PruneLoaded(loaded);
      BootIsLoadThenPrune(retain, old(dir), now, dropped);
    }

    /** The prune at startup, when every entry is finished. */
    method PruneLoaded(ghost loaded: map<Id, Job>) returns (ghost dropped: set<Id>)
      requires Valid() && entries.Keys == loaded.Keys && forall id :: id in entries ==> entries[id].job == loaded[id]
      requires DoneTimes() == FinishTimes(loaded)
      modifies this
      ensures Valid() && IsPrune(loaded.Keys, FinishTimes(loaded), retain, dropped)
      ensures Jobs() == loaded - dropped && dir == WithoutRecords(old(dir), dropped)
    {
      dropped := PruneLocked();
      Shows(loaded - dropped);
    }

    lemma Shows(jobs: map<Id, Job>)
      requires entries.Keys == jobs.Keys && forall id :: id in entries ==> entries[id].job == jobs[id]
      ensures Jobs() == jobs
    {
    }

    lemma AllLoaded(disk: map<FileName, Content>, loaded: map<Id, Job>)
      requires LoadedSoFar(disk, loaded, {}) && forall id :: id in loaded ==> loaded[id].status.Terminal()
      ensures entries.Keys == loaded.Keys && forall id :: id in entries ==> entries[id].job == loaded[id]
      ensures DoneTimes() == FinishTimes(loaded)
      ensures dir == Rewritten(disk, loaded, {})
    {
      assert loaded - {} == loaded;
    }
  }

  lemma BootIsLoadThenPrune(retain: nat, disk: map<FileName, Content>, now: Time, dropped: set<Id>)
    requires IsPrune(Loaded(disk, now).Keys, FinishTimes(Loaded(disk, now)), retain, dropped)
    ensures Boot(retain, disk, now, dropped).jobs == Loaded(disk, now) - dropped
    ensures Boot(retain, disk, now, dropped).disk == WithoutRecords(Rewritten(disk, Loaded(disk, now), {}), dropped)
  {
    RewriteThenDrop(disk, Loaded(disk, now), dropped);
  }

  lemma RewriteNothing(disk: map<FileName, Content>, loaded: map<Id, Job>)
    ensures Rewritten(disk, loaded - loaded.Keys, {}) == disk
  {
  }

  lemma RewriteOneMore(disk: map<FileName, Content>, loaded: map<Id, Job>, rest: set<Id>, id: Id)
    requires id in rest && id in loaded && id in Records(disk)
    requires !Resumed(disk, id) ==> loaded[id] == disk[Record(id)].job
    ensures var r := Rewritten(disk, loaded - rest, {});
      && Record(id) in r && r[Record(id)] == disk[Record(id)] && disk[Record(id)].Whole?
      && (Resumed(r, id) <==> Resumed(disk, id))
      && Rewritten(disk, loaded - (rest - {id}), {}) ==
           if Resumed(disk, id) then r[Record(id) := Whole(loaded[id])] - {Temp(id)} else r
  {
    var r, r' := Rewritten(disk, loaded - rest, {}), Rewritten(disk, loaded - (rest - {id}), {});
    assert Record(id) in disk;
    var wanted := if Resumed(disk, id) then r[Record(id) := Whole(loaded[id])] - {Temp(id)} else r;
    forall f ensures f in r' <==> f in wanted {
      if f.id == id {
        assert f == Record(id) || f == Temp(id);
      }
    }
    forall f | f in r' ensures r'[f] == wanted[f] {
      if f.id == id {
        assert f == Record(id) || f == Temp(id);
      }
    }
  }

  lemma RewriteThenDrop(disk: map<FileName, Content>, loaded: map<Id, Job>, dropped: set<Id>)
    ensures WithoutRecords(Rewritten(disk, loaded, {}), dropped) == Rewritten(disk, loaded, dropped)
  {
  }
}
