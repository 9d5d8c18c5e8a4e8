/**
 * The store object, with Go's slices: a slice shares its backing array with the slices it was cut from or
 * appended to, and copying a task copies the slice but not the array.
 */
module Store {
  import opened Text
  import opened ByTime
  import opened Tails
  import opened StoreSpec

  // arr[lo..hi]; the capacity reaches to the end of the array.
  datatype Slice = Slice(arr: array<RunRecord>, lo: nat, hi: nat) {
    predicate Valid() { lo <= hi <= arr.Length }

    function Contents(): seq<RunRecord>
      requires Valid()
      reads arr
    {
      arr[lo..hi]
    }
  }

  const NO_RECORD := RunRecord("", "", 0, 0, "", "")

  method Nil() returns (s: Slice)
    ensures fresh(s.arr) && s.Valid() && s.arr.Length == 0 && s.Contents() == []
  {
    var arr := new RunRecord[0];
    s := Slice(arr, 0, 0);
  }

  /** A slice over a new array with some spare room. */
  method NewSlice(records: seq<RunRecord>, room: nat) returns (s: Slice)
    ensures fresh(s.arr) && s.Valid() && s.Contents() == records
  {
    var arr := new RunRecord[|records| + room](i => if 0 <= i < |records| then records[i] else NO_RECORD);
    s := Slice(arr, 0, |records|);
    assert arr[0..|records|] == records;
  }

  /** Go's append: in place when the array has room, otherwise into a larger array. */
  method Append(s: Slice, rec: RunRecord, room: nat) returns (r: Slice)
    requires s.Valid()
    modifies s.arr
    ensures r.Valid() && r.Contents() == old(s.Contents()) + [rec]
    ensures s.hi < s.arr.Length ==> r == Slice(s.arr, s.lo, s.hi + 1)
    ensures s.hi == s.arr.Length ==> fresh(r.arr)
    ensures forall k :: 0 <= k < s.arr.Length && k != s.hi ==> s.arr[k] == old(s.arr[k])
  {
    if s.hi < s.arr.Length {
      s.arr[s.hi] := rec;
      r := Slice(s.arr, s.lo, s.hi + 1);
    } else {
      var n := s.hi - s.lo;
      var arr := new RunRecord[n + 1 + room](_ => NO_RECORD);
      for i := 0 to n
        invariant arr[..i] == s.arr[s.lo..s.lo + i]
        invariant s.arr[..] == old(s.arr[..])
      {
        arr[i] := s.arr[s.lo + i];
      }
      arr[n] := rec;
      assert arr[..n] == s.arr[s.lo..s.hi];
      r := Slice(arr, 0, n + 1);
    }
  }

  /** A task as the store holds it and as Get and List hand it out. */
  datatype TaskValue = TaskValue(config: Config, createdAt: Time, updatedAt: Time, lastRuns: Slice) {
    function Value(): Task
      requires lastRuns.Valid()
      reads lastRuns.arr
    {
      Task(config, createdAt, updatedAt, lastRuns.Contents())
    }
  }

  // A slice handed to a caller, with what it held then.
  datatype Handed = Handed(slice: Slice, contents: seq<RunRecord>)

  class Store {
    var tasks: map<Id, TaskValue>
    var file: map<Id, Task>
    ghost var mem: map<Id, Task>    // the tasks by value
    ghost var handed: seq<Handed>   // every history slice ever returned
    ghost var repr: set<array<RunRecord>>

    ghost function State(): Disk
      reads this
    {
      Disk(mem, file)
    }

    ghost predicate TaskOk(id: Id, t: TaskValue)
      reads this`mem, t.lastRuns.arr
    {
      t.lastRuns.Valid() && id in mem && mem[id] == t.Value()
    }

    /** What was handed out is unchanged. */
    ghost predicate Intact(h: Handed)
      reads h.slice.arr
    {
      h.slice.Valid() && h.slice.Contents() == h.contents
    }

    /** A handed slice ends no later than a live history in the same array. */
    ghost predicate Behind(h: Handed, t: TaskValue) {
      h.slice.arr == t.lastRuns.arr ==> h.slice.hi <= t.lastRuns.hi
    }

    /** Histories of two tasks are in different arrays, unless these have no room at all. */
    ghost predicate Separate(t: TaskValue, u: TaskValue) {
      t.lastRuns.arr == u.lastRuns.arr ==> t.lastRuns.arr.Length == 0
    }

    /** The history of t ends behind all handed slices and shares no room with other tasks. */
    ghost predicate Fits(id: Id, t: TaskValue)
      reads this
    {
      && (forall i :: 0 <= i < |handed| ==> Behind(handed[i], t))
      && (forall k :: k in tasks && k != id ==> Separate(tasks[k], t))
    }

    /** The invariant, but for the contents of one task's history. */
    ghost predicate ValidBut(skip: Option<Id>)
      reads this, repr
    {
      && tasks.Keys == mem.Keys
      && (forall id :: id in tasks ==> tasks[id].lastRuns.arr in repr && Fits(id, tasks[id]))
      && (forall id :: id in tasks && skip != Some(id) ==> TaskOk(id, tasks[id]))
      && (forall i :: 0 <= i < |handed| ==> handed[i].slice.arr in repr && Intact(handed[i]))
    }

    ghost predicate Valid()
      reads this, repr
    {
      ValidBut(None)
    }

    constructor ()
      ensures Valid() && fresh(repr) && State() == Disk(map[], map[]) && handed == []
    {
      tasks, file, mem, handed, repr := map[], map[], map[], [], {};
    }

    // ---- Steps that keep the invariant ----

    method Put(id: Id, t: TaskValue, ghost value: Task)
      requires ValidBut(Some(id)) && t.lastRuns.Valid() && Fits(id, t) && value == t.Value()
      modifies this`tasks, this`repr, this`mem
      ensures Valid() && tasks == old(tasks)[id := t] && mem == old(mem)[id := value]
      ensures t.lastRuns.arr in old(repr) ==> repr == old(repr)
      ensures t.lastRuns.arr !in old(repr) ==> repr == old(repr) + {t.lastRuns.arr}
    {
      tasks := tasks[id := t];
      if t.lastRuns.arr !in repr {
        repr := repr + {t.lastRuns.arr};
      }
      mem := mem[id := value];
      forall k | k in tasks ensures Fits(k, tasks[k]) && TaskOk(k, tasks[k]) {
        if k != id {
          assert old(Fits(k, tasks[k])) && old(TaskOk(k, tasks[k])) && Separate(tasks[k], t);
        }
      }
    }

    /** Puts back what an operation changed or removed whose save failed. */
    method PutBack(id: Id, t: TaskValue, ghost before: map<Id, Task>)
      requires Valid() && id in before && mem - {id} == before - {id}
      requires Fits(id, t) && t.lastRuns.arr in repr && t.lastRuns.Valid() && t.Value() == before[id]
      modifies this`tasks, this`repr, this`mem
      ensures Valid() && mem == before && repr == old(repr)
    {
      OwnFits(id);
      ghost var changed := mem;
      Put(id, t, before[id]);
      Mended(changed, before, id);
    }

    method Drop(id: Id)
      requires Valid()
      modifies this`tasks, this`mem
      ensures Valid() && tasks == old(tasks) - {id} && mem == old(mem) - {id}
      ensures id in old(tasks) ==> Fits(id, old(tasks)[id])
    {
      assert id in tasks ==> Fits(id, tasks[id]);
      tasks := tasks - {id};
      mem := mem - {id};
      forall k | k in tasks ensures Fits(k, tasks[k]) && TaskOk(k, tasks[k]) {
        assert old(Fits(k, tasks[k])) && old(TaskOk(k, tasks[k]));
      }
    }

    /** Hands a task's history out; from now on its contents may not change. */
    ghost method Expose(id: Id)
      requires Valid() && id in tasks
      modifies this`handed
      ensures Valid() && handed == old(handed) + [Handed(tasks[id].lastRuns, mem[id].runs)]
    {
      handed := handed + [Handed(tasks[id].lastRuns, mem[id].runs)];
      forall k | k in tasks ensures Fits(k, tasks[k]) {
        assert k != id ==> Separate(tasks[id], tasks[k]);
      }
    }

    /** Writes all tasks through a temporary file and a rename, which happens or not. */
    method Save(saved: bool)
      requires Valid()
      modifies this`file
      ensures Valid()
      ensures file == if saved then mem else old(file)
    {
      var out := map id | id in tasks :: tasks[id].Value();
      assert out == mem;
      if saved {
        file := out;
      }
    }

    /** The task's own slices fit, whatever else changes in it. */
    lemma OwnFits(id: Id)
      requires Valid()
      ensures ValidBut(Some(id)) && tasks.Keys == mem.Keys
      ensures id in tasks ==> Fits(id, tasks[id]) && TaskOk(id, tasks[id]) && tasks[id].lastRuns.arr in repr
    {
    }

    lemma SameRunsFit(id: Id, t: TaskValue, u: TaskValue)
      requires Fits(id, t) && u.lastRuns.arr == t.lastRuns.arr && u.lastRuns.hi == t.lastRuns.hi
      ensures Fits(id, u)
    {
      forall i | 0 <= i < |handed| ensures Behind(handed[i], u) {
        assert Behind(handed[i], t);
      }
      forall k | k in tasks && k != id ensures Separate(tasks[k], u) {
        assert Separate(tasks[k], t);
      }
    }

    lemma FreshFits(id: Id, t: TaskValue)
      requires Valid() && t.lastRuns.arr !in repr
      ensures Fits(id, t)
    {
    }

    // ---- The operations ----

    /** A copy of the task; its history slice shares the store's array. */
    method Get(id: Id) returns (r: Option<TaskValue>)
      requires Valid()
      modifies this`handed
      ensures Valid() && old(handed) <= handed
      ensures r.Some? <==> id in mem
      ensures r.Some? ==> TaskOk(id, r.value) && handed == old(handed) + [Handed(r.value.lastRuns, mem[id].runs)]
    {
      if id !in tasks {
        return None;
      }
      Expose(id);
      return Some(tasks[id]);
    }

    /** Reads the file into an empty store. */
    method Load(room: nat)
      requires Valid() && tasks == map[]
      modifies this
      ensures Valid() && handed == old(handed)
      ensures file == old(file) && State() == Disk(file, file)
    {
      var rest := file.Keys;
      assert mem == file - rest;
      while rest != {}
        invariant Valid() && file == old(file) && handed == old(handed)
        invariant rest <= file.Keys && mem == file - rest
        decreases |rest|
      {
        var id :| id in rest;
        LoadTask(id, room);
        OneMoreLoaded(file, rest, id);
        rest := rest - {id};
      }
      assert file - {} == file;
    }

    method LoadTask(id: Id, room: nat)
      requires Valid() && id in file
      modifies this`tasks, this`repr, this`mem
      ensures Valid() && mem == old(mem)[id := file[id]]
    {
      var on := file[id];
      var runs := NewSlice(on.runs, room);
      var t := TaskValue(on.config, on.createdAt, on.updatedAt, runs);
      FreshFits(id, t);
      OwnFits(id);
      Put(id, t, on);
    }

    /** Copies of all tasks, each once, ordered by creation time; every history slice is its task's own. */
    ghost predicate Lists(out: seq<(Id, TaskValue)>)
      reads this
    {
      && |out| == |mem|
      && (forall i :: 0 <= i < |out| ==> out[i].0 in tasks && out[i].1 == tasks[out[i].0])
      && (forall i, j :: 0 <= i < j < |out| ==> out[i].1.createdAt <= out[j].1.createdAt)
      && (forall id :: id in mem ==> exists i :: 0 <= i < |out| && out[i].0 == id)
    }

    method List() returns (out: seq<(Id, TaskValue)>)
      requires Valid()
      modifies this`handed
      ensures Valid() && Lists(out) && HandedOut(old(handed), out)
    {
      var times := map id | id in tasks :: tasks[id].createdAt;
      var items := Sorted(times);
      out := TakeAll(items);
      ListFacts(items, times, out);
    }

    lemma ListFacts(items: seq<Item>, times: map<Id, Time>, out: seq<(Id, TaskValue)>)
      requires tasks.Keys == mem.Keys
      requires times.Keys == tasks.Keys && forall id :: id in tasks ==> times[id] == tasks[id].createdAt
      requires ListsAll(items, times) && |out| == |items|
      requires forall i :: 0 <= i < |out| ==> items[i].0 in tasks && out[i] == (items[i].0, tasks[items[i].0])
      ensures Lists(out)
    {
      assert |times.Keys| == |times| && |mem.Keys| == |mem|;
      forall id | id in mem ensures exists i :: 0 <= i < |out| && out[i].0 == id {
        var i :| 0 <= i < |items| && items[i].0 == id;
        assert out[i].0 == id;
      }
    }

    /** Every history slice in the list is handed out, with its contents, and nothing else is. */
    ghost predicate HandedOut(before: seq<Handed>, out: seq<(Id, TaskValue)>)
      reads this
    {
      && |handed| == |before| + |out| && before <= handed
      && forall i :: 0 <= i < |out| ==> IsHanded(|before| + i, out[i].0, out[i].1)
    }

    ghost predicate IsHanded(n: nat, id: Id, t: TaskValue)
      reads this
    {
      n < |handed| && id in mem && handed[n] == Handed(t.lastRuns, mem[id].runs)
    }

    method TakeAll(items: seq<Item>) returns (out: seq<(Id, TaskValue)>)
      requires Valid() && forall i :: 0 <= i < |items| ==> items[i].0 in tasks
      modifies this`handed
      ensures Valid() && HandedOut(old(handed), out) && |out| == |items|
      ensures forall i :: 0 <= i < |out| ==> out[i] == (items[i].0, tasks[items[i].0])
    {
      out := [];
      for n := 0 to |items|
        invariant Valid() && HandedOut(old(handed), out) && |out| == n
        invariant forall i :: 0 <= i < n ==> out[i] == (items[i].0, tasks[items[i].0])
      {
        out := out + [(items[n].0, tasks[items[n].0])];
        Expose(items[n].0);
      }
    }

    method Create(id: Id, config: Config, now: Time, saved: bool) returns (r: Option<TaskValue>)
      requires Valid()
      modifies this
      ensures Valid() && old(handed) <= handed
      ensures forall a :: a in repr ==> a in old(repr) || fresh(a)
      ensures State() == Step(old(State()), StoreSpec.Create(id, config, now, saved))
      ensures r.Some? <==> saved
      ensures r.Some? ==> TaskOk(id, r.value) && handed == old(handed) + [Handed(r.value.lastRuns, mem[id].runs)]
    {
      var runs := Nil();
      var t := TaskValue(config, now, now, runs);
      ghost var before := mem;
      FreshFits(id, t);
      OwnFits(id);
      Put(id, t, Task(config, now, now, []));
      Save(saved);
      if !saved {
        Drop(id);
        Undone(before, id, Task(config, now, now, []));
        return None;
      }
      Expose(id);
      return Some(t);
    }

    method Update(id: Id, mutate: Config -> Config, now: Time, saved: bool) returns (r: Option<TaskValue>)
      requires Valid()
      modifies this
      ensures Valid() && repr == old(repr) && old(handed) <= handed
      ensures State() == Step(old(State()), StoreSpec.Update(id, mutate, now, saved))
      ensures r.Some? <==> saved && id in old(mem)
      ensures r.Some? ==> TaskOk(id, r.value) && handed == old(handed) + [Handed(r.value.lastRuns, mem[id].runs)]
    {
      OwnFits(id);
      if id !in tasks {
        return None;
      }
      var prev := tasks[id];
      ghost var before := mem;
      var t := prev.(config := mutate(prev.config), updatedAt := now);
      SameRunsFit(id, prev, t);
      ghost var wanted := Wanted(mem, StoreSpec.Update(id, mutate, now, saved));
      Put(id, t, before[id].(config := mutate(before[id].config), updatedAt := now));
      assert mem == wanted;
      Save(saved);
      if !saved {
        OwnFits(id);
        SameRunsFit(id, t, prev);
        PutBack(id, prev, before);
        return None;
      }
      Expose(id);
      return Some(t);
    }

    method Delete(id: Id, saved: bool) returns (ok: bool)
      requires Valid()
      modifies this
      ensures Valid() && repr == old(repr) && handed == old(handed)
      ensures State() == Step(old(State()), StoreSpec.Delete(id, saved))
      ensures ok == (saved && id in old(mem))
    {
      OwnFits(id);
      if id !in tasks {
        assert mem - {id} == mem;
        return false;
      }
      var t := tasks[id];
      ghost var before := mem;
      Drop(id);
      Save(saved);
      if !saved {
        PutBack(id, t, before);
        return false;
      }
      return true;
    }

    /**
     * Appends a run record and keeps the last MAX_RUN_HISTORY. Every history slice handed out before still holds
     * what it held: the one cell written lies behind all of them.
     */
    method AppendRun(id: Id, rec: RunRecord, room: nat, saved: bool) returns (ok: bool)
      requires Valid()
      modifies this, repr
      ensures Valid() && handed == old(handed)
      ensures forall a :: a in repr ==> a in old(repr) || fresh(a)
      ensures State() == Step(old(State()), StoreSpec.AppendRun(id, rec, saved))
      ensures ok == (saved && id in old(mem))
    {
      OwnFits(id);
      if id !in tasks {
        return false;
      }
      ghost var before, wanted := mem, Wanted(mem, StoreSpec.AppendRun(id, rec, saved));
      ghost var value := mem[id].(runs := Last(mem[id].runs + [rec], MAX_RUN_HISTORY));
      assert wanted == before[id := value];
      var s := ExtendHistory(id, rec, room);
      Put(id, tasks[id].(lastRuns := s), value);
      assert mem == wanted;
      Save(saved);
      return saved;
    }

    method ExtendHistory(id: Id, rec: RunRecord, room: nat) returns (s: Slice)
      requires Valid() && id in tasks
      modifies repr
      ensures ValidBut(Some(id))
      ensures s.Valid() && s.Contents() == Last(mem[id].runs + [rec], MAX_RUN_HISTORY)
      ensures s.arr in repr || fresh(s.arr)
      ensures Fits(id, tasks[id].(lastRuns := s))
    {
      s := Extend(id, rec, room);
      if s.hi - s.lo > MAX_RUN_HISTORY {
        var t := tasks[id].(lastRuns := s);
        s := Slice(s.arr, s.hi - MAX_RUN_HISTORY, s.hi);
        SameRunsFit(id, t, tasks[id].(lastRuns := s));
      }
    }

    /** The append itself: the array may change, but neither any other task nor anything handed out. */
    method Extend(id: Id, rec: RunRecord, room: nat) returns (s: Slice)
      requires Valid() && id in tasks
      modifies repr
      ensures ValidBut(Some(id))
      ensures s.Valid() && s.Contents() == mem[id].runs + [rec]
      ensures s.arr in repr || fresh(s.arr)
      ensures Fits(id, tasks[id].(lastRuns := s))
    {
      var t := tasks[id];
      assert Fits(id, t) && TaskOk(id, t);
      s := Append(t.lastRuns, rec, room);
      forall i | 0 <= i < |handed| ensures Intact(handed[i]) && Behind(handed[i], t.(lastRuns := s)) {
        assert Behind(handed[i], t) && old(Intact(handed[i]));
      }
      forall k | k in tasks && k != id ensures TaskOk(k, tasks[k]) && Separate(tasks[k], t.(lastRuns := s)) {
        assert Separate(tasks[k], t) && old(TaskOk(k, tasks[k]));
      }
    }
  }

  lemma Undone(m: map<Id, Task>, id: Id, v: Task)
    ensures m[id := v] - {id} == m - {id}
    ensures id in m ==> m[id := v][id := m[id]] == m && (m - {id})[id := m[id]] == m
  {
  }

  lemma Mended(changed: map<Id, Task>, before: map<Id, Task>, id: Id)
    requires id in before && changed - {id} == before - {id}
    ensures changed[id := before[id]] == before
  {
    forall k ensures k in changed[id := before[id]] <==> k in before {
      assert k in changed - {id} <==> k in before - {id};
    }
    forall k | k in before ensures changed[id := before[id]][k] == before[k] {
      if k != id {
        assert k in before - {id} && (changed - {id})[k] == (before - {id})[k];
      }
    }
  }

  lemma OneMoreLoaded(file: map<Id, Task>, rest: set<Id>, id: Id)
    requires id in rest && id in file
    ensures file - (rest - {id}) == (file - rest)[id := file[id]]
  {
  }
}
