/** Automatic snapshots: five buckets of snapshots per dataset, each pruned to its own count. */
module Autosnap {
  import opened Text
  import opened Filters
  import opened Tails
  import opened Labels
  import opened Snapshots

  datatype Bucket = Frequent | Hourly | Daily | Weekly | Monthly

  function BucketName(b: Bucket): string {
    match b
    case Frequent => "frequent"
    case Hourly => "hourly"
    case Daily => "daily"
    case Weekly => "weekly"
    case Monthly => "monthly"
  }

  const AUTO := "zfs-auto-snap_"

  function SnapshotPrefix(b: Bucket): string {
    AUTO + BucketName(b) + "-"
  }

  function BucketPrefix(dataset: string, b: Bucket): string {
    OwnPrefix(dataset, SnapshotPrefix(b))
  }

  // ---- Nobody's names are somebody else's ----

  /** No name starts with both. */
  ghost predicate Apart(p: string, q: string) {
    forall name :: !(HasPrefix(p)(name) && HasPrefix(q)(name))
  }

  lemma ApartAt(p: string, q: string, i: nat)
    requires i < |p| && i < |q| && p[i] != q[i]
    ensures Apart(p, q)
  {
    forall name ensures !(HasPrefix(p)(name) && HasPrefix(q)(name)) {
      if p <= name {
        assert name[i] == p[i];
      }
    }
  }

  /** The names of two buckets of a dataset, or of two datasets, are apart. */
  lemma BucketsApart(d: string, e: string, b: Bucket, c: Bucket)
    requires '@' !in d && '@' !in e && (d != e || b != c)
    ensures Apart(BucketPrefix(d, b), BucketPrefix(e, c))
  {
    var p, q := BucketPrefix(d, b), BucketPrefix(e, c);
    if d == e {
      var at := |d| + 1 + |AUTO|;
      assert p[at] == BucketName(b)[0] && q[at] == BucketName(c)[0];
      ApartAt(p, q, at);
    } else {
      DatasetsApart(d, e, SnapshotPrefix(b), SnapshotPrefix(c));
    }
  }

  lemma DatasetsApart(d: string, e: string, x: string, y: string)
    requires '@' !in d && '@' !in e && d != e
    ensures Apart(OwnPrefix(d, x), OwnPrefix(e, y))
  {
    var p, q := OwnPrefix(d, x), OwnPrefix(e, y);
    if |d| < |e| {
      assert p[|d|] == '@' && q[|d|] == e[|d|];
      ApartAt(p, q, |d|);
    } else if |e| < |d| {
      assert q[|e|] == '@' && p[|e|] == d[|e|];
      ApartAt(p, q, |e|);
    } else {
      var i := Differ(d, e);
      assert p[i] == d[i] && q[i] == e[i];
      ApartAt(p, q, i);
    }
  }

  lemma Differ(d: string, e: string) returns (i: nat)
    requires |d| == |e| && d != e
    ensures i < |d| && d[i] != e[i]
  {
    i :| 0 <= i < |d| && d[i] != e[i];
  }

  /** Names apart from p do not change when only names with p come and go. */
  lemma OthersUntouched(before: seq<string>, after: seq<string>, p: string, q: string)
    requires Foreign(before, p) == Foreign(after, p) && Apart(p, q)
    ensures Own(before, q) == Own(after, q)
  {
    OwnIsForeign(before, p, q);
    OwnIsForeign(after, p, q);
  }

  lemma OwnIsForeign(names: seq<string>, p: string, q: string)
    requires Apart(p, q)
    ensures Own(names, q) == Own(Foreign(names, p), q)
  {
    FilterTwice(names, LacksPrefix(p), HasPrefix(q));
    FilterAgree(names, Both(LacksPrefix(p), HasPrefix(q)), HasPrefix(q));
  }

  // ---- Properties of a dataset ----

  datatype Props = Props(master: string, frequent: string, hourly: string, daily: string, weekly: string,
                         monthly: string)

  /** A positive count, or the bucket is off. */
  function KeepFromValue(v: string): (keep: Option<nat>)
    ensures keep.Some? ==> 0 < keep.value <= MAX_INT && Atoi(v) == Some(keep.value)
    ensures keep.None? <==> Atoi(v).None? || Atoi(v).value <= 0
  {
    if v == "" || v == "-" then None
    else
      var n := Atoi(v);
      if n.None? || n.value <= 0 then None else Some(n.value)
  }

  /** Every positive count that fits is read back; nothing else switches a bucket on. */
  lemma KeepOfShow(n: nat)
    requires n <= MAX_INT
    ensures KeepFromValue(Show(n)) == if n > 0 then Some(n) else None
  {
    AtoiOfShow(n);
    assert IsDigit(Show(n)[0]);
  }

  function Setting(p: Props, b: Bucket): string {
    match b
    case Frequent => p.frequent
    case Hourly => p.hourly
    case Daily => p.daily
    case Weekly => p.weekly
    case Monthly => p.monthly
  }

  function EvalBucket(p: Props, b: Bucket): Option<nat> {
    if p.master != "true" then None else KeepFromValue(Setting(p, b))
  }

  /** The bucket is switched on by its own property, and that is the count it keeps. */
  predicate KeepsBy(p: Props, b: Bucket, keep: nat) {
    && 0 < keep <= MAX_INT
    && p.master == "true"
    && (b == Frequent ==> Atoi(p.frequent) == Some(keep))
    && (b == Hourly ==> Atoi(p.hourly) == Some(keep))
    && (b == Daily ==> Atoi(p.daily) == Some(keep))
    && (b == Weekly ==> Atoi(p.weekly) == Some(keep))
    && (b == Monthly ==> Atoi(p.monthly) == Some(keep))
  }

  lemma OnIff(p: Props, b: Bucket, keep: nat)
    ensures EvalBucket(p, b) == Some(keep) <==> KeepsBy(p, b, keep)
  {
  }

  /** With the master property `true` a printed count is kept by exactly the bucket whose property it is. */
  lemma OwnProperty(p: Props, n: nat)
    requires 0 < n <= MAX_INT
    ensures EvalBucket(p.(master := "true", frequent := Show(n)), Frequent) == Some(n)
    ensures EvalBucket(p.(master := "true", hourly := Show(n)), Hourly) == Some(n)
    ensures EvalBucket(p.(master := "true", daily := Show(n)), Daily) == Some(n)
    ensures EvalBucket(p.(master := "true", weekly := Show(n)), Weekly) == Some(n)
    ensures EvalBucket(p.(master := "true", monthly := Show(n)), Monthly) == Some(n)
  {
    KeepOfShow(n);
  }

  /** Whatever else is set does not matter to a bucket. */
  lemma OthersDoNotMatter(p: Props, b: Bucket, v: string)
    ensures b != Frequent ==> EvalBucket(p.(frequent := v), b) == EvalBucket(p, b)
    ensures b != Hourly ==> EvalBucket(p.(hourly := v), b) == EvalBucket(p, b)
    ensures b != Daily ==> EvalBucket(p.(daily := v), b) == EvalBucket(p, b)
    ensures b != Weekly ==> EvalBucket(p.(weekly := v), b) == EvalBucket(p, b)
    ensures b != Monthly ==> EvalBucket(p.(monthly := v), b) == EvalBucket(p, b)
    ensures v != "true" ==> EvalBucket(p.(master := v), b) == None
  {
  }

  // ---- Pruning ----

  /** What `zfs list -d 1` prints for a dataset, or that it failed. */
  function ListDataset(snaps: seq<string>, dataset: string, works: bool): Listing {
    if works then Printed(Lines(Own(snaps, dataset + "@"))) else Failed
  }

  lemma ListedBucket(snaps: seq<string>, dataset: string, b: Bucket)
    requires AreNames(snaps)
    ensures Own(Split(TrimSpace(ListDataset(snaps, dataset, true).out), '\n'), BucketPrefix(dataset, b)) ==
      Own(snaps, BucketPrefix(dataset, b))
  {
    var all, p := dataset + "@", BucketPrefix(dataset, b);
    FilterPasses(snaps, HasPrefix(all));
    forall k | 0 <= k < |Own(snaps, all)| ensures IsLine(Own(snaps, all)[k]) {
      var x := Own(snaps, all)[k];
      assert x in snaps;
    }
    ListingIsRead(Own(snaps, all), p);
    FilterTwice(snaps, HasPrefix(all), HasPrefix(p));
    assert all <= p;
    FilterAgree(snaps, Both(HasPrefix(all), HasPrefix(p)), HasPrefix(p));
  }

  method ListBucketSnapshots(listing: Listing, dataset: string, b: Bucket) returns (names: Option<seq<string>>)
    ensures names == SourceSnaps(listing, dataset, SnapshotPrefix(b))
  {
    if !listing.Printed? {
      return None;
    }
    var own := FilterReplSnaps(listing.out, BucketPrefix(dataset, b));
    return Some(own);
  }

  /**
   * Destroys all but the newest `keep`, oldest first. A failure is reported with a count of zero, whatever was
   * destroyed before it.
   */
  method PruneBucket(host: Host, listing: Listing, dataset: string, b: Bucket, keep: nat, works: string -> bool)
    returns (count: nat, ok: bool, ghost destroyed: seq<string>)
    modifies host
    ensures host.snaps == Without(old(host.snaps), destroyed)
    ensures count == if ok then |destroyed| else 0
    ensures !listing.Printed? ==> !ok && destroyed == []
    ensures listing.Printed? ==>
      var excess := Excess(SourceSnaps(listing, dataset, SnapshotPrefix(b)).value, keep);
      InOrder(old(host.snaps), excess, destroyed, works) && (ok <==> destroyed == excess)
  {
    NothingToDo(host.snaps, works);
    var list := ListBucketSnapshots(listing, dataset, b);
    if list.None? {
      return 0, false, [];
    }
    count, ok, destroyed := PruneNames(host, list.value, keep, works);
  }

  method PruneNames(host: Host, names: seq<string>, keep: nat, works: string -> bool)
    returns (count: nat, ok: bool, ghost destroyed: seq<string>)
    modifies host
    ensures host.snaps == Without(old(host.snaps), destroyed)
    ensures count == if ok then |destroyed| else 0
    ensures InOrder(old(host.snaps), Excess(names, keep), destroyed, works)
    ensures ok <==> destroyed == Excess(names, keep)
  {
    if |names| <= keep {
      NothingToDo(host.snaps, works);
      assert Excess(names, keep) == [];
      return 0, true, [];
    }
    var excess := names[..|names| - keep];
    assert excess == Excess(names, keep);
    var gone, done := DestroyAll(host, excess, works);
    return if done then |gone| else 0, done, gone;
  }

  /** The selection step by itself: a sorted copy of the excess. */
  method PruneSelection(sortedOldestFirst: seq<string>, keep: nat) returns (out: seq<string>)
    ensures out == SortStrings(Excess(sortedOldestFirst, keep))
    ensures StringOrder(sortedOldestFirst) ==> out == Excess(sortedOldestFirst, keep)
  {
    if |sortedOldestFirst| <= keep {
      return [];
    }
    var copied := sortedOldestFirst[..|sortedOldestFirst| - keep];
    out := SortStrings(copied);
    assert copied == Excess(sortedOldestFirst, keep);
    if StringOrder(sortedOldestFirst) {
      assert StringOrder(copied);
      SortOfSorted(copied);
    }
  }

  // ---- One tick of a bucket ----

  // The outcomes of the commands for one dataset.
  datatype Script = Script(snapshot: bool, list: bool, destroy: string -> bool)

  ghost predicate HostOk(snaps: seq<string>) {
    Distinct(snaps) && AreNames(snaps)
  }

  lemma AddOwn(snaps: seq<string>, p: string, name: string)
    requires p <= name
    ensures Own(snaps + [name], p) == Own(snaps, p) + [name] && Foreign(snaps + [name], p) == Foreign(snaps, p)
  {
    FilterConcat(snaps, [name], HasPrefix(p));
    FilterConcat(snaps, [name], LacksPrefix(p));
    FilterAll([name], HasPrefix(p));
    FilterNone([name], LacksPrefix(p));
  }

  /** A prune of the excess, as far as it came: the names of the bucket are those it had, less some from the old end. */
  lemma PrunedBucket(snaps: seq<string>, p: string, keep: nat, gone: seq<string>)
    requires HostOk(snaps) && gone <= Excess(Own(snaps, p), keep)
    ensures var after := Without(snaps, gone);
      && HostOk(after) && Foreign(after, p) == Foreign(snaps, p)
      && Own(after, p) == Own(snaps, p)[|gone|..]
      && Last(Own(after, p), keep) == Last(Own(snaps, p), keep)
      && (gone == Excess(Own(snaps, p), keep) ==> Own(after, p) == Last(Own(snaps, p), keep))
  {
    var own := Own(snaps, p);
    FilterDistinct(snaps, HasPrefix(p));
    FilterPasses(snaps, HasPrefix(p));
    StillOk(snaps, gone);
    FirstOfExcess(own, keep, gone);
    OnlyOwnGo(snaps, p, gone);
  }

  lemma FirstOfExcess(own: seq<string>, keep: nat, gone: seq<string>)
    requires Distinct(own) && gone <= Excess(own, keep)
    ensures Without(own, gone) == own[|gone|..] && Last(own[|gone|..], keep) == Last(own, keep)
    ensures gone == Excess(own, keep) ==> own[|gone|..] == Last(own, keep)
    ensures forall x :: x in gone ==> x in own
  {
    assert gone == own[..|gone|];
    FilterFirst(own, |gone|);
  }

  lemma StillOk(snaps: seq<string>, gone: seq<string>)
    requires HostOk(snaps)
    ensures HostOk(Without(snaps, gone))
  {
    FilterDistinct(snaps, NotIn(gone));
    FilterPasses(snaps, NotIn(gone));
    forall k | 0 <= k < |Without(snaps, gone)| ensures IsLine(Without(snaps, gone)[k]) {
      var x := Without(snaps, gone)[k];
      assert x in snaps;
    }
  }

  /** With every command working the listed excess is there to be destroyed. */
  lemma ExcessIsThere(snaps: seq<string>, p: string, keep: nat)
    requires HostOk(snaps)
    ensures Distinct(Excess(Own(snaps, p), keep))
    ensures forall x :: x in Excess(Own(snaps, p), keep) ==> x in snaps
  {
    FilterDistinct(snaps, HasPrefix(p));
    FilterPasses(snaps, HasPrefix(p));
    assert forall x :: x in Excess(Own(snaps, p), keep) ==> x in Own(snaps, p);
  }

  /** The outcomes let a prune go all the way. */
  ghost predicate Works(o: Script) {
    o.list && forall name :: o.destroy(name)
  }

  /**
   * What a tick makes of a bucket that has it on: one name more at its end, and then some less from its old end, but
   * never so many that fewer than `keep` are left, and exactly as many that `keep` are left if every command works.
   */
  predicate Ticked(before: seq<string>, after: seq<string>, name: string, keep: nat, all: bool) {
    && name !in before && |after| <= |before| + 1
    && after == (before + [name])[|before| + 1 - |after|..]
    && |after| >= |Last(before + [name], keep)|
    && (all ==> |after| == |Last(before + [name], keep)|)
  }

  /** The new snapshot is among those that stay. */
  lemma NewestStays(before: seq<string>, after: seq<string>, name: string, keep: nat, all: bool)
    requires Ticked(before, after, name, keep, all) && keep > 0
    ensures after != [] && after[|after| - 1] == name
    ensures Last(after, keep) == Last(before + [name], keep)
  {
  }

  /** One name more, and a prune as far as it came. */
  lemma OneTick(snaps: seq<string>, p: string, name: string, keep: nat, gone: seq<string>, all: bool)
    requires HostOk(snaps + [name]) && p <= name && name !in snaps && keep > 0
    requires gone <= Excess(Own(snaps + [name], p), keep) && (all ==> gone == Excess(Own(snaps + [name], p), keep))
    ensures var after := Without(snaps + [name], gone);
      && HostOk(after) && name in after && Foreign(after, p) == Foreign(snaps, p)
      && Ticked(Own(snaps, p), Own(after, p), name, keep, all)
      && |Own(after, p)| + |gone| == |Own(snaps, p)| + 1
  {
    var before, after := Own(snaps, p), Own(Without(snaps + [name], gone), p);
    AddOwn(snaps, p, name);
    PrunedBucket(snaps + [name], p, keep, gone);
    FilterPasses(snaps, HasPrefix(p));
    assert after == (before + [name])[|gone|..];
    NewestStays(before, after, name, keep, all);
    assert name in after;
    FilterPasses(Without(snaps + [name], gone), HasPrefix(p));
  }

  /**
   * One dataset: a new snapshot exactly if the bucket is on by its own property and the command works, then a prune,
   * which reports a count only if it went all the way.
   */
  method ProcessDataset(host: Host, dataset: string, props: Props, b: Bucket, snap: string, o: Script)
    returns (created: bool, pruned: nat)
    requires HostOk(host.snaps) && SnapshotPrefix(b) <= snap && IsLine(Name(dataset, snap))
    modifies host
    ensures HostOk(host.snaps)
    ensures created <==> EvalBucket(props, b).Some? && o.snapshot && Name(dataset, snap) !in old(host.snaps)
    ensures !created ==> host.snaps == old(host.snaps) && pruned == 0
    ensures created ==>
      var p, keep := BucketPrefix(dataset, b), EvalBucket(props, b).value;
      && KeepsBy(props, b, keep) && Name(dataset, snap) in host.snaps
      && Foreign(host.snaps, p) == Foreign(old(host.snaps), p)
      && Ticked(Own(old(host.snaps), p), Own(host.snaps, p), Name(dataset, snap), keep, pruned > 0 || Works(o))
      && (pruned > 0 ==> pruned == |Own(old(host.snaps), p)| + 1 - keep)
  {
    var keep := EvalBucket(props, b);
    if keep.None? {
      return false, 0;
    }
    OnIff(props, b, keep.value);
    created := o.snapshot && Name(dataset, snap) !in host.snaps;
    if !created {
      return false, 0;
    }
    host.snaps := host.snaps + [Name(dataset, snap)];
    pruned := PruneNewest(host, dataset, b, keep.value, Name(dataset, snap), o, host.snaps[..|host.snaps| - 1]);
  }

  /** The prune after a new snapshot. */
  method PruneNewest(host: Host, dataset: string, b: Bucket, keep: nat, name: string, o: Script,
                     ghost before: seq<string>)
    returns (pruned: nat)
    requires host.snaps == before + [name] && HostOk(host.snaps) && name !in before && keep > 0
    requires BucketPrefix(dataset, b) <= name
    modifies host
    ensures HostOk(host.snaps)
    ensures var p := BucketPrefix(dataset, b);
      && name in host.snaps && Foreign(host.snaps, p) == Foreign(before, p)
      && Ticked(Own(before, p), Own(host.snaps, p), name, keep, pruned > 0 || Works(o))
      && (pruned > 0 ==> |Own(host.snaps, p)| == keep && pruned == |Own(before, p)| + 1 - keep)
  {
    ghost var p, all := BucketPrefix(dataset, b), host.snaps;
    var listing := ListDataset(host.snaps, dataset, o.list);
    if o.list {
      ListedBucket(host.snaps, dataset, b);
    }
    var count, ok, destroyed := PruneBucket(host, listing, dataset, b, keep, o.destroy);
    if Works(o) {
      ExcessIsThere(all, p, keep);
      NothingStops(all, Excess(Own(all, p), keep), destroyed, o.destroy);
    }
    OneTick(before, p, name, keep, destroyed, count > 0 || Works(o));
    return count;
  }

  // ---- One tick of a bucket over all datasets ----

  // Whether the tick makes a snapshot of a dataset.
  predicate Creates(before: seq<string>, w: (string, Props), b: Bucket, snap: string, works: bool) {
    EvalBucket(w.1, b).Some? && works && Name(w.0, snap) !in before
  }

  /** What the tick makes of a dataset: Ticked with the count of its own property, or nothing. */
  ghost predicate Processed(before: seq<string>, after: seq<string>, w: (string, Props), b: Bucket, snap: string,
                            o: Script)
  {
    var p := BucketPrefix(w.0, b);
    if Creates(before, w, b, snap, o.snapshot) then
      var keep := EvalBucket(w.1, b).value;
      KeepsBy(w.1, b, keep) && Ticked(Own(before, p), Own(after, p), Name(w.0, snap), keep, Works(o))
    else Own(after, p) == Own(before, p)
  }

  /** The datasets of which the tick makes a snapshot. */
  function CreatedOf(before: seq<string>, work: seq<(string, Props)>, b: Bucket, snap: string,
                     scripts: seq<Script>, n: nat): set<int>
    requires n <= |scripts| == |work|
  {
    set i | 0 <= i < n && Creates(before, work[i], b, snap, scripts[i].snapshot)
  }

  // The datasets are those of a map, so none is there twice.
  predicate Datasets(work: seq<(string, Props)>) {
    && (forall i :: 0 <= i < |work| ==> '@' !in work[i].0)
    && (forall i, j :: 0 <= i < j < |work| ==> work[i].0 != work[j].0)
  }

  /** A bucket of a dataset that this tick does not process. */
  ghost predicate Elsewhere(work: seq<(string, Props)>, b: Bucket, e: string, c: Bucket) {
    '@' !in e && (c != b || forall i :: 0 <= i < |work| ==> work[i].0 != e)
  }

  ghost predicate SameBucket(before: seq<string>, now: seq<string>, e: string, c: Bucket) {
    Own(now, BucketPrefix(e, c)) == Own(before, BucketPrefix(e, c))
  }

  /** The first i datasets are processed, and all else is as it was. */
  ghost predicate Progress(before: seq<string>, now: seq<string>, work: seq<(string, Props)>, b: Bucket, snap: string,
                           scripts: seq<Script>, i: nat)
    requires i <= |work| == |scripts|
  {
    && (forall k :: 0 <= k < i ==> Processed(before, now, work[k], b, snap, scripts[k]))
    && (forall k :: i <= k < |work| ==> SameBucket(before, now, work[k].0, b))
    && (forall e, c :: Elsewhere(work, b, e, c) ==> SameBucket(before, now, e, c))
  }

  lemma NoProgress(before: seq<string>, work: seq<(string, Props)>, b: Bucket, snap: string, scripts: seq<Script>)
    requires |work| == |scripts|
    ensures Progress(before, before, work, b, snap, scripts, 0)
    ensures CreatedOf(before, work, b, snap, scripts, 0) == {}
  {
  }

  lemma OtherBucket(now: seq<string>, after: seq<string>, d: string, b: Bucket, e: string, c: Bucket)
    requires Foreign(after, BucketPrefix(d, b)) == Foreign(now, BucketPrefix(d, b))
    requires '@' !in d && '@' !in e && (d != e || b != c)
    ensures SameBucket(now, after, e, c)
  {
    BucketsApart(d, e, b, c);
    OthersUntouched(now, after, BucketPrefix(d, b), BucketPrefix(e, c));
  }

  /** What was processed before the bucket changed elsewhere is processed still. */
  lemma SameTick(before: seq<string>, now: seq<string>, w: (string, Props), b: Bucket, snap: string, o: Script)
    requires SameBucket(before, now, w.0, b) && SnapshotPrefix(b) <= snap
    ensures Creates(now, w, b, snap, o.snapshot) == Creates(before, w, b, snap, o.snapshot)
  {
    var p, name := BucketPrefix(w.0, b), Name(w.0, snap);
    assert p <= name;
    FilterIn(before, HasPrefix(p), name);
    FilterIn(now, HasPrefix(p), name);
  }

  lemma OneMoreDataset(before: seq<string>, now: seq<string>, after: seq<string>, work: seq<(string, Props)>,
                       b: Bucket, snap: string, scripts: seq<Script>, i: nat)
    requires i < |work| == |scripts| && Datasets(work) && SnapshotPrefix(b) <= snap
    requires Progress(before, now, work, b, snap, scripts, i)
    requires Processed(now, after, work[i], b, snap, scripts[i])
    requires Foreign(after, BucketPrefix(work[i].0, b)) == Foreign(now, BucketPrefix(work[i].0, b))
    ensures Progress(before, after, work, b, snap, scripts, i + 1)
    ensures Creates(now, work[i], b, snap, scripts[i].snapshot) ==
      Creates(before, work[i], b, snap, scripts[i].snapshot)
  {
    var d := work[i].0;
    assert SameBucket(before, now, d, b);
    SameTick(before, now, work[i], b, snap, scripts[i]);
    forall k | 0 <= k < |work| && k != i ensures SameBucket(now, after, work[k].0, b) {
      OtherBucket(now, after, d, b, work[k].0, b);
    }
    forall k | 0 <= k < i ensures Processed(before, after, work[k], b, snap, scripts[k]) {
      assert Processed(before, now, work[k], b, snap, scripts[k]) && SameBucket(now, after, work[k].0, b);
    }
    forall e, c | Elsewhere(work, b, e, c) ensures SameBucket(before, after, e, c) {
      OtherBucket(now, after, d, b, e, c);
    }
  }

  lemma CreatedSnoc(before: seq<string>, work: seq<(string, Props)>, b: Bucket, snap: string, scripts: seq<Script>,
                    i: nat)
    requires i < |work| == |scripts|
    ensures |CreatedOf(before, work, b, snap, scripts, i + 1)| ==
      |CreatedOf(before, work, b, snap, scripts, i)| +
      if Creates(before, work[i], b, snap, scripts[i].snapshot) then 1 else 0
  {
    var now := CreatedOf(before, work, b, snap, scripts, i);
    assert CreatedOf(before, work, b, snap, scripts, i + 1) ==
      now + if Creates(before, work[i], b, snap, scripts[i].snapshot) then {i} else {};
    assert i !in now;
  }

  /** The tick comes to the next dataset. */
  method ProcessNext(host: Host, work: seq<(string, Props)>, b: Bucket, snap: string, scripts: seq<Script>, i: nat,
                     ghost before: seq<string>)
    returns (made: bool, count: nat)
    requires i < |work| == |scripts| && HostOk(host.snaps) && SnapshotPrefix(b) <= snap && Datasets(work)
    requires IsLine(Name(work[i].0, snap)) && Progress(before, host.snaps, work, b, snap, scripts, i)
    modifies host
    ensures HostOk(host.snaps) && Progress(before, host.snaps, work, b, snap, scripts, i + 1)
    ensures made == Creates(before, work[i], b, snap, scripts[i].snapshot)
  {
    ghost var now := host.snaps;
    made, count := ProcessDataset(host, work[i].0, work[i].1, b, snap, scripts[i]);
    OneMoreDataset(before, now, host.snaps, work, b, snap, scripts, i);
  }

  /**
   * A whole tick, one script per dataset: whatever fails for the others, each dataset is processed with the count of
   * its own property; other buckets, and datasets that have this one off, keep their snapshots.
   */
  method ProcessBucket(host: Host, work: seq<(string, Props)>, b: Bucket, snap: string, scripts: seq<Script>)
    returns (created: nat, pruned: nat)
    requires |scripts| == |work| && HostOk(host.snaps) && SnapshotPrefix(b) <= snap && Datasets(work)
    requires forall i :: 0 <= i < |work| ==> IsLine(Name(work[i].0, snap))
    modifies host
    ensures HostOk(host.snaps)
    ensures Progress(old(host.snaps), host.snaps, work, b, snap, scripts, |work|)
    ensures created == |CreatedOf(old(host.snaps), work, b, snap, scripts, |work|)|
  {
    created, pruned := 0, 0;
    ghost var before := host.snaps;
    NoProgress(before, work, b, snap, scripts);
    for i := 0 to |work|
      invariant HostOk(host.snaps) && Progress(before, host.snaps, work, b, snap, scripts, i)
      invariant created == |CreatedOf(before, work, b, snap, scripts, i)|
    {
      CreatedSnoc(before, work, b, snap, scripts, i);
      var made, count := ProcessNext(host, work, b, snap, scripts, i, before);
      if made {
        created, pruned := created + 1, pruned + count;
      }
    }
  }
}
