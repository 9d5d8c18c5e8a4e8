/**
 * The snapshots that replication and auto-snapshot runs own on a host: listing them, the base of an incremental send,
 * and destroying the oldest beyond a retention count.
 */
module Snapshots {
  import opened Text
  import opened Filters
  import opened Tails
  import opened Labels

  function Name(dataset: string, snap: string): string {
    dataset + "@" + snap
  }

  // Everything a name filter compares with: `dataset@prefix`.
  function OwnPrefix(dataset: string, prefix: string): (p: string)
    ensures p != ""
  {
    dataset + "@" + prefix
  }

  function HasPrefix(p: string): string -> bool {
    n => p <= n
  }

  function LacksPrefix(p: string): string -> bool {
    n => !(p <= n)
  }

  function Own(names: seq<string>, p: string): seq<string> {
    Filter(names, HasPrefix(p))
  }

  function Foreign(names: seq<string>, p: string): seq<string> {
    Filter(names, LacksPrefix(p))
  }

  // ---- Reading the output of `zfs list` ----

  /** The names with the prefix, in listing order. */
  method FilterReplSnaps(out: string, p: string) returns (names: seq<string>)
    requires p != ""
    ensures names == Own(Split(TrimSpace(out), '\n'), p)
  {
    var lines := Split(TrimSpace(out), '\n');
    names := [];
    for i := 0 to |lines|
      invariant names == Own(lines[..i], p)
    {
      OwnSnoc(lines, i, p);
      var s := lines[i];
      if s == "" {
        continue;
      }
      if p <= s {
        names := names + [s];
      }
    }
    assert lines[..|lines|] == lines;
  }

  lemma OwnSnoc(lines: seq<string>, i: nat, p: string)
    requires i < |lines|
    ensures Own(lines[..i + 1], p) == Own(lines[..i], p) + if p <= lines[i] then [lines[i]] else []
  {
    assert lines[..i + 1][..i] == lines[..i];
  }

  // What the command prints: one name a line.
  function Lines(names: seq<string>): string {
    if names == [] then "" else Join(names, '\n') + "\n"
  }

  // One line of a listing; spaces inside a name are allowed.
  predicate IsLine(name: string) {
    IsTrimmed(name) && '\n' !in name
  }

  predicate AreNames(names: seq<string>) {
    forall k :: 0 <= k < |names| ==> IsLine(names[k])
  }

  lemma TrimNewline(s: string)
    requires IsTrimmed(s)
    ensures TrimSpace(s + "\n") == s
  {
    var t := s + "\n";
    assert t[0] == s[0] && TrimLeft(t) == t;
    assert t[..|t| - 1] == s && TrimRight(t) == TrimRight(s) == s;
  }

  lemma LinesAreRead(names: seq<string>)
    requires AreNames(names)
    ensures Split(TrimSpace(Lines(names)), '\n') == if names == [] then [""] else names
  {
    if names == [] {
      assert Split("", '\n') == [""];
    } else {
      var s := Join(names, '\n');
      forall k | 0 <= k < |names| ensures IsTrimmed(names[k]) && '\n' !in names[k] {
        assert IsLine(names[k]);
      }
      JoinIsTrimmed(names, '\n');
      TrimNewline(s);
      SplitOfJoin(names, '\n');
    }
  }

  /** Reading what was printed gives back the own names, and nothing for an empty listing. */
  lemma ListingIsRead(names: seq<string>, p: string)
    requires AreNames(names) && p != ""
    ensures Own(Split(TrimSpace(Lines(names)), '\n'), p) == Own(names, p)
  {
    LinesAreRead(names);
    assert Own([""], p) == [] by { assert [""][..0] == []; }
  }

  // ---- sort.Strings ----

  ghost predicate Sorted(s: seq<string>) {
    forall i, j :: 0 <= i < j < |s| ==> LessEq(s[i], s[j])
  }

  function Insert(s: seq<string>, x: string): (r: seq<string>)
    ensures multiset(r) == multiset(s) + multiset{x} && |r| == |s| + 1
  {
    if s == [] || !Less(x, s[|s| - 1]) then s + [x]
    else
      assert s == s[..|s| - 1] + [s[|s| - 1]];
      Insert(s[..|s| - 1], x) + [s[|s| - 1]]
  }

  function SortStrings(s: seq<string>): (r: seq<string>)
    ensures multiset(r) == multiset(s) && |r| == |s|
  {
    if s == [] then []
    else
      assert s == s[..|s| - 1] + [s[|s| - 1]];
      Insert(SortStrings(s[..|s| - 1]), s[|s| - 1])
  }

  lemma {:induction false} InsertKeepsSorted(s: seq<string>, x: string)
    requires Sorted(s)
    ensures Sorted(Insert(s, x))
  {
    if s == [] {
    } else if Less(x, s[|s| - 1]) {
      var front, last := s[..|s| - 1], s[|s| - 1];
      InsertKeepsSorted(front, x);
      var r := Insert(front, x);
      forall i | 0 <= i < |r| ensures LessEq(r[i], last) {
        assert r[i] in multiset(r);
        assert r[i] == x || r[i] in front;
      }
    } else {
      LessTotal(x, s[|s| - 1]);
      forall i | 0 <= i < |s| ensures LessEq(s[i], x) {
        if i < |s| - 1 && Less(s[i], s[|s| - 1]) && Less(s[|s| - 1], x) {
          LessTransitive(s[i], s[|s| - 1], x);
        }
      }
    }
  }

  lemma {:induction false} SortStringsSorts(s: seq<string>)
    ensures Sorted(SortStrings(s))
  {
    if s != [] {
      SortStringsSorts(s[..|s| - 1]);
      InsertKeepsSorted(SortStrings(s[..|s| - 1]), s[|s| - 1]);
    }
  }

  ghost predicate StringOrder(s: seq<string>) {
    forall i :: 0 < i < |s| ==> Less(s[i - 1], s[i])
  }

  /** Sorting leaves names alone that are already in string order. */
  lemma {:induction false} SortOfSorted(s: seq<string>)
    requires StringOrder(s)
    ensures SortStrings(s) == s
  {
    if s != [] {
      var front, last := s[..|s| - 1], s[|s| - 1];
      SortOfSorted(front);
      assert s == front + [last];
      if front != [] && Less(last, front[|front| - 1]) {
        assert Less(s[|s| - 2], s[|s| - 1]);
        LessTransitive(last, front[|front| - 1], last);
        LessIrreflexive(last);
        assert false;
      }
    }
  }

  // ---- Listing a host ----

  // `zfs list` on one dataset: its output, or one of two ways to fail.
  datatype Listing = Printed(out: string) | NoSuchDataset | Failed

  // listSourceSnaps
  function SourceSnaps(listing: Listing, source: string, prefix: string): Option<seq<string>> {
    if listing.Printed? then Some(Own(Split(TrimSpace(listing.out), '\n'), OwnPrefix(source, prefix))) else None
  }

  // listTargetSnaps: a target that does not exist yet has no snapshots.
  function TargetSnaps(listing: Listing, target: string, prefix: string): Option<seq<string>> {
    if listing.NoSuchDataset? then Some([]) else SourceSnaps(listing, target, prefix)
  }

  method ListSourceSnaps(listing: Listing, source: string, prefix: string) returns (r: Option<seq<string>>)
    ensures r == SourceSnaps(listing, source, prefix)
  {
    if !listing.Printed? {
      return None;
    }
    var names := FilterReplSnaps(listing.out, OwnPrefix(source, prefix));
    return Some(names);
  }

  method ListTargetSnaps(listing: Listing, target: string, prefix: string) returns (r: Option<seq<string>>)
    ensures r == TargetSnaps(listing, target, prefix)
  {
    match listing
    case NoSuchDataset => return Some([]);
    case Failed => return None;
    case Printed(out) =>
      var names := FilterReplSnaps(out, OwnPrefix(target, prefix));
      return Some(names);
  }

  // ---- The base of an incremental send ----

  predicate SameSnap(a: string, b: string) {
    '@' in a && '@' in b && a[IndexByte(a, '@') + 1..] == b[IndexByte(b, '@') + 1..]
  }

  ghost predicate Shared(name: string, dst: seq<string>) {
    exists k :: 0 <= k < |dst| && SameSnap(name, dst[k])
  }

  /** base is the newest name of src whose snapshot dst has too, or empty when there is none. */
  ghost predicate IsBase(base: string, src: seq<string>, dst: seq<string>) {
    if base == "" then forall i :: 0 <= i < |src| ==> !Shared(src[i], dst)
    else exists i :: 0 <= i < |src| && base == src[i] && NewestShared(src, dst, i)
  }

  ghost predicate NewestShared(src: seq<string>, dst: seq<string>, i: nat)
    requires i < |src|
  {
    Shared(src[i], dst) && forall j :: i < j < |src| ==> !Shared(src[j], dst)
  }

  method FindLastCommon(source: string, target: string, prefix: string, srcList: Listing, dstList: Listing)
    returns (base: Option<string>)
    ensures base.None? <==>
      SourceSnaps(srcList, source, prefix).None? || TargetSnaps(dstList, target, prefix).None?
    ensures base.Some? ==>
      IsBase(base.value, SourceSnaps(srcList, source, prefix).value, TargetSnaps(dstList, target, prefix).value)
  {
    var src := ListSourceSnaps(srcList, source, prefix);
    if src.None? {
      return None;
    }
    var dst := ListTargetSnaps(dstList, target, prefix);
    if dst.None? {
      return None;
    }
    var found := Newest(src.value, dst.value);
    return Some(found);
  }

  method Newest(src: seq<string>, dst: seq<string>) returns (base: string)
    ensures IsBase(base, src, dst)
  {
    if |src| == 0 || |dst| == 0 {
      return "";
    }
    var have := SnapsOf(dst);
    var i := |src| - 1;
    while i >= 0
      invariant -1 <= i < |src|
      invariant forall j :: i < j < |src| ==> !Shared(src[j], dst)
    {
      var j := IndexByte(src[i], '@');
      SharedIff(src[i], dst);
      if j >= 0 && src[i][j + 1..] in have {
        assert NewestShared(src, dst, i);
        return src[i];
      }
      i := i - 1;
    }
    return "";
  }

  lemma SharedIff(name: string, dst: seq<string>)
    ensures Shared(name, dst) <==> '@' in name && name[IndexByte(name, '@') + 1..] in SnapSet(dst)
  {
    if '@' in name {
      var s := name[IndexByte(name, '@') + 1..];
      forall k | 0 <= k < |dst| && SameSnap(name, dst[k]) ensures s in SnapSet(dst) {
        InSnapSet(dst, k);
      }
      if s in SnapSet(dst) {
        var k := FromSnapSet(dst, s);
        assert SameSnap(name, dst[k]);
      }
    }
  }

  /** The parts of the names behind their '@'. */
  function SnapSet(names: seq<string>): set<string> {
    if names == [] then {}
    else
      var front, n := SnapSet(names[..|names| - 1]), names[|names| - 1];
      if '@' in n then front + {n[IndexByte(n, '@') + 1..]} else front
  }

  lemma SnapSetSnoc(names: seq<string>, i: nat)
    requires i < |names|
    ensures SnapSet(names[..i + 1]) ==
      if '@' in names[i] then SnapSet(names[..i]) + {names[i][IndexByte(names[i], '@') + 1..]} else SnapSet(names[..i])
  {
    var p := names[..i + 1];
    assert p[..i] == names[..i] && p[i] == names[i];
  }

  lemma {:induction false} InSnapSet(names: seq<string>, k: nat)
    requires k < |names| && '@' in names[k]
    ensures names[k][IndexByte(names[k], '@') + 1..] in SnapSet(names)
  {
    if k < |names| - 1 {
      InSnapSet(names[..|names| - 1], k);
    }
  }

  lemma {:induction false} FromSnapSet(names: seq<string>, s: string) returns (k: nat)
    requires s in SnapSet(names)
    ensures k < |names| && '@' in names[k] && names[k][IndexByte(names[k], '@') + 1..] == s
  {
    k := |names| - 1;
    if s in SnapSet(names[..k]) {
      k := FromSnapSet(names[..k], s);
    }
  }

  method SnapsOf(names: seq<string>) returns (have: set<string>)
    ensures have == SnapSet(names)
  {
    have := {};
    for n := 0 to |names|
      invariant have == SnapSet(names[..n])
    {
      SnapSetSnoc(names, n);
      var i := IndexByte(names[n], '@');
      if i >= 0 {
        have := have + {names[n][i + 1..]};
      }
    }
    assert names[..|names|] == names;
  }

  /** The newest element of src that dst has too. */
  function LastCommon<T(==)>(src: seq<T>, dst: seq<T>): Option<T> {
    if src == [] then None
    else if src[|src| - 1] in dst then Some(src[|src| - 1])
    else LastCommon(src[..|src| - 1], dst)
  }

  function Names(dataset: string, snaps: seq<string>): (names: seq<string>)
    ensures |names| == |snaps| && forall i :: 0 <= i < |snaps| ==> names[i] == Name(dataset, snaps[i])
  {
    seq(|snaps|, i requires 0 <= i < |snaps| => Name(dataset, snaps[i]))
  }

  lemma SameSnapOfNames(d: string, e: string, a: string, b: string)
    requires '@' !in d && '@' !in e
    ensures SameSnap(Name(d, a), Name(e, b)) <==> a == b
  {
    IndexOfFirst(d, '@', a);
    IndexOfFirst(e, '@', b);
    assert Name(d, a)[|d| + 1..] == a && Name(e, b)[|e| + 1..] == b;
  }

  /** Over the snapshots themselves, without the names of their datasets. */
  lemma {:induction false} BaseIsLastCommon(base: string, d: string, e: string, src: seq<string>, dst: seq<string>)
    requires '@' !in d && '@' !in e && IsBase(base, Names(d, src), Names(e, dst))
    ensures LastCommon(src, dst).None? ==> base == ""
    ensures LastCommon(src, dst).Some? ==> base == Name(d, LastCommon(src, dst).value)
  {
    if src != [] {
      var front, last := src[..|src| - 1], src[|src| - 1];
      if last in dst {
        var k :| 0 <= k < |dst| && dst[k] == last;
        SameSnapOfNames(d, e, last, dst[k]);
        assert Shared(Names(d, src)[|src| - 1], Names(e, dst));
      } else {
        forall k | 0 <= k < |dst| ensures !SameSnap(Name(d, last), Name(e, dst[k])) {
          SameSnapOfNames(d, e, last, dst[k]);
        }
        assert !Shared(Names(d, src)[|src| - 1], Names(e, dst));
        BaseOfFront(base, d, src, Names(e, dst));
        BaseIsLastCommon(base, d, e, front, dst);
      }
    }
  }

  /** The own names of a dataset are those of its own labels. */
  lemma {:induction false} OwnOfNames(d: string, snaps: seq<string>, prefix: string)
    ensures Own(Names(d, snaps), OwnPrefix(d, prefix)) == Names(d, Own(snaps, prefix))
  {
    if snaps != [] {
      var n := |snaps| - 1;
      var names := Names(d, snaps);
      OwnOfNames(d, snaps[..n], prefix);
      assert names[..n] == Names(d, snaps[..n]);
      OwnSnoc(names, n, OwnPrefix(d, prefix));
      OwnSnoc(snaps, n, prefix);
      assert names[..n + 1] == names && snaps[..n + 1] == snaps;
      PrefixOfName(d, snaps[n], prefix);
    }
  }

  lemma PrefixOfName(d: string, snap: string, prefix: string)
    ensures OwnPrefix(d, prefix) <= Name(d, snap) <==> prefix <= snap
  {
    var p, n := OwnPrefix(d, prefix), Name(d, snap);
    assert p == (d + "@") + prefix && n == (d + "@") + snap;
    assert n[..|d| + 1] == d + "@" && n[|d| + 1..] == snap;
    if p <= n {
      assert forall k :: 0 <= k < |prefix| ==> prefix[k] == p[|d| + 1 + k] == n[|d| + 1 + k] == snap[k];
    }
  }

  /** The listing shows these snapshots of a dataset, of whoever, oldest first; a dataset that is missing has none. */
  predicate Shows(listing: Listing, d: string, snaps: seq<string>) {
    if listing.NoSuchDataset? then snaps == []
    else listing == Printed(Lines(Names(d, snaps))) && AreNames(Names(d, snaps))
  }

  lemma ShownAreRead(listing: Listing, d: string, snaps: seq<string>, prefix: string)
    requires Shows(listing, d, snaps)
    ensures TargetSnaps(listing, d, prefix) == Some(Names(d, Own(snaps, prefix)))
    ensures listing.Printed? ==> SourceSnaps(listing, d, prefix) == TargetSnaps(listing, d, prefix)
  {
    OwnOfNames(d, snaps, prefix);
    if listing.Printed? {
      ListingIsRead(Names(d, snaps), OwnPrefix(d, prefix));
    }
  }

  /** When the listings show what is on the two hosts, the base is the newest own snapshot that both have. */
  lemma BaseOfHosts(base: string, srcList: Listing, dstList: Listing, d: string, e: string, prefix: string,
                    src: seq<string>, dst: seq<string>)
    requires '@' !in d && '@' !in e && srcList.Printed? && Shows(srcList, d, src) && Shows(dstList, e, dst)
    requires IsBase(base, SourceSnaps(srcList, d, prefix).value, TargetSnaps(dstList, e, prefix).value)
    ensures var last := LastCommon(Own(src, prefix), Own(dst, prefix));
      base == if last.None? then "" else Name(d, last.value)
  {
    ShownAreRead(srcList, d, src, prefix);
    ShownAreRead(dstList, e, dst, prefix);
    BaseIsLastCommon(base, d, e, Own(src, prefix), Own(dst, prefix));
  }

  lemma BaseOfFront(base: string, d: string, src: seq<string>, dst: seq<string>)
    requires src != [] && IsBase(base, Names(d, src), dst) && !Shared(Name(d, src[|src| - 1]), dst)
    ensures IsBase(base, Names(d, src[..|src| - 1]), dst)
  {
    BaseOfPrefix(base, Names(d, src), dst);
    assert Names(d, src[..|src| - 1]) == Names(d, src)[..|src| - 1];
  }

  lemma BaseOfPrefix(base: string, all: seq<string>, dst: seq<string>)
    requires all != [] && IsBase(base, all, dst) && !Shared(all[|all| - 1], dst)
    ensures IsBase(base, all[..|all| - 1], dst)
  {
    var front := all[..|all| - 1];
    if base != "" {
      var i :| 0 <= i < |all| && base == all[i] && NewestShared(all, dst, i);
      assert front[i] == base && NewestShared(front, dst, i);
    }
  }

  // ---- Destroying beyond the retention count ----

  class Host {
    var snaps: seq<string>  // every snapshot, by creation

    constructor (snaps: seq<string>)
      ensures this.snaps == snaps
    {
      this.snaps := snaps;
    }

    /** `zfs destroy`: removes the snapshot, or fails without effect. */
    method Destroy(name: string, works: bool) returns (ok: bool)
      modifies this
      ensures ok == (works && name in old(snaps))
      ensures snaps == if ok then Without(old(snaps), [name]) else old(snaps)
    {
      ok := works && name in snaps;
      if ok {
        snaps := Without(snaps, [name]);
      }
    }
  }

  /** What remains after destroying some names. */
  function Without(names: seq<string>, gone: seq<string>): seq<string> {
    Filter(names, NotIn(gone))
  }

  /** All but the newest `keep`. */
  function Excess(own: seq<string>, keep: nat): seq<string> {
    own[..|own| - |Last(own, keep)|]
  }

  lemma WithoutSnoc(names: seq<string>, gone: seq<string>, x: string)
    ensures Without(Without(names, gone), [x]) == Without(names, gone + [x])
    ensures Without(names, []) == names
  {
    FilterTwice(names, NotIn(gone), NotIn([x]));
    FilterAgree(names, Both(NotIn(gone), NotIn([x])), NotIn(gone + [x]));
    FilterAll(names, NotIn([]));
  }

  /** The names were destroyed one by one, all of them or up to the first that could not be. */
  predicate InOrder(before: seq<string>, doomed: seq<string>, destroyed: seq<string>, works: string -> bool) {
    && destroyed <= doomed
    && (destroyed != doomed ==>
         var next := doomed[|destroyed|]; !(works(next) && next in Without(before, destroyed)))
  }

  lemma NothingToDo(before: seq<string>, works: string -> bool)
    ensures Without(before, []) == before && InOrder(before, [], [], works)
  {
    WithoutSnoc(before, [], "");
  }

  /** When every command works and every name is there once, nothing stops half-way. */
  lemma NothingStops(before: seq<string>, doomed: seq<string>, destroyed: seq<string>, works: string -> bool)
    requires InOrder(before, doomed, destroyed, works)
    requires Distinct(doomed) && forall x :: x in doomed ==> works(x) && x in before
    ensures destroyed == doomed
  {
    var n := |destroyed|;
    assert destroyed == doomed[..n];
    if n < |doomed| {
      StillThere(before, doomed, n);
    }
  }

  lemma StillThere(before: seq<string>, doomed: seq<string>, n: nat)
    requires Distinct(doomed) && n < |doomed| && doomed[n] in before
    ensures doomed[n] in Without(before, doomed[..n])
  {
    assert doomed[n] !in doomed[..n];
    FilterIn(before, NotIn(doomed[..n]), doomed[n]);
  }

  /** Destroys the given names one by one, up to the first that fails. */
  method DestroyAll(host: Host, excess: seq<string>, works: string -> bool) returns (destroyed: seq<string>, ok: bool)
    modifies host
    ensures host.snaps == Without(old(host.snaps), destroyed)
    ensures InOrder(old(host.snaps), excess, destroyed, works) && (ok <==> destroyed == excess)
  {
    destroyed := [];
    WithoutSnoc(host.snaps, [], "");
    for i := 0 to |excess|
      invariant destroyed == excess[..i] && host.snaps == Without(old(host.snaps), destroyed)
    {
      var gone := host.Destroy(excess[i], works(excess[i]));
      if !gone {
        return destroyed, false;
      }
      WithoutSnoc(old(host.snaps), destroyed, excess[i]);
      destroyed := destroyed + [excess[i]];
    }
    ok := true;
  }

  /** The snapshots to destroy, in the order in which they are destroyed. */
  function Doomed(all: seq<string>, retainCount: int): seq<string> {
    SortStrings(Excess(all, if retainCount < 0 then 0 else retainCount))
  }

  lemma DoomedAre(all: seq<string>, retainCount: int)
    ensures var retain := if retainCount < 0 then 0 else retainCount;
      Doomed(all, retainCount) == if |all| <= retain then [] else SortStrings(all[..|all| - retain])
  {
  }

  method PruneTarget(host: Host, listing: Listing, target: string, prefix: string, retainCount: int,
                     works: string -> bool)
    returns (destroyed: seq<string>, ok: bool)
    modifies host
    ensures host.snaps == Without(old(host.snaps), destroyed)
    ensures TargetSnaps(listing, target, prefix).None? ==> !ok && destroyed == []
    ensures TargetSnaps(listing, target, prefix).Some? ==>
      var doomed := Doomed(TargetSnaps(listing, target, prefix).value, retainCount);
      InOrder(old(host.snaps), doomed, destroyed, works) && (ok <==> destroyed == doomed)
  {
    var list := ListTargetSnaps(listing, target, prefix);
    if list.None? {
      WithoutSnoc(host.snaps, [], "");
      return [], false;
    }
    destroyed, ok := PruneList(host, list.value, retainCount, works);
  }

  method PruneList(host: Host, all: seq<string>, retainCount: int, works: string -> bool)
    returns (destroyed: seq<string>, ok: bool)
    modifies host
    ensures host.snaps == Without(old(host.snaps), destroyed)
    ensures InOrder(old(host.snaps), Doomed(all, retainCount), destroyed, works)
    ensures ok <==> destroyed == Doomed(all, retainCount)
  {
    var retain := if retainCount < 0 then 0 else retainCount;
    DoomedAre(all, retainCount);
    if |all| <= retain {
      WithoutSnoc(host.snaps, [], "");
      return [], true;
    }
    var excess := SortStrings(all[..|all| - retain]);
    destroyed, ok := DestroyAll(host, excess, works);
  }

  /** Removing own names leaves what others own untouched, and the own names are those that are left. */
  lemma OnlyOwnGo(names: seq<string>, p: string, gone: seq<string>)
    requires forall x :: x in gone ==> p <= x
    ensures Foreign(Without(names, gone), p) == Foreign(names, p)
    ensures Own(Without(names, gone), p) == Without(Own(names, p), gone)
  {
    FilterSwap(names, NotIn(gone), LacksPrefix(p));
    FilterPasses(names, LacksPrefix(p));
    FilterAll(Foreign(names, p), NotIn(gone));
    FilterSwap(names, NotIn(gone), HasPrefix(p));
  }

  /** Removing some of the excess keeps the rest in place. */
  lemma NewestStay(own: seq<string>, keep: nat, gone: seq<string>)
    requires Distinct(own) && forall x :: x in gone ==> x in Excess(own, keep)
    ensures Without(own, gone) == Without(Excess(own, keep), gone) + Last(own, keep)
    ensures Last(Without(own, gone), keep) == Last(own, keep)
  {
    var excess, kept := Excess(own, keep), Last(own, keep);
    assert own == excess + kept;
    FilterConcat(excess, kept, NotIn(gone));
    forall j | 0 <= j < |kept| ensures kept[j] !in gone {
      assert kept[j] == own[|excess| + j];
      assert forall i :: 0 <= i < |excess| ==> excess[i] == own[i] != own[|excess| + j];
    }
    assert forall x :: x in kept ==> NotIn(gone)(x);
    FilterAll(kept, NotIn(gone));
  }

  /**
   * However far a prune gets: the newest `keep` own snapshots stay and stay the newest, and what others own is
   * untouched.
   */
  lemma PartialPrune(names: seq<string>, p: string, keep: nat, n: nat)
    requires Distinct(names) && n <= |Excess(Own(names, p), keep)|
    ensures var after := Without(names, SortStrings(Excess(Own(names, p), keep))[..n]);
      && Foreign(after, p) == Foreign(names, p)
      && Last(Own(after, p), keep) == Last(Own(names, p), keep)
  {
    var gone := GoneOf(names, p, keep, n);
    OnlyOwnGo(names, p, gone);
    NewestStay(Own(names, p), keep, gone);
  }

  lemma GoneOf(names: seq<string>, p: string, keep: nat, n: nat) returns (gone: seq<string>)
    requires Distinct(names) && n <= |Excess(Own(names, p), keep)|
    ensures gone == SortStrings(Excess(Own(names, p), keep))[..n]
    ensures forall x :: x in gone ==> x in Excess(Own(names, p), keep) && p <= x
    ensures Distinct(Own(names, p))
  {
    var excess := Excess(Own(names, p), keep);
    gone := SortStrings(excess)[..n];
    FilterDistinct(names, HasPrefix(p));
    FilterPasses(names, HasPrefix(p));
    GoneAreExcess(excess, n);
    assert forall x :: x in excess ==> x in Own(names, p) && HasPrefix(p)(x);
  }

  /** A prune that succeeds leaves exactly the newest `keep` own snapshots. */
  lemma FullPrune(names: seq<string>, p: string, keep: nat)
    requires Distinct(names)
    ensures Own(Without(names, SortStrings(Excess(Own(names, p), keep))), p) == Last(Own(names, p), keep)
  {
    var own := Own(names, p);
    var excess := Excess(own, keep);
    var gone := GoneOf(names, p, keep, |excess|);
    assert gone == SortStrings(excess);
    OnlyOwnGo(names, p, gone);
    NewestStay(own, keep, gone);
    AllGone(excess);
    assert [] + Last(own, keep) == Last(own, keep);
  }

  /** With names in string order the oldest go first, so what is left is the newest, contiguously. */
  lemma OldestGoFirst(names: seq<string>, p: string, keep: nat, n: nat)
    requires Distinct(names) && n <= |Excess(Own(names, p), keep)| && StringOrder(Own(names, p))
    ensures Own(Without(names, SortStrings(Excess(Own(names, p), keep))[..n]), p) == Own(names, p)[n..]
  {
    var own := Own(names, p);
    var gone := GoneOf(names, p, keep, n);
    OnlyOwnGo(names, p, gone);
    OldestOfExcess(own, keep, n);
    FilterFirst(own, n);
  }

  lemma OldestOfExcess(own: seq<string>, keep: nat, n: nat)
    requires StringOrder(own) && n <= |Excess(own, keep)|
    ensures SortStrings(Excess(own, keep))[..n] == own[..n]
  {
    SortedPrefix(own, |Excess(own, keep)|, n);
  }

  lemma SortedPrefix(s: seq<string>, m: nat, n: nat)
    requires StringOrder(s) && n <= m <= |s|
    ensures SortStrings(s[..m])[..n] == s[..n]
  {
    PrefixInOrder(s, m);
    SortOfSorted(s[..m]);
  }

  lemma PrefixInOrder(s: seq<string>, n: nat)
    requires StringOrder(s) && n <= |s|
    ensures StringOrder(s[..n])
  {
    assert forall i :: 0 <= i < n ==> s[..n][i] == s[i];
  }

  lemma AllGone(excess: seq<string>)
    ensures Without(excess, SortStrings(excess)) == []
  {
    var gone := SortStrings(excess);
    forall x | x in excess ensures x in gone {
      assert x in multiset(excess);
    }
    FilterNone(excess, NotIn(gone));
  }

  lemma GoneAreExcess(excess: seq<string>, n: nat)
    requires n <= |excess|
    ensures forall x :: x in SortStrings(excess)[..n] ==> x in excess
  {
    forall x | x in SortStrings(excess)[..n] ensures x in excess {
      assert x in multiset(SortStrings(excess));
    }
  }

  /** Run labels of increasing times are in string order, so sort.Strings keeps creation order. */
  lemma CreationOrderIsStringOrder(dataset: string, prefix: string, s: Stamp, t: Stamp)
    requires s.Valid() && t.Valid() && |Year(s.year)| == |Year(t.year)|
    ensures Less(Name(dataset, RunLabel(prefix, s)), Name(dataset, RunLabel(prefix, t))) <==> s.Before(t)
  {
    RunLabelOrder(prefix, s, t);
    LessSamePrefix(dataset + "@", RunLabel(prefix, s), RunLabel(prefix, t));
  }
}
