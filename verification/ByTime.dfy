/** Sorting ids by a time stamp, the way sort.Slice is used on jobs and tasks. */
module ByTime {
  type Id = string
  type Time = nat  // 0 is Go's zero time

  type Item = (Id, Time)

  function IdsOf(items: seq<Item>): set<Id> {
    if items == [] then {} else IdsOf(items[..|items| - 1]) + {items[|items| - 1].0}
  }

  // No id occurs twice.
  ghost predicate DistinctIds(items: seq<Item>) {
    |IdsOf(items)| == |items|
  }

  ghost predicate TimesFrom(items: seq<Item>, times: map<Id, Time>) {
    items == [] ||
    var x := items[|items| - 1];
    TimesFrom(items[..|items| - 1], times) && x.0 in times && times[x.0] == x.1
  }

  ghost predicate SortedByTime(items: seq<Item>) {
    |items| <= 1 || (SortedByTime(items[..|items| - 1]) && items[|items| - 2].1 <= items[|items| - 1].1)
  }

  lemma Snoc(items: seq<Item>, x: Item, times: map<Id, Time>)
    ensures IdsOf(items + [x]) == IdsOf(items) + {x.0}
    ensures TimesFrom(items + [x], times) <==> TimesFrom(items, times) && x.0 in times && times[x.0] == x.1
    ensures SortedByTime(items + [x]) <==> SortedByTime(items) && (items == [] || items[|items| - 1].1 <= x.1)
  {
    assert (items + [x])[..|items|] == items;
  }

  /** sort.Slice by time, as an insertion of each item behind every earlier or equal one. */
  function InsertByTime(items: seq<Item>, x: Item): (r: seq<Item>)
    ensures |r| == |items| + 1
  {
    if items == [] || items[|items| - 1].1 <= x.1 then items + [x]
    else InsertByTime(items[..|items| - 1], x) + [items[|items| - 1]]
  }

  function SortByTime(items: seq<Item>): (r: seq<Item>)
    ensures |r| == |items|
  {
    if items == [] then [] else InsertByTime(SortByTime(items[..|items| - 1]), items[|items| - 1])
  }

  lemma {:induction false} InsertKeeps(items: seq<Item>, x: Item, times: map<Id, Time>)
    requires SortedByTime(items) && TimesFrom(items, times) && x.0 in times && times[x.0] == x.1
    ensures var r := InsertByTime(items, x);
      && SortedByTime(r) && TimesFrom(r, times) && IdsOf(r) == IdsOf(items) + {x.0}
      && (r[|r| - 1] == x || (items != [] && r[|r| - 1] == items[|items| - 1]))
  {
    if items == [] || items[|items| - 1].1 <= x.1 {
      Snoc(items, x, times);
    } else {
      var front, last := items[..|items| - 1], items[|items| - 1];
      InsertKeeps(front, x, times);
      Snoc(InsertByTime(front, x), last, times);
    }
  }

  lemma {:induction false} SortKeeps(items: seq<Item>, times: map<Id, Time>)
    requires TimesFrom(items, times)
    ensures SortedByTime(SortByTime(items)) && TimesFrom(SortByTime(items), times)
    ensures IdsOf(SortByTime(items)) == IdsOf(items)
  {
    if items != [] {
      var front := items[..|items| - 1];
      SortKeeps(front, times);
      InsertKeeps(SortByTime(front), items[|items| - 1], times);
    }
  }

  lemma {:induction false} SortedPairs(items: seq<Item>, i: nat, j: nat)
    requires SortedByTime(items) && i <= j < |items|
    ensures items[i].1 <= items[j].1
  {
    if j < |items| - 1 {
      SortedPairs(items[..|items| - 1], i, j);
    } else if i < j {
      SortedPairs(items[..|items| - 1], i, j - 1);
    }
  }

  lemma {:induction false} ItemOf(items: seq<Item>, times: map<Id, Time>, id: Id) returns (i: nat)
    requires TimesFrom(items, times) && id in IdsOf(items)
    ensures i < |items| && items[i].0 == id && id in times && times[id] == items[i].1
  {
    if items[|items| - 1].0 == id {
      i := |items| - 1;
    } else {
      i := ItemOf(items[..|items| - 1], times, id);
    }
  }

  lemma {:induction false} PrefixKeeps(items: seq<Item>, n: nat, times: map<Id, Time>)
    requires n <= |items| && TimesFrom(items, times)
    ensures TimesFrom(items[..n], times) && IdsOf(items[..n]) <= IdsOf(items)
    ensures |IdsOf(items)| - |IdsOf(items[..n])| <= |items| - n
  {
    if n < |items| {
      PrefixKeeps(items[..|items| - 1], n, times);
      assert items[..|items| - 1][..n] == items[..n];
    } else {
      assert items[..n] == items;
    }
  }

  lemma {:induction false} IdsBound(items: seq<Item>)
    ensures |IdsOf(items)| <= |items|
  {
    if items != [] {
      IdsBound(items[..|items| - 1]);
    }
  }

  lemma PrefixDistinct(items: seq<Item>, n: nat, times: map<Id, Time>)
    requires DistinctIds(items) && n <= |items| && TimesFrom(items, times)
    ensures TimesFrom(items[..n], times) && |IdsOf(items[..n])| == n && IdsOf(items[..n]) <= IdsOf(items)
  {
    PrefixKeeps(items, n, times);
    IdsBound(items[..n]);
  }

  lemma FirstItems(items: seq<Item>, i: nat, times: map<Id, Time>)
    requires DistinctIds(items) && i < |items| && TimesFrom(items, times)
    ensures IdsOf(items[..i + 1]) == IdsOf(items[..i]) + {items[i].0}
  {
    assert items[..i + 1] == items[..i] + [items[i]];
    Snoc(items[..i], items[i], times);
  }

  /** The first n items of a sorted list are no later than the others. */
  lemma OldestFirst(items: seq<Item>, n: nat, times: map<Id, Time>, d: Id, k: Id)
    requires SortedByTime(items) && TimesFrom(items, times) && IdsOf(items) == times.Keys && n <= |items|
    requires d in IdsOf(items[..n]) && k in times && k !in IdsOf(items[..n])
    ensures d in times && times[d] <= times[k]
  {
    PrefixKeeps(items, n, times);
    var i := ItemOf(items[..n], times, d);
    var j := ItemOf(items, times, k);
    if j < n {
      PrefixHas(items, n, j);
    }
    SortedPairs(items, i, j);
  }

  lemma {:induction false} PrefixHas(items: seq<Item>, n: nat, j: nat)
    requires j < n <= |items|
    ensures items[j].0 in IdsOf(items[..n])
  {
    var p := items[..n];
    if j < n - 1 {
      PrefixHas(items, n - 1, j);
      assert p[..n - 1] == items[..n - 1];
    }
  }

  lemma OneLess(all: set<Id>, rest: set<Id>, id: Id)
    requires id in rest
    ensures all - (rest - {id}) == if id in all then all - rest + {id} else all - rest
    ensures id in all ==> |all - rest + {id}| == |all - rest| + 1
  {
  }

  lemma {:induction false} ItemAt(items: seq<Item>, i: nat, times: map<Id, Time>)
    requires TimesFrom(items, times) && i < |items|
    ensures items[i].0 in times && times[items[i].0] == items[i].1
  {
    if i < |items| - 1 {
      ItemAt(items[..|items| - 1], i, times);
    }
  }

  /** The items are those of `times` whose ids are not among the rest. */
  ghost predicate ItemsBut(items: seq<Item>, times: map<Id, Time>, rest: set<Id>) {
    TimesFrom(items, times) && IdsOf(items) == times.Keys - rest && |items| == |times.Keys - rest|
  }

  lemma TakeItem(items: seq<Item>, times: map<Id, Time>, rest: set<Id>, id: Id)
    requires ItemsBut(items, times, rest) && id in rest
    ensures id in times ==> ItemsBut(items + [(id, times[id])], times, rest - {id})
    ensures id !in times ==> ItemsBut(items, times, rest - {id})
  {
    OneLess(times.Keys, rest, id);
    if id in times {
      Snoc(items, (id, times[id]), times);
    }
  }

  lemma NoItems(times: map<Id, Time>, rest: set<Id>)
    requires times.Keys <= rest
    ensures ItemsBut([], times, rest)
  {
    assert times.Keys - rest == {};
  }

  lemma AllItems(items: seq<Item>, times: map<Id, Time>)
    requires ItemsBut(items, times, {})
    ensures TimesFrom(items, times) && IdsOf(items) == times.Keys && |items| == |times| && DistinctIds(items)
  {
    assert times.Keys - {} == times.Keys;
  }

  /** The ids with their times, in map order. */
  method ItemsOf(times: map<Id, Time>) returns (items: seq<Item>)
    ensures TimesFrom(items, times) && IdsOf(items) == times.Keys && |items| == |times|
  {
    var rest := times.Keys;
    items := [];
    NoItems(times, rest);
    while rest != {}
      invariant rest <= times.Keys && ItemsBut(items, times, rest)
      decreases |rest|
    {
      var id :| id in rest;
      TakeItem(items, times, rest, id);
      items := items + [(id, times[id])];
      rest := rest - {id};
    }
    AllItems(items, times);
  }

  /** Every id once with its time, oldest first. */
  ghost predicate ListsAll(items: seq<Item>, times: map<Id, Time>) {
    && |items| == |times|
    && (forall i :: 0 <= i < |items| ==> items[i].0 in times && times[items[i].0] == items[i].1)
    && (forall i, j :: 0 <= i < j < |items| ==> items[i].1 <= items[j].1)
    && (forall id :: id in times ==> exists i :: 0 <= i < |items| && items[i].0 == id)
  }

  method Sorted(times: map<Id, Time>) returns (items: seq<Item>)
    ensures ListsAll(items, times)
  {
    items := ItemsOf(times);
    SortKeeps(items, times);
    items := SortByTime(items);
    SortedListsAll(items, times);
  }

  lemma SortedListsAll(items: seq<Item>, times: map<Id, Time>)
    requires TimesFrom(items, times) && SortedByTime(items) && IdsOf(items) == times.Keys && |items| == |times|
    ensures ListsAll(items, times)
  {
    forall i | 0 <= i < |items| ensures items[i].0 in times && times[items[i].0] == items[i].1 {
      ItemAt(items, i, times);
    }
    forall i, j | 0 <= i < j < |items| ensures items[i].1 <= items[j].1 {
      SortedPairs(items, i, j);
    }
    forall id | id in times ensures exists i :: 0 <= i < |items| && items[i].0 == id {
      var i := ItemOf(items, times, id);
    }
  }
}
