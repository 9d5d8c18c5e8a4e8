/** The broker object of internal/broker/broker.go and its change-detecting poller, proved against BrokerSpec. */
module Broker {
  import opened Text
  import opened BrokerSpec

  /** A Go channel with a buffer. Closing twice or sending after a close would panic, hence the preconditions. */
  class Channel {
    ghost const id: nat
    ghost const topic: Topic
    var buf: seq<Payload>
    var open: bool
    ghost var taken: seq<Payload>

    constructor (ghost id: nat, ghost topic: Topic)
      ensures this.id == id && this.topic == topic
      ensures Value() == Chan(topic, [], true, [])
    {
      this.id, this.topic := id, topic;
      buf, open, taken := [], true, [];
    }

    ghost function Value(): Chan
      reads this
    {
      Chan(topic, buf, open, taken)
    }

    /** A non-blocking send. */
    method TrySend(p: Payload) returns (sent: bool)
      requires open
      modifies this
      ensures sent == old(Value()).HasRoom()
      ensures Value() == if sent then old(Value()).Deliver(p) else old(Value())
    {
      sent := |buf| < CAPACITY;
      if sent {
        buf := buf + [p];
      }
    }

    method Close()
      requires open
      modifies this
      ensures Value() == old(Value()).(open := false)
    {
      open := false;
    }

    /** A receive: a buffered payload, or the news that the channel is closed and drained, or nothing yet. */
    method Receive() returns (data: Option<Payload>, closed: bool)
      modifies this
      ensures closed <==> old(buf) == [] && !open
      ensures data.Some? <==> old(buf) != []
      ensures data.Some? ==> data.value == old(buf)[0]
      ensures Value() == if data.Some? then old(Value()).(buf := old(buf)[1..], taken := old(taken) + [old(buf)[0]])
                         else old(Value())
    {
      if buf != [] {
        data, closed := Some(buf[0]), false;
        buf, taken := buf[1..], taken + [buf[0]];
      } else {
        data, closed := None, !open;
      }
    }
  }

  ghost function Ids(list: seq<Channel>): (ids: seq<nat>)
    ensures |ids| == |list|
    ensures forall i :: 0 <= i < |list| ==> ids[i] == list[i].id
  {
    seq(|list|, i requires 0 <= i < |list| => list[i].id)
  }

  /** The lists hold the channels of `all` that `ids` names. */
  ghost predicate ListsAgree(subs: map<Topic, seq<Channel>>, ids: map<Topic, seq<nat>>, all: seq<Channel>) {
    subs.Keys == ids.Keys && forall t :: t in subs ==> Ids(subs[t]) == ids[t] && Among(subs[t], all)
  }

  ghost predicate Among(list: seq<Channel>, all: seq<Channel>) {
    forall i :: 0 <= i < |list| ==> list[i] in all
  }

  lemma AddToList(subs: map<Topic, seq<Channel>>, ids: map<Topic, seq<nat>>, all: seq<Channel>,
                  t: Topic, list: seq<Channel>, ch: Channel)
    requires ListsAgree(subs, ids, all) && list == if t in subs then subs[t] else []
    ensures ListsAgree(subs[t := list + [ch]], ids[t := Ids(list) + [ch.id]], all + [ch])
  {
    assert Ids(list + [ch]) == Ids(list) + [ch.id];
  }

  class Broker {
    var subs: map<Topic, seq<Channel>>
    var cache: map<Topic, Payload>
    ghost var all: seq<Channel>
    ghost var state: State  // the specification's state, tied to the fields by Valid

    /** The channels, numbered as they were created, carry the values of `chans`. */
    ghost predicate Carries(chans: seq<Chan>)
      reads this, all
    {
      |all| == |chans| && forall i :: 0 <= i < |all| ==> all[i].id == i && all[i].Value() == chans[i]
    }

    ghost predicate Valid()
      reads this, all
    {
      && Carries(state.chans)
      && cache == state.cache
      && ListsAgree(subs, state.subs, all)
      && Inv(state)
    }

    constructor ()
      ensures Valid() && state == INIT && all == []
    {
      subs, cache, all, state := map[], map[], [], INIT;
    }

    /** The subscribers of a topic are distinct open channels, each found under its own number. */
    lemma Subscribers(list: seq<Channel>, t: Topic)
      requires Valid() && list == if t in subs then subs[t] else []
      ensures Ids(list) == Subs(state, t) && NoDup(Ids(list)) && Among(list, all)
      ensures forall k :: 0 <= k < |list| ==> list[k].open && list[k].id < |all| && all[list[k].id] == list[k]
    {
      forall k | 0 <= k < |list| ensures list[k].open && list[k].id < |all| && all[list[k].id] == list[k] {
        assert Ids(list)[k] in Subs(state, t);
      }
    }

    /** A fresh channel, already holding the cached value of its topic. */
    method NewChannel(t: Topic) returns (ch: Channel)
      ensures fresh(ch) && ch.id == |all|
      ensures ch.Value() == Chan(t, if t in cache then [cache[t]] else [], true, [])
    {
      ch := new Channel(|all|, t);
      if t in cache {
        var sent := ch.TrySend(cache[t]);
        assert [] + [cache[t]] == [cache[t]];
      }
    }

    method Subscribe(t: Topic) returns (ch: Channel)
      requires Valid()
      modifies this
      ensures Valid() && fresh(ch) && all == old(all) + [ch] && ch.id == |old(all)| == |old(state).chans|
      ensures state == Step(old(state), BrokerSpec.Subscribe(t))
    {
      ch := NewChannel(t);
      var list := if t in subs then subs[t] else [];
      Subscribers(list, t);
      StepKeepsInv(state, BrokerSpec.Subscribe(t));
      ghost var chans := state.chans + [ch.Value()];
      AddToList(subs, state.subs, all, t, list, ch);
      subs := subs[t := list + [ch]];
      all := all + [ch];
      assert Carries(chans);
      state := Step(state, BrokerSpec.Subscribe(t));
      assert state.chans == chans;
    }

    /** Removes the channel from the topic's list and closes it; a channel that is not on the list is left alone. */
    method Unsubscribe(t: Topic, ch: Channel)
      requires Valid() && ch in all
      modifies this, all
      ensures Valid() && all == old(all)
      ensures state == Step(old(state), BrokerSpec.Unsubscribe(t, ch.id))
    {
      var list := if t in subs then subs[t] else [];
      Subscribers(list, t);
      var i := 0;
      while i < |list|
        invariant 0 <= i <= |list|
        invariant ch !in list[..i]
      {
        if list[i] == ch {
          WithoutChannel(list, i);
          StepKeepsInv(state, BrokerSpec.Unsubscribe(t, ch.id));
          ghost var chans := state.chans[ch.id := state.chans[ch.id].(open := false)];
          subs := subs[t := list[..i] + list[i + 1..]];
          ch.Close();
          assert Carries(chans);
          state := Step(state, BrokerSpec.Unsubscribe(t, ch.id));
          return;
        }
        i := i + 1;
      }
    }

    /** Offers the payload to one subscriber and closes it when it is full. */
    method Offer(ch: Channel, p: Payload, ghost chans: seq<Chan>) returns (sent: bool)
      requires Carries(chans) && ch in all && ch.open
      modifies ch
      ensures sent == chans[ch.id].HasRoom()
      ensures Carries(chans[ch.id := chans[ch.id].Deliver(p)])
    {
      sent := ch.TrySend(p);
      if !sent {
        ch.Close();
      }
    }

    /** The delivery loop: compacts the list in place and closes the channels that are full. */
    method Deliver(given: seq<Channel>, p: Payload) returns (list: seq<Channel>, n: nat)
      requires Carries(state.chans) && Among(given, all) && NoDup(Ids(given))
      requires forall k :: 0 <= k < |given| ==> given[k].id < |state.chans| && state.chans[given[k].id].open
      modifies all
      ensures n <= |list| && Among(list[..n], all)
      ensures Ids(list[..n]) == Survivors(Ids(given), state.chans)
      ensures Carries(DeliverAll(state.chans, Ids(given), p))
    {
      list, n := given, 0;
      ghost var chans, ids := state.chans, Ids(given);
      for i := 0 to |list|
        invariant 0 <= n <= i <= |list| == |given|
        invariant forall k :: i <= k < |list| ==> list[k] == given[k]
        invariant Among(list[..n], all)
        invariant Ids(list[..n]) == Survivors(ids[..i], state.chans)
        invariant Carries(chans) && Progress(chans, ids[..i], state.chans, p)
      {
        var ch := list[i];
        ghost var before := chans;
        ProgressStep(chans, ids, i, state.chans, p);
        chans := chans[ch.id := chans[ch.id].Deliver(p)];
        var sent := Offer(ch, p, before);
        if sent {
          KeepChannel(list, n, ch);
          list := list[n := ch];
          n := n + 1;
        }
      }
      assert ids[..|ids|] == ids;
      assert chans == DeliverAll(state.chans, ids, p);
    }

    method PublishLocked(t: Topic, p: Payload)
      requires Valid()
      modifies this, all
      ensures Valid() && all == old(all)
      ensures state == PublishTo(old(state), t, p)
    {
      var list := if t in subs then subs[t] else [];
      Subscribers(list, t);
      PublishKeepsInv(state, t, p);
      var compacted, n := Deliver(list, p);
      subs := subs[t := compacted[..n]];
      state := PublishTo(state, t, p);
    }

    /** `data` is None when the value cannot be encoded; nothing is then published. */
    method Publish(t: Topic, data: Option<Payload>)
      requires Valid()
      modifies this, all
      ensures Valid() && all == old(all)
      ensures state == if data.Some? then Step(old(state), BrokerSpec.Publish(t, data.value)) else old(state)
    {
      if data.None? {
        return;
      }
      cache := cache[t := data.value];
      ghost var before := state;
      state := state.(cache := state.cache[t := data.value]);
      assert forall u :: Subs(state, u) == Subs(before, u);
      PublishLocked(t, data.value);
    }

    method PublishNoCache(t: Topic, data: Option<Payload>)
      requires Valid()
      modifies this, all
      ensures Valid() && all == old(all)
      ensures state == if data.Some? then Step(old(state), BrokerSpec.PublishNoCache(t, data.value)) else old(state)
    {
      if data.Some? {
        PublishLocked(t, data.value);
      }
    }
  }

  /** The channels named in `done` have been offered p, the others are as before. */
  ghost predicate Progress(chans: seq<Chan>, done: seq<nat>, before: seq<Chan>, p: Payload) {
    |chans| == |before| &&
    forall c :: 0 <= c < |chans| ==> chans[c] == if c in done then before[c].Deliver(p) else before[c]
  }

  lemma KeepChannel(list: seq<Channel>, n: nat, ch: Channel)
    requires n < |list|
    ensures list[n := ch][..n + 1] == list[..n] + [ch]
    ensures Ids(list[n := ch][..n + 1]) == Ids(list[..n]) + [ch.id]
  {
  }

  /** Offering p to the next subscriber extends the progress by it, and it survives exactly if it had room. */
  lemma ProgressStep(chans: seq<Chan>, ids: seq<nat>, i: nat, before: seq<Chan>, p: Payload)
    requires i < |ids| && NoDup(ids) && ids[i] < |chans|
    requires Progress(chans, ids[..i], before, p)
    ensures chans[ids[i]] == before[ids[i]]
    ensures Progress(chans[ids[i] := chans[ids[i]].Deliver(p)], ids[..i + 1], before, p)
    ensures Survivors(ids[..i + 1], before) ==
      Survivors(ids[..i], before) + if before[ids[i]].HasRoom() then [ids[i]] else []
  {
    assert ids[..i + 1] == ids[..i] + [ids[i]] && ids[i] !in ids[..i];
    SurvivorsSnoc(ids[..i], ids[i], before);
  }

  lemma SurvivorsSnoc(ids: seq<nat>, c: nat, chans: seq<Chan>)
    ensures Survivors(ids + [c], chans) == Survivors(ids, chans) + if c < |chans| && chans[c].HasRoom() then [c] else []
  {
    assert (ids + [c])[..|ids|] == ids;
  }

  lemma WithoutChannel(list: seq<Channel>, i: nat)
    requires i < |list| && NoDup(Ids(list))
    ensures Ids(list[..i] + list[i + 1..]) == Without(Ids(list), list[i].id)
  {
    var ids := Ids(list);
    assert forall k :: 0 <= k < i ==> ids[..i][k] == ids[k];
    WithoutAt(ids, i);
    assert Ids(list[..i] + list[i + 1..]) == ids[..i] + ids[i + 1..];
  }

  lemma {:induction false} WithoutAt(ids: seq<nat>, i: nat)
    requires i < |ids| && ids[i] !in ids[..i]
    ensures Without(ids, ids[i]) == ids[..i] + ids[i + 1..]
  {
    if i > 0 {
      assert ids[0] in ids[..i];
      assert ids[1..][..i - 1] == ids[..i][1..];
      WithoutAt(ids[1..], i - 1);
    }
  }
}
