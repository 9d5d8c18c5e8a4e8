/** The subscribe and unsubscribe loops around one event stream (internal/api/handlers.go), on the broker object. */
module Events {
  import opened Text
  import opened BrokerSpec
  import opened Broker
  import opened Fanin

  ghost function ChannelIds(channels: map<Topic, Channel>): map<Topic, nat> {
    map t | t in channels :: channels[t].id
  }

  /** Each channel of the map stands under its own number in `all`. */
  ghost predicate Numbered(channels: map<Topic, Channel>, all: seq<Channel>) {
    forall t :: t in channels ==> channels[t].id < |all| && all[channels[t].id] == channels[t]
  }

  lemma OneMoreChannel(channels: map<Topic, Channel>, t: Topic, ch: Channel)
    ensures ChannelIds(channels[t := ch]) == ChannelIds(channels)[t := ch.id]
  {
  }

  lemma SubscribeOneMore(s: State, topics: seq<Topic>, i: nat)
    requires i < |topics|
    ensures SubscribeAll(s, topics[..i + 1]) ==
            (Step(SubscribeAll(s, topics[..i]).0, Subscribe(topics[i])),
             SubscribeAll(s, topics[..i]).1[topics[i] := |SubscribeAll(s, topics[..i]).0.chans|])
  {
    assert topics[..i + 1][..i] == topics[..i];
  }

  method SubscribeTopics(b: Broker, topics: seq<Topic>) returns (channels: map<Topic, Channel>)
    requires b.Valid()
    modifies b
    ensures b.Valid()
    ensures b.state == SubscribeAll(old(b.state), topics).0
    ensures ChannelIds(channels) == SubscribeAll(old(b.state), topics).1
    ensures forall t :: t in channels ==> channels[t] in b.all
  {
    channels := map[];
    ghost var s0 := b.state;
    for i := 0 to |topics|
      invariant b.Valid()
      invariant b.state == SubscribeAll(s0, topics[..i]).0
      invariant ChannelIds(channels) == SubscribeAll(s0, topics[..i]).1
      invariant Numbered(channels, b.all)
    {
      SubscribeOneMore(s0, topics, i);
      var ch := b.Subscribe(topics[i]);
      OneMoreChannel(channels, topics[i], ch);
      channels := channels[topics[i] := ch];
    }
    assert topics[..|topics|] == topics;
  }

  /** The keys of a map in some order; Go's map iteration picks an arbitrary one. */
  method KeyOrder(keys: set<Topic>) returns (order: seq<Topic>)
    ensures Lists(order, keys)
  {
    var rest := keys;
    order := [];
    while rest != {}
      invariant rest <= keys && Lists(order, keys - rest)
      decreases |rest|
    {
      var t :| t in rest;
      assert keys - rest + {t} == keys - (rest - {t});
      rest := rest - {t};
      order := order + [t];
    }
    assert keys - {} == keys;
  }

  lemma UnsubscribeOneMore(s: State, ids: map<Topic, nat>, order: seq<Topic>, i: nat)
    requires i < |order| && order[i] in ids
    ensures UnsubscribeAll(s, ids, order[..i + 1]) ==
      Step(UnsubscribeAll(s, ids, order[..i]), Unsubscribe(order[i], ids[order[i]]))
  {
    assert order[..i + 1][..i] == order[..i];
  }

  /** The deferred cleanup of a connection. */
  method UnsubscribeTopics(b: Broker, channels: map<Topic, Channel>) returns (order: seq<Topic>)
    requires b.Valid() && forall t :: t in channels ==> channels[t] in b.all
    modifies b, b.all
    ensures b.Valid() && b.all == old(b.all)
    ensures Lists(order, channels.Keys)
    ensures b.state == UnsubscribeAll(old(b.state), ChannelIds(channels), order)
  {
    order := KeyOrder(channels.Keys);
    ghost var s0, ids := b.state, ChannelIds(channels);
    for i := 0 to |order|
      invariant b.Valid() && b.all == old(b.all)
      invariant b.state == UnsubscribeAll(s0, ids, order[..i])
    {
      var t := order[i];
      assert t in order;
      UnsubscribeOneMore(s0, ids, order, i);
      b.Unsubscribe(t, channels[t]);
    }
    assert order[..|order|] == order;
  }
}
