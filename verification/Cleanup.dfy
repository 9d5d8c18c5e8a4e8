/**
 * What is left of the subscriptions of an event stream (internal/api/handlers.go) when it is over, with any other use
 * of the broker before, between and after its own calls.
 */
module Cleanup {
  import opened Text
  import opened BrokerSpec
  import opened Fanin

  // The calls that need a reference to the channel.
  predicate Touches(e: Event, c: nat) {
    (e.Receive? || e.Unsubscribe?) && e.chan == c
  }

  ghost predicate Untouched(h: seq<Event>, c: nat) {
    forall k :: 0 <= k < |h| ==> !Touches(h[k], c)
  }

  /** A subscription that nobody reads or gives up stays open exactly as long as what it was sent fits its buffer. */
  lemma {:induction false} UntouchedChannel(h: seq<Event>, c: nat)
    requires c < Created(h) && Untouched(h, c)
    ensures |Run(h).chans| == Created(h)
    ensures var ch := Run(h).chans[c];
      && ch.topic == h[Born(h, c)].topic && ch.taken == []
      && (ch.open <==> |Expected(h, c)| <= CAPACITY) && (ch.open ==> ch.buf == Expected(h, c))
  {
    CreatedAndCached(h);
    var h0, e := h[..|h| - 1], h[|h| - 1];
    assert h == h0 + [e];
    CreatedAndCached(h0);
    if c < Created(h0) {
      assert forall k :: 0 <= k < |h0| ==> h0[k] == h[k];
      UntouchedChannel(h0, c);
      UntouchedStep(h0, e, c);
    } else {
      NewbornStreams(h0, e.topic);
      NewbornExpects(h0, e.topic);
    }
  }

  lemma NewbornExpects(h: seq<Event>, t: Topic)
    ensures Created(h + [Subscribe(t)]) == Created(h) + 1
    ensures |Expected(h + [Subscribe(t)], Created(h))| <= 1
    ensures |Run(h + [Subscribe(t)]).chans| == Created(h) + 1
    ensures var ch := Run(h + [Subscribe(t)]).chans[Created(h)]; ch.open && ch.taken == []
  {
    var all := h + [Subscribe(t)];
    assert all[..|all| - 1] == h;
    CreatedAndCached(h);
    assert Born(all, Created(h)) == |h| && all[|h| + 1..] == [] && all[..|h|] == h;
  }

  lemma UntouchedStep(h: seq<Event>, e: Event, c: nat)
    requires c < Created(h) == |Run(h).chans| && Created(h + [e]) == |Run(h + [e]).chans| && !Touches(e, c)
    requires var ch := Run(h).chans[c];
      && ch.topic == h[Born(h, c)].topic && ch.taken == []
      && (ch.open <==> |Expected(h, c)| <= CAPACITY) && (ch.open ==> ch.buf == Expected(h, c))
    ensures c < Created(h + [e])
    ensures var ch := Run(h + [e]).chans[c];
      && ch.topic == (h + [e])[Born(h + [e], c)].topic && ch.taken == []
      && (ch.open <==> |Expected(h + [e], c)| <= CAPACITY) && (ch.open ==> ch.buf == Expected(h + [e], c))
  {
    RunSnoc(h, e);
    RunInv(h);
    ChannelStep(Run(h), e, c);
    ExpectedGrows(h, e, c);
    var ch, ch' := Run(h).chans[c], Run(h + [e]).chans[c];
    assert ch'.taken == [];
    assert ch.Stream() == ch.buf && ch'.Stream() == ch'.buf;
  }

  /** An unsubscribed channel is closed for good. */
  lemma {:induction false} GivenUpChannel(h: seq<Event>, c: nat, k: nat)
    requires c < Created(h) && Born(h, c) < k < |h| && h[k] == Unsubscribe(h[Born(h, c)].topic, c)
    ensures |Run(h).chans| == Created(h) && !Run(h).chans[c].open
  {
    CreatedAndCached(h);
    var h0, e := h[..|h| - 1], h[|h| - 1];
    assert h == h0 + [e];
    CreatedAndCached(h0);
    BornStays(h0, e, c);
    RunSnoc(h0, e);
    RunInv(h0);
    SubscriptionStream(h0, c);
    ChannelStep(Run(h0), e, c);
    if k < |h| - 1 {
      GivenUpChannel(h0, c, k);
    }
  }

  /**
   * A connection within a history that is over: mine[i] is the channel of its i-th subscribe. Only the last channel of
   * a topic is in its map, so the others are read and given up by nobody; that one is given up at the end.
   */
  ghost predicate Session(h: seq<Event>, topics: seq<Topic>, mine: seq<nat>) {
    && |mine| == |topics|
    && forall i :: 0 <= i < |topics| ==> SubscriptionOf(h, topics, i, mine[i])
  }

  ghost predicate SubscriptionOf(h: seq<Event>, topics: seq<Topic>, i: nat, c: nat)
    requires i < |topics|
  {
    && c < Created(h) && h[Born(h, c)].topic == topics[i]
    && if LastAt(topics, topics[i], i) then exists k :: Born(h, c) < k < |h| && h[k] == Unsubscribe(topics[i], c)
       else Untouched(h, c)
  }

  /**
   * Whatever else is called meanwhile: a subscription is still open at the end exactly if its topic was requested
   * again later and all it was sent since still fits its buffer.
   */
  lemma SubscriptionLeft(h: seq<Event>, topics: seq<Topic>, mine: seq<nat>, i: nat)
    requires Session(h, topics, mine) && i < |topics|
    ensures mine[i] < Created(h) == |Run(h).chans|
    ensures Run(h).chans[mine[i]].open <==> !LastAt(topics, topics[i], i) && |Expected(h, mine[i])| <= CAPACITY
  {
    assert SubscriptionOf(h, topics, i, mine[i]);
    CreatedAndCached(h);
    if LastAt(topics, topics[i], i) {
      var k :| Born(h, mine[i]) < k < |h| && h[k] == Unsubscribe(topics[i], mine[i]);
      GivenUpChannel(h, mine[i], k);
    } else {
      UntouchedChannel(h, mine[i]);
    }
  }

  /**
   * Nothing is left exactly if each subscription that a repeated topic replaced has since been sent more than fits its
   * buffer, so that the broker closed it; in particular if no topic was requested twice.
   */
  lemma CleanupIsCompleteIff(h: seq<Event>, topics: seq<Topic>, mine: seq<nat>)
    requires Session(h, topics, mine)
    ensures |Run(h).chans| == Created(h) && forall i :: 0 <= i < |topics| ==> mine[i] < Created(h)
    ensures (forall i :: 0 <= i < |topics| ==> !Run(h).chans[mine[i]].open) <==>
      (forall i :: 0 <= i < |topics| && !LastAt(topics, topics[i], i) ==> |Expected(h, mine[i])| > CAPACITY)
    ensures DistinctTopics(topics) ==> forall i :: 0 <= i < |topics| ==> !Run(h).chans[mine[i]].open
  {
    CreatedAndCached(h);
    forall i | 0 <= i < |topics|
      ensures mine[i] < Created(h)
      ensures Run(h).chans[mine[i]].open <==> !LastAt(topics, topics[i], i) && |Expected(h, mine[i])| <= CAPACITY
    {
      SubscriptionLeft(h, topics, mine, i);
    }
    AllLastIffDistinct(topics);
  }
}
