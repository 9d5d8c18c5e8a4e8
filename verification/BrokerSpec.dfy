/**
 * What the message broker of internal/broker/broker.go does, as a state machine over whole histories of calls.
 * Channels are named by the order in which they were created.
 */
module BrokerSpec {
  import opened Text

  type Topic = string
  type Payload = string

  // Buffer size of every subscriber channel.
  const CAPACITY := 64

  /** A subscriber channel: what waits in it, what its reader has already taken, and whether it is open. */
  datatype Chan = Chan(topic: Topic, buf: seq<Payload>, open: bool, taken: seq<Payload>) {
    predicate HasRoom() { |buf| < CAPACITY }

    function Deliver(p: Payload): Chan {
      if HasRoom() then this.(buf := buf + [p]) else this.(open := false)
    }

    function Stream(): seq<Payload> { taken + buf }
  }

  datatype State = State(subs: map<Topic, seq<nat>>, cache: map<Topic, Payload>, chans: seq<Chan>)

  datatype Event =
    | Subscribe(topic: Topic)
    | Unsubscribe(topic: Topic, chan: nat)
    | Publish(topic: Topic, payload: Payload)
    | PublishNoCache(topic: Topic, payload: Payload)
    | Receive(chan: nat)

  const INIT := State(map[], map[], [])

  function Subs(s: State, t: Topic): seq<nat> {
    if t in s.subs then s.subs[t] else []
  }

  /** The subscribers of `ids` whose channel still has room, in order. */
  function Survivors(ids: seq<nat>, chans: seq<Chan>): seq<nat>
  {
    if ids == [] then []
    else
      var c := ids[|ids| - 1];
      Survivors(ids[..|ids| - 1], chans) + if c < |chans| && chans[c].HasRoom() then [c] else []
  }

  /** `ids` without the first occurrence of c. */
  function Without(ids: seq<nat>, c: nat): seq<nat> {
    if ids == [] then [] else if ids[0] == c then ids[1..] else [ids[0]] + Without(ids[1..], c)
  }

  function DeliverAll(chans: seq<Chan>, ids: seq<nat>, p: Payload): (r: seq<Chan>)
    ensures |r| == |chans|
    ensures forall c :: 0 <= c < |chans| ==> r[c] == if c in ids then chans[c].Deliver(p) else chans[c]
  {
    seq(|chans|, c requires 0 <= c < |chans| => if c in ids then chans[c].Deliver(p) else chans[c])
  }

  function PublishTo(s: State, t: Topic, p: Payload): State {
    var ids := Subs(s, t);
    s.(subs := s.subs[t := Survivors(ids, s.chans)], chans := DeliverAll(s.chans, ids, p))
  }

  function Step(s: State, e: Event): State {
    match e
    case Subscribe(t) =>
      var first := if t in s.cache then [s.cache[t]] else [];
      s.(subs := s.subs[t := Subs(s, t) + [|s.chans|]], chans := s.chans + [Chan(t, first, true, [])])
    case Unsubscribe(t, c) =>
      if c in Subs(s, t) && c < |s.chans| then
        s.(subs := s.subs[t := Without(Subs(s, t), c)], chans := s.chans[c := s.chans[c].(open := false)])
      else s
    case Publish(t, p) => PublishTo(s.(cache := s.cache[t := p]), t, p)
    case PublishNoCache(t, p) => PublishTo(s, t, p)
    case Receive(c) =>
      if c < |s.chans| && s.chans[c].buf != [] then
        var ch := s.chans[c];
        s.(chans := s.chans[c := ch.(buf := ch.buf[1..], taken := ch.taken + [ch.buf[0]])])
      else s
  }

  function Run(h: seq<Event>): State {
    if h == [] then INIT else Step(Run(h[..|h| - 1]), h[|h| - 1])
  }

  // ---- The invariant of the subscriber lists ----

  ghost predicate NoDup(ids: seq<nat>) {
    forall i, j :: 0 <= i < j < |ids| ==> ids[i] != ids[j]
  }

  /** Lists hold no channel twice, a list holds exactly the open channels of its topic, no buffer overflows. */
  ghost predicate Inv(s: State) {
    && (forall t :: t in s.subs ==> NoDup(s.subs[t]))
    && (forall t, c :: c in Subs(s, t) ==> c < |s.chans|)
    && (forall t, c: nat :: c < |s.chans| ==> (c in Subs(s, t) <==> s.chans[c].open && s.chans[c].topic == t))
    && (forall c: nat :: c < |s.chans| ==> |s.chans[c].buf| <= CAPACITY)
  }

  lemma {:induction false} SurvivorsMembers(ids: seq<nat>, chans: seq<Chan>)
    ensures forall c :: c in Survivors(ids, chans) <==> c in ids && c < |chans| && chans[c].HasRoom()
    ensures NoDup(ids) ==> NoDup(Survivors(ids, chans))
  {
    if ids != [] {
      var front := ids[..|ids| - 1];
      SurvivorsMembers(front, chans);
      assert ids == front + [ids[|ids| - 1]];
    }
  }

  lemma PrependNoDup(c: nat, ids: seq<nat>)
    requires NoDup(ids) && c !in ids
    ensures NoDup([c] + ids)
  {
  }

  lemma {:induction false} WithoutMembers(ids: seq<nat>, c: nat)
    requires NoDup(ids)
    ensures forall d :: d in Without(ids, c) <==> d in ids && d != c
    ensures NoDup(Without(ids, c))
  {
    if ids != [] {
      var rest := ids[1..];
      assert ids == [ids[0]] + rest;
      assert ids[0] !in rest && NoDup(rest);
      WithoutMembers(rest, c);
      if ids[0] != c {
        PrependNoDup(ids[0], Without(rest, c));
      }
    }
  }

  lemma PublishKeepsInv(s: State, t: Topic, p: Payload)
    requires Inv(s)
    ensures Inv(PublishTo(s, t, p))
  {
    SurvivorsMembers(Subs(s, t), s.chans);
    var s' := PublishTo(s, t, p);
    assert forall u :: u != t ==> Subs(s', u) == Subs(s, u);
  }

  lemma SubscribeKeepsInv(s: State, t: Topic)
    requires Inv(s)
    ensures Inv(Step(s, Subscribe(t)))
  {
    var s' := Step(s, Subscribe(t));
    var l := Subs(s, t);
    assert NoDup(l);
    forall i | 0 <= i < |l| ensures l[i] < |s.chans| {
      assert l[i] in Subs(s, t);
    }
    assert Subs(s', t) == l + [|s.chans|];
    assert NoDup(Subs(s', t));
    assert forall u :: u != t ==> Subs(s', u) == Subs(s, u);
  }

  lemma UnsubscribeKeepsInv(s: State, t: Topic, c: nat)
    requires Inv(s)
    ensures Inv(Step(s, Unsubscribe(t, c)))
  {
    if c in Subs(s, t) {
      WithoutMembers(Subs(s, t), c);
      var s' := Step(s, Unsubscribe(t, c));
      assert forall u :: u != t ==> Subs(s', u) == Subs(s, u);
    }
  }

  lemma StepKeepsInv(s: State, e: Event)
    requires Inv(s)
    ensures Inv(Step(s, e))
  {
    match e
    case Subscribe(t) => SubscribeKeepsInv(s, t);
    case Unsubscribe(t, c) => UnsubscribeKeepsInv(s, t, c);
    case Publish(t, p) =>
      var cached := s.(cache := s.cache[t := p]);
      assert forall u :: Subs(cached, u) == Subs(s, u);
      PublishKeepsInv(cached, t, p);
    case PublishNoCache(t, p) => PublishKeepsInv(s, t, p);
    case Receive(c) =>
      assert forall u :: Subs(Step(s, e), u) == Subs(s, u);
  }

  lemma {:induction false} RunInv(h: seq<Event>)
    ensures Inv(Run(h))
  {
    if h != [] {
      RunInv(h[..|h| - 1]);
      StepKeepsInv(Run(h[..|h| - 1]), h[|h| - 1]);
    }
  }

  /** Lists of different topics share no channel, so closing or filling one never touches another's. */
  lemma ListsAreDisjoint(h: seq<Event>, t: Topic, u: Topic, c: nat)
    requires t != u && c in Subs(Run(h), t)
    ensures c !in Subs(Run(h), u)
  {
    RunInv(h);
    assert Run(h).chans[c].topic == t;
  }

  // ---- What a subscription receives ----

  function Created(h: seq<Event>): nat {
    if h == [] then 0 else Created(h[..|h| - 1]) + if h[|h| - 1].Subscribe? then 1 else 0
  }

  /** Position in the history of the call that created channel c. */
  function Born(h: seq<Event>, c: nat): (b: nat)
    requires c < Created(h)
    ensures b < |h| && h[b].Subscribe?
  {
    if c == Created(h[..|h| - 1]) then |h| - 1 else Born(h[..|h| - 1], c)
  }

  /** The payload a new subscriber of `t` would be handed first. */
  function LastCached(h: seq<Event>, t: Topic): seq<Payload> {
    if h == [] then []
    else
      var e := h[|h| - 1];
      if e.Publish? && e.topic == t then [e.payload] else LastCached(h[..|h| - 1], t)
  }

  function Sent(e: Event, t: Topic): seq<Payload> {
    if (e.Publish? || e.PublishNoCache?) && e.topic == t then [e.payload] else []
  }

  /** Everything published to `t` during h, in order. */
  function Published(h: seq<Event>, t: Topic): seq<Payload> {
    if h == [] then [] else Published(h[..|h| - 1], t) + Sent(h[|h| - 1], t)
  }

  /** The value cached after `before`, then everything published in `since`. */
  function Flow(before: seq<Event>, since: seq<Event>, t: Topic): seq<Payload> {
    LastCached(before, t) + Published(since, t)
  }

  /** What channel c should have carried by the end of h: the cached value, then everything published since. */
  function Expected(h: seq<Event>, c: nat): seq<Payload>
    requires c < Created(h)
  {
    var b := Born(h, c);
    Flow(h[..b], h[b + 1..], h[b].topic)
  }

  /** Event e closes channel c: an unsubscribe, or a publish that finds the buffer full. */
  ghost predicate Closes(s: State, e: Event, c: nat)
    requires c < |s.chans|
  {
    var ch := s.chans[c];
    ch.open && match e
      case Unsubscribe(t, d) => t == ch.topic && d == c
      case Publish(t, _) => t == ch.topic && |ch.buf| == CAPACITY
      case PublishNoCache(t, _) => t == ch.topic && |ch.buf| == CAPACITY
      case _ => false
  }

  /** One event extends the stream of an open channel by what it sends there, or closes the channel. */
  lemma ChannelStep(s: State, e: Event, c: nat)
    requires Inv(s) && c < |s.chans|
    ensures c < |Step(s, e).chans| && Step(s, e).chans[c].topic == s.chans[c].topic
    ensures Step(s, e).chans[c].open <==> s.chans[c].open && !Closes(s, e, c)
    ensures Step(s, e).chans[c].Stream() ==
            s.chans[c].Stream() + if Step(s, e).chans[c].open then Sent(e, s.chans[c].topic) else []
  {
    var ch, ch' := s.chans[c], Step(s, e).chans[c];
    match e
    case Subscribe(t) =>
    case Unsubscribe(t, d) =>
    case Publish(t, p) =>
      assert Subs(s.(cache := s.cache[t := p]), t) == Subs(s, t);
      assert c in Subs(s, t) && ch.HasRoom() ==> ch'.Stream() == ch.Stream() + [p];
    case PublishNoCache(t, p) =>
      assert c in Subs(s, t) && ch.HasRoom() ==> ch'.Stream() == ch.Stream() + [p];
    case Receive(d) =>
      assert ch'.Stream() == ch.Stream();
  }

  /** A publish closes a subscriber of its topic exactly if that has 64 payloads unread. */
  lemma ClosedWhenFull(s: State, t: Topic, p: Payload, c: nat)
    requires Inv(s) && c < |s.chans| && s.chans[c].open && s.chans[c].topic == t
    ensures c < |Step(s, Publish(t, p)).chans|
    ensures !Step(s, Publish(t, p)).chans[c].open <==> |s.chans[c].buf| == 64
  {
    ChannelStep(s, Publish(t, p), c);
  }

  ghost predicate StoppedAt(h: seq<Event>, k: nat, c: nat, stream: seq<Payload>) {
    && k < |h| && c < Created(h[..k]) && c < |Run(h[..k]).chans|
    && Closes(Run(h[..k]), h[k], c)
    && stream == Expected(h[..k], c)
  }

  lemma {:induction false} CreatedAndCached(h: seq<Event>)
    ensures |Run(h).chans| == Created(h)
    ensures forall t :: LastCached(h, t) == if t in Run(h).cache then [Run(h).cache[t]] else []
  {
    if h != [] {
      CreatedAndCached(h[..|h| - 1]);
    }
  }

  lemma BornStays(h: seq<Event>, e: Event, c: nat)
    requires c < Created(h)
    ensures c < Created(h + [e]) && Born(h + [e], c) == Born(h, c)
  {
    assert (h + [e])[..|h|] == h;
  }

  /** One more event adds to the expected stream exactly what it sends to the channel's topic. */
  lemma ExpectedGrows(h: seq<Event>, e: Event, c: nat)
    requires c < Created(h)
    ensures c < Created(h + [e]) && Born(h + [e], c) == Born(h, c)
    ensures Expected(h + [e], c) == Expected(h, c) + Sent(e, h[Born(h, c)].topic)
  {
    BornStays(h, e, c);
    var all, b := h + [e], Born(h, c);
    assert all[..b] == h[..b] && all[b] == h[b] && all[b + 1..] == h[b + 1..] + [e];
    FlowSnoc(h[..b], h[b + 1..], e, h[b].topic);
  }

  lemma FlowSnoc(before: seq<Event>, since: seq<Event>, e: Event, t: Topic)
    ensures Flow(before, since + [e], t) == Flow(before, since, t) + Sent(e, t)
  {
    PublishedSnoc(since, e, t);
  }

  lemma PublishedSnoc(h: seq<Event>, e: Event, t: Topic)
    ensures Published(h + [e], t) == Published(h, t) + Sent(e, t)
  {
    assert (h + [e])[..|h|] == h;
  }

  ghost predicate Streams(h: seq<Event>, c: nat)
    requires c < Created(h) && |Run(h).chans| == Created(h)
  {
    var ch := Run(h).chans[c];
    && ch.topic == h[Born(h, c)].topic
    && (ch.open ==> ch.Stream() == Expected(h, c))
    && (!ch.open ==> exists k :: StoppedAt(h, k, c, ch.Stream()))
  }

  lemma NewbornStreams(h: seq<Event>, t: Topic)
    ensures Created(h + [Subscribe(t)]) == Created(h) + 1
    ensures |Run(h + [Subscribe(t)]).chans| == Created(h) + 1
    ensures Streams(h + [Subscribe(t)], Created(h))
  {
    var all := h + [Subscribe(t)];
    assert all[..|all| - 1] == h;
    CreatedAndCached(h);
    CreatedAndCached(all);
    var c := Created(h);
    assert Born(all, c) == |h| && all[|h| + 1..] == [];
    assert Run(all).chans[c].Stream() == Expected(all, c);
  }

  lemma RunSnoc(h: seq<Event>, e: Event)
    ensures Run(h + [e]) == Step(Run(h), e)
    ensures Created(h + [e]) == Created(h) + if e.Subscribe? then 1 else 0
  {
    assert (h + [e])[..|h|] == h;
  }

  lemma OpenStreamsStep(h: seq<Event>, e: Event, c: nat)
    requires c < Created(h) == |Run(h).chans| && Created(h + [e]) == |Run(h + [e]).chans|
    requires Run(h).chans[c].open && Streams(h, c)
    ensures c < Created(h + [e]) && Streams(h + [e], c)
  {
    RunSnoc(h, e);
    RunInv(h);
    ChannelStep(Run(h), e, c);
    ExpectedGrows(h, e, c);
    var all := h + [e];
    assert all[..|h|] == h && all[|h|] == e;
    var ch' := Run(all).chans[c];
    if !ch'.open {
      assert StoppedAt(all, |h|, c, ch'.Stream());
    }
  }

  lemma StoppedStays(h: seq<Event>, e: Event, k: nat, c: nat, stream: seq<Payload>)
    requires StoppedAt(h, k, c, stream)
    ensures StoppedAt(h + [e], k, c, stream)
  {
    assert (h + [e])[..k] == h[..k] && (h + [e])[k] == h[k];
  }

  lemma ClosedStreamsStep(h: seq<Event>, e: Event, c: nat)
    requires c < Created(h) == |Run(h).chans| && Created(h + [e]) == |Run(h + [e]).chans|
    requires !Run(h).chans[c].open && Streams(h, c)
    ensures c < Created(h + [e]) && Streams(h + [e], c)
  {
    RunSnoc(h, e);
    RunInv(h);
    ChannelStep(Run(h), e, c);
    ExpectedGrows(h, e, c);
    var stream := Run(h).chans[c].Stream();
    assert Run(h + [e]).chans[c].Stream() == stream;
    var k :| StoppedAt(h, k, c, stream);
    StoppedStays(h, e, k, c, stream);
  }

  /**
   * Over every history of calls: an open channel has carried the value cached when it was created followed by
   * everything published to its topic since, in order and without a gap; a closed one carried exactly what came
   * before the call that closed it, and a publish closes only channels that hold a full buffer.
   */
  lemma {:induction false} SubscriptionStream(h: seq<Event>, c: nat)
    requires c < Created(h)
    ensures |Run(h).chans| == Created(h) && Streams(h, c)
  {
    CreatedAndCached(h);
    var h0, e := h[..|h| - 1], h[|h| - 1];
    assert h == h0 + [e];
    CreatedAndCached(h0);
    if c < Created(h0) {
      SubscriptionStream(h0, c);
      if Run(h0).chans[c].open {
        OpenStreamsStep(h0, e, c);
      } else {
        ClosedStreamsStep(h0, e, c);
      }
    } else {
      NewbornStreams(h0, e.topic);
    }
  }
}
