/** The change detection of internal/broker/poller.go: a polled value is published only when it changed. */
module Poller {
  import opened Text
  import opened BrokerSpec
  import opened Broker

  // What happens while the poller runs: it polls a value, or somebody else calls the broker.
  datatype Happening = Polled(topic: Topic, raw: Payload) | Other(e: Event)

  datatype World = World(last: map<Topic, Payload>, hist: seq<Event>)

  /** The value the poller compares with; a topic it never published compares with no bytes at all. */
  function LastSeen(last: map<Topic, Payload>, t: Topic): Payload {
    if t in last then last[t] else ""
  }

  function PollOne(w: World, t: Topic, raw: Payload): World {
    if LastSeen(w.last, t) == raw then w
    else World(w.last[t := raw], w.hist + [BrokerSpec.Publish(t, raw)])
  }

  function Live(happenings: seq<Happening>): World {
    if happenings == [] then World(map[], [])
    else
      var w := Live(happenings[..|happenings| - 1]);
      match happenings[|happenings| - 1]
      case Polled(t, raw) => PollOne(w, t, raw)
      case Other(e) => World(w.last, w.hist + [e])
  }

  class Poller {
    const broker: Broker
    var last: map<Topic, Payload>

    constructor (broker: Broker)
      ensures this.broker == broker && last == map[]
    {
      this.broker, last := broker, map[];
    }

    /** One call of the publish closure; `data` is None when the value cannot be encoded. */
    method PublishIfChanged(t: Topic, data: Option<Payload>)
      requires broker.Valid()
      modifies this, broker, broker.all
      ensures broker.Valid() && broker.all == old(broker.all)
      ensures data.None? ==> last == old(last) && broker.state == old(broker.state)
      ensures data.Some? ==> forall h :: Run(h) == old(broker.state) ==>
        var w := PollOne(World(old(last), h), t, data.value);
        last == w.last && broker.state == Run(w.hist)
    {
      if data.None? {
        return;
      }
      if LastSeen(last, t) == data.value {
        return;
      }
      last := last[t := data.value];
      ghost var before := broker.state;
      broker.Publish(t, data);
      forall h | Run(h) == before ensures broker.state == Run(h + [BrokerSpec.Publish(t, data.value)]) {
        RunSnoc(h, BrokerSpec.Publish(t, data.value));
      }
    }
  }

  // ---- What the stream of a polled topic looks like ----

  function Polls(happenings: seq<Happening>, t: Topic): seq<Payload> {
    if happenings == [] then []
    else
      var h := happenings[|happenings| - 1];
      Polls(happenings[..|happenings| - 1], t) + if h.Polled? && h.topic == t then [h.raw] else []
  }

  /** The sequence without values that repeat their predecessor. */
  function WithoutRepeats(s: seq<Payload>): seq<Payload> {
    if s == [] then []
    else WithoutRepeats(s[..|s| - 1]) + if |s| > 1 && s[|s| - 2] == s[|s| - 1] then [] else [s[|s| - 1]]
  }

  ghost predicate OnlyPublisher(happenings: seq<Happening>, t: Topic) {
    forall i :: 0 <= i < |happenings| && happenings[i].Other? ==> Sent(happenings[i].e, t) == []
  }

  // Encoded values are never empty texts.
  ghost predicate Encoded(happenings: seq<Happening>) {
    forall i :: 0 <= i < |happenings| && happenings[i].Polled? ==> happenings[i].raw != ""
  }

  lemma RepeatsSnoc(s: seq<Payload>, p: Payload)
    ensures WithoutRepeats(s + [p]) == WithoutRepeats(s) + if s != [] && s[|s| - 1] == p then [] else [p]
  {
    assert (s + [p])[..|s|] == s;
  }

  /** What is published and cached for a topic after these polls of it. */
  ghost predicate Tracks(w: World, t: Topic, polls: seq<Payload>) {
    && Published(w.hist, t) == WithoutRepeats(polls)
    && LastSeen(w.last, t) == (if polls == [] then "" else polls[|polls| - 1])
    && LastCached(w.hist, t) == (if polls == [] then [] else [polls[|polls| - 1]])
  }

  lemma HistSnoc(hist: seq<Event>, e: Event, t: Topic)
    ensures Published(hist + [e], t) == Published(hist, t) + Sent(e, t)
    ensures LastCached(hist + [e], t) == if e.Publish? && e.topic == t then [e.payload] else LastCached(hist, t)
  {
    assert (hist + [e])[..|hist|] == hist;
  }

  lemma PollTracks(w: World, u: Topic, raw: Payload, t: Topic, polls: seq<Payload>)
    requires Tracks(w, t, polls) && raw != ""
    ensures Tracks(PollOne(w, u, raw), t, if u == t then polls + [raw] else polls)
  {
    RepeatsSnoc(polls, raw);
    HistSnoc(w.hist, BrokerSpec.Publish(u, raw), t);
  }

  /**
   * While the poller is the only publisher of a topic, the topic carries the polled sequence without consecutive
   * repeats, and the broker caches the latest polled value.
   */
  lemma {:induction false} PublishedWithoutRepeats(happenings: seq<Happening>, t: Topic)
    requires OnlyPublisher(happenings, t) && Encoded(happenings)
    ensures Tracks(Live(happenings), t, Polls(happenings, t))
  {
    if happenings != [] {
      var front, h := happenings[..|happenings| - 1], happenings[|happenings| - 1];
      PublishedWithoutRepeats(front, t);
      var w := Live(front);
      match h
      case Polled(u, raw) =>
        PollTracks(w, u, raw, t, Polls(front, t));
        assert Polls(front, t) + [] == Polls(front, t);
      case Other(e) =>
        HistSnoc(w.hist, e, t);
        assert Published(w.hist, t) + [] == Published(w.hist, t) && Polls(front, t) + [] == Polls(front, t);
    }
  }

  /**
   * What somebody else was the last to have cached for the topic since the poller last published there; a poll that
   * finds the value of the poll before it publishes nothing.
   */
  function Foreign(happenings: seq<Happening>, t: Topic): Option<Payload> {
    if happenings == [] then None
    else
      var front := happenings[..|happenings| - 1];
      var polls := Polls(front, t);
      match happenings[|happenings| - 1]
      case Polled(u, raw) => if u == t && (polls == [] || polls[|polls| - 1] != raw) then None else Foreign(front, t)
      case Other(e) => if e.Publish? && e.topic == t then Some(e.payload) else Foreign(front, t)
  }

  // What the poller remembers and what is cached, given the polls and what was foreign last.
  ghost predicate Remembers(w: World, t: Topic, polls: seq<Payload>, foreign: Option<Payload>) {
    && LastSeen(w.last, t) == (if polls == [] then "" else polls[|polls| - 1])
    && LastCached(w.hist, t) ==
         match foreign
         case Some(p) => [p]
         case None => if polls == [] then [] else [polls[|polls| - 1]]
  }

  lemma RememberPoll(w: World, u: Topic, raw: Payload, t: Topic, polls: seq<Payload>, foreign: Option<Payload>)
    requires Remembers(w, t, polls, foreign) && raw != ""
    ensures var changed := polls == [] || polls[|polls| - 1] != raw;
      Remembers(PollOne(w, u, raw), t, if u == t then polls + [raw] else polls,
                if u == t && changed then None else foreign)
  {
    HistSnoc(w.hist, BrokerSpec.Publish(u, raw), t);
  }

  /** Whoever else publishes, at any time: the cache holds what was foreign last, or else the latest poll. */
  lemma {:induction false} RemembersAlways(happenings: seq<Happening>, t: Topic)
    requires Encoded(happenings)
    ensures Remembers(Live(happenings), t, Polls(happenings, t), Foreign(happenings, t))
  {
    if happenings != [] {
      var front, h := happenings[..|happenings| - 1], happenings[|happenings| - 1];
      assert forall i :: 0 <= i < |front| ==> front[i] == happenings[i];
      RemembersAlways(front, t);
      var polls := Polls(front, t);
      assert polls + [] == polls;
      match h
      case Polled(u, raw) =>
        RememberPoll(Live(front), u, raw, t, polls, Foreign(front, t));
      case Other(e) =>
        HistSnoc(Live(front).hist, e, t);
    }
  }

  /**
   * So after any poll the cache is up to date exactly when nobody else had cached another value since the poller last
   * published.
   */
  lemma CacheAfterPoll(happenings: seq<Happening>, t: Topic)
    requires Encoded(happenings) && Polls(happenings, t) != []
    ensures var latest, foreign := Polls(happenings, t)[|Polls(happenings, t)| - 1], Foreign(happenings, t);
      LastCached(Live(happenings).hist, t) == [latest] <==> foreign.None? || foreign.value == latest
  {
    RemembersAlways(happenings, t);
  }

  /** Poll a value, let somebody else publish another one, poll the first value again: the cache keeps the other. */
  lemma OtherPublisherHidesPoll(t: Topic, raw: Payload, other: Payload)
    requires raw != "" && other != raw
    ensures var w1 := PollOne(World(map[], []), t, raw);
      var w2 := World(w1.last, w1.hist + [BrokerSpec.Publish(t, other)]);
      PollOne(w2, t, raw) == w2 && LastCached(w2.hist, t) == [other]
  {
    var w1 := PollOne(World(map[], []), t, raw);
    HistSnoc(w1.hist, BrokerSpec.Publish(t, other), t);
  }
}
