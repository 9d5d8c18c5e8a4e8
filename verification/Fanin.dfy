/**
 * One server-sent-events connection: getEvents of internal/api/handlers.go. One forwarder goroutine per topic
 * moves payloads from its broker channel into one merged channel, which the handler writes to the client.
 * A run is any interleaving of these goroutines with the rest of the program's use of the broker.
 */
module Fanin {
  import opened Text
  import opened BrokerSpec

  // Buffer size of the merged channel.
  const MERGED := 16

  // A forwarder waits on its channel, holds a payload it must pass on, or has exited, dropping what it held.
  datatype Forwarder = Waiting | Holding(data: Payload) | Exited(dropped: seq<Payload>)

  datatype Conn = Conn(
    hist: seq<Event>, broker: State,
    chan: map<Topic, nat>, fwd: map<Topic, Forwarder>,
    merged: seq<(Topic, Payload)>, mergedOpen: bool,
    cancelled: bool, returned: bool, left: set<Topic>,
    written: seq<(Topic, Payload)>)

  datatype Action =
    | Environment(e: Event)      // anybody else's call on the broker
    | Take(topic: Topic)         // a forwarder receives a payload
    | SeeClosed(topic: Topic)    // a forwarder finds its channel closed and drained
    | Push(topic: Topic)         // a forwarder sends on the merged channel
    | Quit(topic: Topic)         // a forwarder sees the cancelled context
    | CloseMerged                // after the last forwarder exited
    | Write                      // the handler writes one event
    | ClientGone                 // the request context ends
    | Return                     // the handler's loop ends
    | Leave(topic: Topic)        // the deferred unsubscribe of one topic

  ghost predicate Ours(s: Conn, c: nat) {
    exists t :: t in s.chan && s.chan[t] == c
  }

  ghost predicate Enabled(s: Conn, a: Action) {
    match a
    case Environment(e) => (e.Receive? || e.Unsubscribe?) ==> !Ours(s, e.chan)
    case Take(t) => t in s.fwd && t in s.chan && s.fwd[t].Waiting? && s.chan[t] < |s.broker.chans|
                    && s.broker.chans[s.chan[t]].buf != []
    case SeeClosed(t) => t in s.fwd && t in s.chan && s.fwd[t].Waiting? && s.chan[t] < |s.broker.chans|
                         && s.broker.chans[s.chan[t]].buf == [] && !s.broker.chans[s.chan[t]].open
    case Push(t) => t in s.fwd && s.fwd[t].Holding? && |s.merged| < MERGED
    case Quit(t) => t in s.fwd && !s.fwd[t].Exited? && s.cancelled
    case CloseMerged => s.mergedOpen && forall t :: t in s.fwd ==> s.fwd[t].Exited?
    case Write => !s.returned && s.merged != []
    case ClientGone => true
    case Return => !s.returned && (s.cancelled || (!s.mergedOpen && s.merged == []))
    case Leave(t) => s.returned && t in s.left && t in s.chan
  }

  function Call(s: Conn, e: Event): Conn {
    s.(hist := s.hist + [e], broker := Step(s.broker, e))
  }

  function InHand(f: Forwarder): seq<Payload> {
    match f case Waiting => [] case Holding(d) => [d] case Exited(dropped) => dropped
  }

  ghost function Do(s: Conn, a: Action): Conn
    requires Enabled(s, a)
  {
    match a
    case Environment(e) => Call(s, e)
    case Take(t) => Call(s, Receive(s.chan[t])).(fwd := s.fwd[t := Holding(s.broker.chans[s.chan[t]].buf[0])])
    case SeeClosed(t) => s.(fwd := s.fwd[t := Exited([])], cancelled := true)
    case Push(t) => s.(fwd := s.fwd[t := Waiting], merged := s.merged + [(t, s.fwd[t].data)])
    case Quit(t) => s.(fwd := s.fwd[t := Exited(InHand(s.fwd[t]))])
    case CloseMerged => s.(mergedOpen := false)
    case Write => s.(written := s.written + [s.merged[0]], merged := s.merged[1..])
    case ClientGone => s.(cancelled := true)
    case Return => s.(returned := true, cancelled := true)
    case Leave(t) => Call(s, Unsubscribe(t, s.chan[t])).(left := s.left - {t})
  }

  ghost predicate IsRun(s: Conn, actions: seq<Action>)
    decreases |actions|
  {
    actions == [] || (Enabled(s, actions[0]) && IsRun(Do(s, actions[0]), actions[1..]))
  }

  ghost function After(s: Conn, actions: seq<Action>): Conn
    requires IsRun(s, actions)
    decreases |actions|
  {
    if actions == [] then s else After(Do(s, actions[0]), actions[1..])
  }

  /** The payloads of one topic in a list of events. */
  function Of(t: Topic, events: seq<(Topic, Payload)>): seq<Payload> {
    if events == [] then []
    else Of(t, events[..|events| - 1]) + if events[|events| - 1].0 == t then [events[|events| - 1].1] else []
  }

  lemma OfSnoc(t: Topic, events: seq<(Topic, Payload)>, e: (Topic, Payload))
    ensures Of(t, events + [e]) == Of(t, events) + if e.0 == t then [e.1] else []
  {
    assert (events + [e])[..|events|] == events;
  }

  lemma {:induction false} OfCons(t: Topic, e: (Topic, Payload), events: seq<(Topic, Payload)>)
    ensures Of(t, [e] + events) == (if e.0 == t then [e.1] else []) + Of(t, events)
  {
    if events == [] {
      OfSnoc(t, [], e);
      assert [] + [e] == [e] + events;
    } else {
      var front, last := events[..|events| - 1], events[|events| - 1];
      OfCons(t, e, front);
      assert [e] + events == ([e] + front) + [last];
      OfSnoc(t, [e] + front, last);
    }
  }

  // ---- The connection invariant ----

  /** The state right after the topics were subscribed and the forwarders started; nothing was received yet. */
  ghost predicate Initial(s: Conn) {
    && s.broker == Run(s.hist)
    && s.fwd.Keys == s.chan.Keys == s.left
    && Injective(s.chan)
    && (forall t :: t in s.chan ==> OwnChannel(s, t) && s.broker.chans[s.chan[t]].taken == [] && s.fwd[t].Waiting?)
    && s.merged == [] && s.written == [] && s.mergedOpen && !s.cancelled && !s.returned
  }

  ghost predicate Injective(m: map<Topic, nat>) {
    forall t, u :: t in m && u in m && m[t] == m[u] ==> t == u
  }

  ghost predicate OwnChannel(s: Conn, t: Topic)
    requires t in s.chan
  {
    s.chan[t] < |s.broker.chans| && s.broker.chans[s.chan[t]].topic == t
  }

  /** Everything a forwarder took is written, or merged, or in its hand, in that order. */
  ghost predicate Accounted(s: Conn, t: Topic)
    requires t in s.chan && t in s.fwd && OwnChannel(s, t)
  {
    s.broker.chans[s.chan[t]].taken == Of(t, s.written) + Of(t, s.merged) + InHand(s.fwd[t])
  }

  ghost predicate TopicInv(s: Conn, t: Topic)
    requires t in s.chan
  {
    && t in s.fwd && OwnChannel(s, t) && Accounted(s, t)
    && (t !in s.left ==> !s.broker.chans[s.chan[t]].open)
    && (s.fwd[t].Exited? ==> s.cancelled)
  }

  ghost predicate ConnInv(s: Conn) {
    && s.broker == Run(s.hist)
    && s.fwd.Keys == s.chan.Keys && s.left <= s.chan.Keys && Injective(s.chan)
    && (forall t :: t in s.chan ==> TopicInv(s, t))
    && (!s.mergedOpen ==> forall t :: t in s.fwd ==> s.fwd[t].Exited?)
    && (s.returned ==> s.cancelled)
    && |s.merged| <= MERGED
  }

  lemma InitialInv(s: Conn)
    requires Initial(s)
    ensures ConnInv(s)
  {
  }

  /** A broker call that is not a receive on c leaves what c's reader took, and never reopens it. */
  lemma CallFrame(s: State, e: Event, c: nat)
    requires Inv(s) && c < |s.chans|
    ensures c < |Step(s, e).chans| && Step(s, e).chans[c].topic == s.chans[c].topic
    ensures Step(s, e).chans[c].open ==> s.chans[c].open
    ensures e != Receive(c) ==> Step(s, e).chans[c].taken == s.chans[c].taken
    ensures e == Receive(c) && s.chans[c].buf != [] ==>
      Step(s, e).chans[c].taken == s.chans[c].taken + [s.chans[c].buf[0]]
  {
    ChannelStep(s, e, c);
  }

  /** Each action keeps the books of each topic. */
  lemma TopicStep(s: Conn, a: Action, u: Topic)
    requires ConnInv(s) && Inv(s.broker) && Enabled(s, a) && u in s.chan && u in Do(s, a).chan
    ensures TopicInv(Do(s, a), u)
  {
    assert TopicInv(s, u);
    assert Ours(s, s.chan[u]);
    match a
    case Environment(e) => CallFrame(s.broker, e, s.chan[u]);
    case Take(t) => TakeStep(s, t, u);
    case Leave(t) => LeaveStep(s, t, u);
    case Push(t) => PushStep(s, t, u);
    case Write => WriteStep(s, u);
    case _ =>
  }

  lemma TakeStep(s: Conn, t: Topic, u: Topic)
    requires Inv(s.broker) && Injective(s.chan) && Enabled(s, Take(t)) && u in s.chan && TopicInv(s, u)
    ensures TopicInv(Do(s, Take(t)), u)
  {
    CallFrame(s.broker, Receive(s.chan[t]), s.chan[u]);
    if u == t {
      Regroup(Of(u, s.written), Of(u, s.merged), [s.broker.chans[s.chan[t]].buf[0]]);
      assert InHand(s.fwd[t]) == [];
    }
  }

  lemma LeaveStep(s: Conn, t: Topic, u: Topic)
    requires Inv(s.broker) && Enabled(s, Leave(t)) && u in s.chan && TopicInv(s, u) && TopicInv(s, t)
    ensures TopicInv(Do(s, Leave(t)), u)
  {
    CallFrame(s.broker, Unsubscribe(t, s.chan[t]), s.chan[u]);
    ChannelStep(s.broker, Unsubscribe(t, s.chan[t]), s.chan[u]);
  }

  lemma PushStep(s: Conn, t: Topic, u: Topic)
    requires Enabled(s, Push(t)) && u in s.chan && TopicInv(s, u)
    ensures TopicInv(Do(s, Push(t)), u)
  {
    OfSnoc(u, s.merged, (t, s.fwd[t].data));
    Regroup(Of(u, s.written), Of(u, s.merged), InHand(s.fwd[u]));
  }

  lemma WriteStep(s: Conn, u: Topic)
    requires Enabled(s, Write) && u in s.chan && TopicInv(s, u)
    ensures TopicInv(Do(s, Write), u)
  {
    var first, rest := s.merged[0], s.merged[1..];
    OfSnoc(u, s.written, first);
    OfCons(u, first, rest);
    assert s.merged == [first] + rest;
    Regroup(Of(u, s.written), if first.0 == u then [first.1] else [], Of(u, rest));
  }

  lemma Regroup(a: seq<Payload>, b: seq<Payload>, c: seq<Payload>)
    ensures a + (b + c) == a + b + c
    ensures a + (b + c) + [] == a + b + c
  {
  }

  lemma StepKeeps(s: Conn, a: Action)
    requires ConnInv(s) && Enabled(s, a)
    ensures ConnInv(Do(s, a))
  {
    RunInv(s.hist);
    var s' := Do(s, a);
    StepShape(s, a);
    StepHistory(s, a);
    forall u | u in s'.chan ensures TopicInv(s', u) {
      TopicStep(s, a, u);
    }
  }

  lemma StepHistory(s: Conn, a: Action)
    requires s.broker == Run(s.hist) && Enabled(s, a)
    ensures Do(s, a).broker == Run(Do(s, a).hist)
  {
    match a
    case Environment(e) => RunSnoc(s.hist, e);
    case Take(t) => RunSnoc(s.hist, Receive(s.chan[t]));
    case Leave(t) => RunSnoc(s.hist, Unsubscribe(t, s.chan[t]));
    case _ =>
  }

  lemma StepShape(s: Conn, a: Action)
    requires s.fwd.Keys == s.chan.Keys && Enabled(s, a)
    requires (!s.mergedOpen ==> forall t :: t in s.fwd ==> s.fwd[t].Exited?) && (s.returned ==> s.cancelled)
    requires |s.merged| <= 16
    ensures var s' := Do(s, a);
      && s'.chan == s.chan && s'.fwd.Keys == s.fwd.Keys && s'.left <= s.left
      && (!s'.mergedOpen ==> forall t :: t in s'.fwd ==> s'.fwd[t].Exited?)
      && (s'.returned ==> s'.cancelled) && |s'.merged| <= 16
  {
    match a case _ =>
  }

  lemma {:induction false} RunKeeps(s: Conn, actions: seq<Action>)
    requires ConnInv(s) && IsRun(s, actions)
    ensures ConnInv(After(s, actions))
    decreases |actions|
  {
    if actions != [] {
      StepKeeps(s, actions[0]);
      RunKeeps(Do(s, actions[0]), actions[1..]);
    }
  }

  // ---- What the client sees ----

  /**
   * In every run, the events written for a topic are an initial part of what its subscription carried, hence
   * of the value cached at subscribe time followed by everything published since: in order, nothing repeated.
   */
  lemma WrittenIsPrefix(s: Conn, actions: seq<Action>, t: Topic)
    requires Initial(s) && IsRun(s, actions) && t in s.chan
    ensures var e := After(s, actions);
      && t in e.chan && e.chan[t] < |e.broker.chans|
      && Of(t, e.written) <= e.broker.chans[e.chan[t]].Stream()
      && exists k :: 0 <= k <= |e.hist| && e.chan[t] < Created(e.hist[..k])
           && Of(t, e.written) <= Expected(e.hist[..k], e.chan[t])
  {
    InitialInv(s);
    RunKeeps(s, actions);
    ChanIsFixed(s, actions);
    WrittenSoFar(After(s, actions), t);
  }

  lemma WrittenSoFar(e: Conn, t: Topic)
    requires ConnInv(e) && t in e.chan
    ensures e.chan[t] < |e.broker.chans| && Of(t, e.written) <= e.broker.chans[e.chan[t]].Stream()
    ensures exists k ::
      && 0 <= k <= |e.hist| && e.chan[t] < Created(e.hist[..k])
      && Of(t, e.written) <= Expected(e.hist[..k], e.chan[t])
  {
    var c, w := e.chan[t], Of(t, e.written);
    assert TopicInv(e, t);
    var ch := e.broker.chans[c];
    assert w <= ch.taken <= ch.Stream();
    CreatedAndCached(e.hist);
    var k := StreamIsExpected(e.hist, c);
    assert w <= Expected(e.hist[..k], c);
  }

  /** A channel's stream is what was expected at some point of the history: now, or when the broker closed it. */
  lemma StreamIsExpected(hist: seq<Event>, c: nat) returns (k: nat)
    requires c < |Run(hist).chans| && c < Created(hist)
    ensures k <= |hist| && c < Created(hist[..k]) && Run(hist).chans[c].Stream() == Expected(hist[..k], c)
  {
    SubscriptionStream(hist, c);
    k := |hist|;
    assert hist[..k] == hist;
    if !Run(hist).chans[c].open {
      k :| StoppedAt(hist, k, c, Run(hist).chans[c].Stream());
    }
  }

  lemma {:induction false} ChanIsFixed(s: Conn, actions: seq<Action>)
    requires IsRun(s, actions)
    ensures After(s, actions).chan == s.chan
    decreases |actions|
  {
    if actions != [] {
      ChanIsFixed(Do(s, actions[0]), actions[1..]);
    }
  }

  /** No forwarder ever sends on the closed merged channel, and it is closed once. */
  lemma NeverSendsOnClosed(s: Conn, actions: seq<Action>, t: Topic)
    requires Initial(s) && IsRun(s, actions)
    ensures Enabled(After(s, actions), Push(t)) || Enabled(After(s, actions), CloseMerged) ==>
      After(s, actions).mergedOpen
  {
    InitialInv(s);
    RunKeeps(s, actions);
  }

  /** A forwarder that holds a payload is never stuck: it can push, or quit, or the handler can make room. */
  lemma HolderCanMove(s: Conn, actions: seq<Action>, t: Topic)
    requires Initial(s) && IsRun(s, actions)
    requires t in After(s, actions).fwd && After(s, actions).fwd[t].Holding?
    ensures var e := After(s, actions); Enabled(e, Push(t)) || Enabled(e, Quit(t)) || Enabled(e, Write)
  {
    InitialInv(s);
    RunKeeps(s, actions);
  }

  // ---- Shutting down ----

  /** The forwarders of `topics` quit one after the other. */
  function Quits(topics: seq<Topic>): seq<Action> {
    if topics == [] then [] else [Quit(topics[0])] + Quits(topics[1..])
  }

  function Leaves(topics: seq<Topic>): seq<Action> {
    if topics == [] then [] else [Leave(topics[0])] + Leaves(topics[1..])
  }

  ghost predicate Lists(topics: seq<Topic>, all: set<Topic>) {
    (forall t :: t in topics <==> t in all) && forall i, j :: 0 <= i < j < |topics| ==> topics[i] != topics[j]
  }

  lemma ListsTail(topics: seq<Topic>, all: set<Topic>)
    requires Lists(topics, all) && topics != []
    ensures topics[0] in all && Lists(topics[1..], all - {topics[0]})
  {
    assert topics[0] in topics;
    assert topics == [topics[0]] + topics[1..];
  }

  lemma {:induction false} Enumerate(all: set<Topic>) returns (topics: seq<Topic>)
    ensures Lists(topics, all)
    decreases |all|
  {
    if all == {} {
      topics := [];
    } else {
      var t :| t in all;
      var rest := Enumerate(all - {t});
      topics := [t] + rest;
    }
  }

  /** Once the context is cancelled every forwarder can exit without help from any other goroutine. */
  lemma {:induction false} AllCanQuit(s: Conn, topics: seq<Topic>)
    requires s.cancelled && Lists(topics, set t | t in s.fwd && !s.fwd[t].Exited?)
    ensures IsRun(s, Quits(topics))
    ensures var e := After(s, Quits(topics));
      e == s.(fwd := e.fwd) && e.fwd.Keys == s.fwd.Keys && forall t :: t in e.fwd ==> e.fwd[t].Exited?
    decreases |topics|
  {
    var active := set t | t in s.fwd && !s.fwd[t].Exited?;
    if topics == [] {
      assert forall t :: t in s.fwd ==> t !in active;
    } else {
      var t := topics[0];
      ListsTail(topics, active);
      var s1 := Do(s, Quit(t));
      assert (set v | v in s1.fwd && !s1.fwd[v].Exited?) == active - {t};
      AllCanQuit(s1, topics[1..]);
    }
  }

  lemma {:induction false} AllCanLeave(s: Conn, topics: seq<Topic>)
    requires s.returned && Lists(topics, s.left) && s.left <= s.chan.Keys
    ensures IsRun(s, Leaves(topics))
    ensures After(s, Leaves(topics)).left == {} && After(s, Leaves(topics)).returned
    ensures After(s, Leaves(topics)).mergedOpen == s.mergedOpen
    ensures After(s, Leaves(topics)).fwd == s.fwd && After(s, Leaves(topics)).chan == s.chan
    decreases |topics|
  {
    if topics != [] {
      ListsTail(topics, s.left);
      var s1 := Do(s, Leave(topics[0]));
      AllCanLeave(s1, topics[1..]);
    }
  }

  lemma RunCons(s: Conn, a: Action, rest: seq<Action>)
    requires Enabled(s, a) && IsRun(Do(s, a), rest)
    ensures IsRun(s, [a] + rest) && After(s, [a] + rest) == After(Do(s, a), rest)
  {
    assert ([a] + rest)[1..] == rest;
  }

  lemma RunHead(s: Conn, a: seq<Action>)
    requires IsRun(s, a) && a != []
    ensures Enabled(s, a[0]) && IsRun(Do(s, a[0]), a[1..]) && After(s, a) == After(Do(s, a[0]), a[1..])
  {
  }

  lemma AppendHead(a: seq<Action>, b: seq<Action>)
    requires a != []
    ensures a + b == [a[0]] + (a[1..] + b)
  {
  }

  lemma {:induction false} RunAppend(s: Conn, a: seq<Action>, b: seq<Action>)
    requires IsRun(s, a) && IsRun(After(s, a), b)
    ensures IsRun(s, a + b) && After(s, a + b) == After(After(s, a), b)
    decreases |a|
  {
    if a == [] {
      assert a + b == b;
    } else {
      RunHead(s, a);
      var u, c := Do(s, a[0]), a[1..] + b;
      RunAppend(u, a[1..], b);
      AppendHead(a, b);
      RunCons(s, a[0], c);
    }
  }

  ghost predicate WoundDown(s: Conn) {
    && (forall t :: t in s.fwd ==> s.fwd[t].Exited?)
    && !s.mergedOpen && s.returned && s.left == {}
    && (forall t :: t in s.chan ==> s.chan[t] < |s.broker.chans| && !s.broker.chans[s.chan[t]].open)
  }

  /**
   * A channel that the broker closed cancels the connection, and from every cancelled state the connection's own
   * goroutines can finish: all forwarders exit, the merged channel is closed, and every subscription is given up.
   */
  lemma CancelledWindsDown(s: Conn, actions: seq<Action>) returns (more: seq<Action>)
    requires Initial(s) && IsRun(s, actions) && After(s, actions).cancelled
    ensures IsRun(s, actions + more) && WoundDown(After(s, actions + more))
  {
    InitialInv(s);
    RunKeeps(s, actions);
    var e := After(s, actions);
    var waiting := Enumerate(set t | t in e.fwd && !e.fwd[t].Exited?);
    AllCanQuit(e, waiting);
    more := Quits(waiting);
    RunAppend(s, actions, more);
    var e1 := After(e, more);
    RunKeeps(e, more);
    var tail := Shut(e1);
    RunAppend(e, more, tail);
    RunAppend(s, actions, more + tail);
    more := more + tail;
  }

  lemma Shut(e: Conn) returns (tail: seq<Action>)
    requires ConnInv(e) && e.cancelled && forall t :: t in e.fwd ==> e.fwd[t].Exited?
    ensures IsRun(e, tail) && WoundDown(After(e, tail))
  {
    var closing := if e.mergedOpen then [CloseMerged] else [];
    if e.mergedOpen {
      OneStep(e, CloseMerged);
    }
    var e1 := After(e, closing);
    RunKeeps(e, closing);
    var returning := if e1.returned then [] else [Return];
    if !e1.returned {
      OneStep(e1, Return);
    }
    var e2 := After(e1, returning);
    RunKeeps(e1, returning);
    var topics := Enumerate(e2.left);
    AllCanLeave(e2, topics);
    RunKeeps(e2, Leaves(topics));
    RunAppend(e1, returning, Leaves(topics));
    RunAppend(e, closing, returning + Leaves(topics));
    tail := closing + (returning + Leaves(topics));
    var f := After(e, tail);
    assert forall t :: t in f.chan ==> TopicInv(f, t);
  }

  lemma OneStep(s: Conn, a: Action)
    requires Enabled(s, a)
    ensures IsRun(s, [a]) && After(s, [a]) == Do(s, a)
  {
    assert [a][1..] == [];
  }

  // ---- Every way of winding down ----

  // The connection's own goroutines do it, not the client or anybody else.
  predicate OwnAction(a: Action) {
    !a.Environment? && !a.ClientGone?
  }

  /** What is left to do for one topic: three actions for each payload in the channel, and the forwarder's exit. */
  function TopicWeight(s: Conn, t: Topic): nat
    requires t in s.chan && t in s.fwd
  {
    (if s.chan[t] < |s.broker.chans| then 3 * |s.broker.chans[s.chan[t]].buf| else 0)
    + match s.fwd[t] case Waiting => 1 case Holding(_) => 3 case Exited(_) => 0
  }

  function Weights(s: Conn): map<Topic, nat>
    requires s.fwd.Keys == s.chan.Keys
  {
    map t | t in s.chan :: TopicWeight(s, t)
  }

  function Load(m: map<Topic, nat>, topics: seq<Topic>): nat
    requires forall t :: t in topics ==> t in m
  {
    if topics == [] then 0 else m[topics[0]] + Load(m, topics[1..])
  }

  lemma {:induction false} SameLoad(m: map<Topic, nat>, n: map<Topic, nat>, topics: seq<Topic>)
    requires forall t :: t in topics ==> t in m && t in n && n[t] == m[t]
    ensures Load(n, topics) == Load(m, topics)
  {
    if topics != [] {
      assert topics[0] in topics && forall t :: t in topics[1..] ==> t in topics;
      SameLoad(m, n, topics[1..]);
    }
  }

  lemma {:induction false} LessLoad(m: map<Topic, nat>, n: map<Topic, nat>, topics: seq<Topic>, t: Topic)
    requires DistinctTopics(topics) && t in topics && forall u :: u in topics ==> u in m && u in n
    requires n[t] <= m[t] && forall u :: u in topics && u != t ==> n[u] == m[u]
    ensures Load(m, topics) - Load(n, topics) == m[t] - n[t]
  {
    var rest := topics[1..];
    assert topics[0] in topics && forall u :: u in rest ==> u in topics;
    assert forall i :: 0 <= i < |rest| ==> rest[i] == topics[i + 1];
    if topics[0] == t {
      assert t !in rest;
      SameLoad(m, n, rest);
    } else {
      assert topics == [topics[0]] + rest;
      LessLoad(m, n, rest, t);
    }
  }

  function Weight(s: Conn, topics: seq<Topic>): nat
    requires s.fwd.Keys == s.chan.Keys && forall t :: t in topics ==> t in s.chan
  {
    Load(Weights(s), topics) + |s.merged| + (if s.mergedOpen then 1 else 0) + (if s.returned then 0 else 1) + |s.left|
  }

  /** An own action changes the weight of its own topic only. */
  lemma OtherTopics(s: Conn, a: Action, u: Topic)
    requires ConnInv(s) && Inv(s.broker) && Enabled(s, a) && OwnAction(a) && u in s.chan && u in Do(s, a).fwd
    requires Do(s, a).chan == s.chan && ((a.Take? || a.SeeClosed? || a.Push? || a.Quit?) ==> a.topic != u)
    ensures TopicWeight(Do(s, a), u) == TopicWeight(s, u)
  {
    assert TopicInv(s, u);
    if a.Take? {
      assert s.chan[a.topic] != s.chan[u];
      SameBuffer(s.broker, Receive(s.chan[a.topic]), s.chan[u]);
    } else if a.Leave? {
      SameBuffer(s.broker, Unsubscribe(a.topic, s.chan[a.topic]), s.chan[u]);
    } else {
      assert Do(s, a).broker == s.broker && Do(s, a).fwd[u] == s.fwd[u];
    }
  }

  lemma SameBuffer(b: State, e: Event, c: nat)
    requires c < |b.chans| && (e.Unsubscribe? || (e.Receive? && e.chan != c))
    ensures c < |Step(b, e).chans| && Step(b, e).chans[c].buf == b.chans[c].buf
  {
  }

  lemma OwnTopic(s: Conn, a: Action)
    requires ConnInv(s) && Inv(s.broker) && Enabled(s, a) && (a.Take? || a.SeeClosed? || a.Push? || a.Quit?)
    requires ConnInv(Do(s, a))
    ensures a.topic in s.chan && TopicWeight(Do(s, a), a.topic) + (if a.Push? then 2 else 1) <= TopicWeight(s, a.topic)
  {
    assert TopicInv(s, a.topic);
    if a.Take? {
      TakenBuffer(s.broker, s.chan[a.topic]);
    } else {
      assert Do(s, a).broker == s.broker && Do(s, a).chan == s.chan;
    }
  }

  lemma TakenBuffer(b: State, c: nat)
    requires c < |b.chans| && b.chans[c].buf != []
    ensures c < |Step(b, Receive(c)).chans| && |Step(b, Receive(c)).chans[c].buf| == |b.chans[c].buf| - 1
  {
  }

  lemma WeightDrops(s: Conn, a: Action, topics: seq<Topic>)
    requires ConnInv(s) && Inv(s.broker) && Enabled(s, a) && OwnAction(a) && ConnInv(Do(s, a))
    requires Lists(topics, s.chan.Keys) && Do(s, a).chan == s.chan
    ensures Weight(Do(s, a), topics) < Weight(s, topics)
  {
    var s' := Do(s, a);
    var m, n := Weights(s), Weights(s');
    if a.Take? || a.SeeClosed? || a.Push? || a.Quit? {
      OwnTopic(s, a);
      forall u | u in topics && u != a.topic ensures n[u] == m[u] {
        OtherTopics(s, a, u);
      }
      LessLoad(m, n, topics, a.topic);
    } else {
      forall u | u in topics ensures n[u] == m[u] {
        OtherTopics(s, a, u);
      }
      SameLoad(m, n, topics);
    }
  }

  /** The connection's own goroutines come to rest: no run of theirs is longer than the weight at its start. */
  lemma {:induction false} OwnRunsEnd(s: Conn, own: seq<Action>, topics: seq<Topic>)
    requires ConnInv(s) && IsRun(s, own) && Lists(topics, s.chan.Keys)
    requires forall i :: 0 <= i < |own| ==> OwnAction(own[i])
    ensures |own| <= Weight(s, topics)
    decreases |own|
  {
    if own != [] {
      var a := own[0];
      StepKeeps(s, a);
      RunInv(s.hist);
      StepShape(s, a);
      WeightDrops(s, a, topics);
      assert forall i :: 0 <= i < |own[1..]| ==> own[1..][i] == own[i + 1];
      OwnRunsEnd(Do(s, a), own[1..], topics);
    }
  }

  ghost predicate ShortRun(s: Conn, own: seq<Action>, topics: seq<Topic>) {
    Lists(topics, s.chan.Keys) && s.fwd.Keys == s.chan.Keys && |own| <= Weight(s, topics)
  }

  // The broker has closed the channel of the topic, or the connection is cancelled.
  ghost predicate Ending(s: Conn, t: Topic) {
    s.cancelled || (t in s.chan && s.chan[t] < |s.broker.chans| && !s.broker.chans[s.chan[t]].open)
  }

  lemma EndingStays(s: Conn, a: Action, t: Topic)
    requires ConnInv(s) && Inv(s.broker) && Enabled(s, a) && OwnAction(a) && Ending(s, t)
    ensures Ending(Do(s, a), t)
  {
    if !s.cancelled {
      assert TopicInv(s, t);
      match a
      case Take(u) => CallFrame(s.broker, Receive(s.chan[u]), s.chan[t]);
      case _ =>
    }
  }

  lemma EndingStep(s: Conn, a: Action, t: Topic)
    requires ConnInv(s) && Enabled(s, a) && OwnAction(a) && Ending(s, t)
    ensures ConnInv(Do(s, a)) && Ending(Do(s, a), t)
  {
    RunInv(s.hist);
    EndingStays(s, a, t);
    StepKeeps(s, a);
  }

  ghost predicate Resting(s: Conn) {
    forall a :: OwnAction(a) ==> !Enabled(s, a)
  }

  lemma RestingIsCancelled(s: Conn, t: Topic)
    requires ConnInv(s) && Ending(s, t) && Resting(s)
    ensures s.cancelled
  {
    assert !Enabled(s, Write) && !Enabled(s, Take(t)) && !Enabled(s, SeeClosed(t)) && !Enabled(s, Push(t));
    assert t in s.chan ==> TopicInv(s, t);
  }

  lemma RestingForwarder(s: Conn, u: Topic)
    requires ConnInv(s) && s.cancelled && Resting(s) && u in s.chan
    ensures s.fwd[u].Exited?
  {
    assert !Enabled(s, Quit(u)) && TopicInv(s, u);
  }

  lemma RestingSubscription(s: Conn, u: Topic)
    requires ConnInv(s) && s.returned && Resting(s) && u in s.chan
    ensures u !in s.left && s.chan[u] < |s.broker.chans| && !s.broker.chans[s.chan[u]].open
  {
    assert !Enabled(s, Leave(u)) && TopicInv(s, u);
  }

  /** Where an ending connection can do nothing more of its own, it has wound down. */
  lemma RestingIsWoundDown(s: Conn, t: Topic)
    requires ConnInv(s) && Ending(s, t) && Resting(s)
    ensures WoundDown(s) && s.cancelled
  {
    RestingIsCancelled(s, t);
    assert !Enabled(s, Return) && !Enabled(s, CloseMerged);
    forall u | u in s.fwd ensures s.fwd[u].Exited? {
      RestingForwarder(s, u);
    }
    forall u | u in s.chan ensures u !in s.left && s.chan[u] < |s.broker.chans| && !s.broker.chans[s.chan[u]].open {
      RestingSubscription(s, u);
    }
  }

  lemma OwnTail(own: seq<Action>)
    requires own != [] && forall i :: 0 <= i < |own| ==> OwnAction(own[i])
    ensures forall i :: 0 <= i < |own[1..]| ==> OwnAction(own[1..][i])
  {
  }

  lemma {:induction false} EndingRun(s: Conn, own: seq<Action>, t: Topic)
    requires ConnInv(s) && IsRun(s, own) && Ending(s, t) && forall i :: 0 <= i < |own| ==> OwnAction(own[i])
    ensures Ending(After(s, own), t)
    decreases |own|
  {
    if own != [] {
      EndingStep(s, own[0], t);
      OwnTail(own);
      EndingRun(Do(s, own[0]), own[1..], t);
    }
  }

  /**
   * From every reachable state in which the broker has closed one of the connection's channels: whatever its own
   * goroutines then do, in any order, they come to rest, and when they do the whole connection is cancelled and wound
   * down: all forwarders gone, the merged channel closed, every subscription given up.
   */
  lemma ClosedChannelCancels(s: Conn, actions: seq<Action>, t: Topic, own: seq<Action>)
    requires Initial(s) && IsRun(s, actions) && Ending(After(s, actions), t)
    requires IsRun(After(s, actions), own) && forall i :: 0 <= i < |own| ==> OwnAction(own[i])
    ensures exists topics :: ShortRun(After(s, actions), own, topics)
    ensures Resting(After(After(s, actions), own)) ==>
      WoundDown(After(After(s, actions), own)) && After(After(s, actions), own).cancelled
  {
    InitialInv(s);
    RunKeeps(s, actions);
    var e := After(s, actions);
    var topics := Enumerate(e.chan.Keys);
    OwnRunsEnd(e, own, topics);
    assert ShortRun(e, own, topics);
    RunKeeps(e, own);
    EndingRun(e, own, t);
    if Resting(After(e, own)) {
      RestingIsWoundDown(After(e, own), t);
    }
  }

  // ---- Subscribing and unsubscribing the requested topics ----

  /** The subscribe loop: a later occurrence of a topic replaces the channel of an earlier one. */
  function SubscribeAll(s: State, topics: seq<Topic>): (State, map<Topic, nat>) {
    if topics == [] then (s, map[])
    else
      var (s1, m) := SubscribeAll(s, topics[..|topics| - 1]);
      var t := topics[|topics| - 1];
      (Step(s1, Subscribe(t)), m[t := |s1.chans|])
  }

  function UnsubscribeAll(s: State, chan: map<Topic, nat>, topics: seq<Topic>): State {
    if topics == [] then s
    else
      var s1 := UnsubscribeAll(s, chan, topics[..|topics| - 1]);
      var t := topics[|topics| - 1];
      if t in chan then Step(s1, Unsubscribe(t, chan[t])) else s1
  }

  ghost predicate DistinctTopics(topics: seq<Topic>) {
    forall i, j :: 0 <= i < j < |topics| ==> topics[i] != topics[j]
  }

  lemma {:induction false} SubscribedChannels(s: State, topics: seq<Topic>)
    requires Inv(s)
    ensures var s1 := SubscribeAll(s, topics).0;
      && Inv(s1) && |s1.chans| == |s.chans| + |topics|
      && forall i :: 0 <= i < |topics| ==> Newborn(s1.chans[|s.chans| + i], topics[i])
  {
    if topics != [] {
      var front, t := topics[..|topics| - 1], topics[|topics| - 1];
      SubscribedChannels(s, front);
      var s0 := SubscribeAll(s, front).0;
      StepKeepsInv(s0, Subscribe(t));
      assert Step(s0, Subscribe(t)).chans[..|s0.chans|] == s0.chans;
    }
  }

  ghost predicate Newborn(ch: Chan, t: Topic) {
    ch.open && ch.topic == t && ch.taken == []
  }

  ghost predicate LastAt(topics: seq<Topic>, t: Topic, i: int) {
    0 <= i < |topics| && topics[i] == t && t !in topics[i + 1..]
  }

  lemma LastAtSnoc(topics: seq<Topic>, t: Topic, i: int, last: Topic)
    requires LastAt(topics, t, i) && t != last
    ensures LastAt(topics + [last], t, i)
  {
    assert (topics + [last])[i + 1..] == topics[i + 1..] + [last];
  }

  /** Each requested topic is mapped to the channel of its last occurrence. */
  lemma {:induction false} SubscribedMap(s: State, topics: seq<Topic>, t: Topic)
    ensures var (s1, m) := SubscribeAll(s, topics);
      && |s1.chans| == |s.chans| + |topics|
      && (t in m <==> t in topics)
      && (t in m ==> LastAt(topics, t, m[t] - |s.chans|))
  {
    if topics != [] {
      var front, last := topics[..|topics| - 1], topics[|topics| - 1];
      SubscribedMap(s, front, t);
      assert topics == front + [last];
      if t in front && t != last {
        LastAtSnoc(front, t, SubscribeAll(s, front).1[t] - |s.chans|, last);
      }
    }
  }

  lemma LastAtIsUnique(topics: seq<Topic>, t: Topic, i: int, j: int)
    requires LastAt(topics, t, i) && LastAt(topics, t, j)
    ensures i == j
  {
    InRest(topics, i, j);
    InRest(topics, j, i);
  }

  lemma InRest(topics: seq<Topic>, i: int, j: int)
    ensures 0 <= i < j < |topics| ==> topics[j] in topics[i + 1..]
  {
    if 0 <= i < j < |topics| {
      assert topics[i + 1..][j - i - 1] == topics[j];
    }
  }

  lemma AllLastIffDistinct(topics: seq<Topic>)
    ensures (forall i :: 0 <= i < |topics| ==> LastAt(topics, topics[i], i)) <==> DistinctTopics(topics)
  {
    if i, j :| 0 <= i < j < |topics| && topics[i] == topics[j] {
      assert topics[i + 1..][j - i - 1] == topics[i];
      assert !LastAt(topics, topics[i], i);
    }
  }

  ghost predicate Released(chan: map<Topic, nat>, topics: seq<Topic>, t: Topic, c: nat) {
    t in topics && t in chan && chan[t] == c
  }

  /** Unsubscribing closes the mapped channels of the listed topics and nothing else. */
  lemma {:induction false} UnsubscribedChannel(s: State, chan: map<Topic, nat>, topics: seq<Topic>, c: nat)
    requires Inv(s) && c < |s.chans|
    ensures var s1 := UnsubscribeAll(s, chan, topics);
      && Inv(s1) && |s1.chans| == |s.chans| && s1.chans[c].topic == s.chans[c].topic
      && (s1.chans[c].open <==> s.chans[c].open && !Released(chan, topics, s.chans[c].topic, c))
  {
    if topics != [] {
      var front, t := topics[..|topics| - 1], topics[|topics| - 1];
      UnsubscribedChannel(s, chan, front, c);
      var s1 := UnsubscribeAll(s, chan, front);
      assert topics == front + [t];
      if t in chan {
        StepKeepsInv(s1, Unsubscribe(t, chan[t]));
        ChannelStep(s1, Unsubscribe(t, chan[t]), c);
      }
    }
  }

  lemma {:induction false} UnsubscribedCount(s: State, chan: map<Topic, nat>, topics: seq<Topic>)
    ensures |UnsubscribeAll(s, chan, topics).chans| == |s.chans|
  {
    if topics != [] {
      UnsubscribedCount(s, chan, topics[..|topics| - 1]);
    }
  }

  /** The state after a connection subscribed to `topics` and, when it ended, unsubscribed in some order. */
  function Finished(s: State, topics: seq<Topic>, order: seq<Topic>): State {
    UnsubscribeAll(SubscribeAll(s, topics).0, SubscribeAll(s, topics).1, order)
  }

  /** The i-th subscription made after state s is still open in s2. */
  ghost predicate StillOpen(s: State, s2: State, i: nat) {
    |s.chans| + i < |s2.chans| && s2.chans[|s.chans| + i].open
  }

  lemma NewChannel(s: State, topics: seq<Topic>, i: nat)
    requires Inv(s) && i < |topics|
    ensures var s1 := SubscribeAll(s, topics).0;
      Inv(s1) && |s.chans| + i < |s1.chans| && Newborn(s1.chans[|s.chans| + i], topics[i])
  {
    SubscribedChannels(s, topics);
  }

  /** The i-th subscription outlives the connection exactly when its topic was requested again later. */
  lemma FateOfNewChannel(s: State, topics: seq<Topic>, order: seq<Topic>, i: nat)
    requires Inv(s) && i < |topics| && topics[i] in order
    ensures StillOpen(s, Finished(s, topics, order), i) <==> !LastAt(topics, topics[i], i)
  {
    NewChannel(s, topics, i);
    SubscribedMap(s, topics, topics[i]);
    var s1, m, t, c := SubscribeAll(s, topics).0, SubscribeAll(s, topics).1, topics[i], |s.chans| + i;
    UnsubscribedChannel(s1, m, order, c);
    assert StillOpen(s, Finished(s, topics, order), i) <==> m[t] != c;
    if LastAt(topics, t, i) {
      LastAtIsUnique(topics, t, i, m[t] - |s.chans|);
    }
  }

  /** A finished connection has given up every subscription it made exactly when no topic was requested twice. */
  lemma CleanupIsCompleteIffDistinct(s: State, topics: seq<Topic>, order: seq<Topic>)
    requires Inv(s) && Lists(order, SubscribeAll(s, topics).1.Keys)
    ensures |Finished(s, topics, order).chans| == |s.chans| + |topics|
    ensures (forall i :: 0 <= i < |topics| ==> !StillOpen(s, Finished(s, topics, order), i)) <==> DistinctTopics(topics)
  {
    SubscribedMap(s, topics, "");
    UnsubscribedCount(SubscribeAll(s, topics).0, SubscribeAll(s, topics).1, order);
    forall i | 0 <= i < |topics|
      ensures StillOpen(s, Finished(s, topics, order), i) <==> !LastAt(topics, topics[i], i)
    {
      SubscribedMap(s, topics, topics[i]);
      FateOfNewChannel(s, topics, order, i);
    }
    AllLastIffDistinct(topics);
  }
}
