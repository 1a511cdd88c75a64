/** What a whole run of the MQTT client shows from outside: its signals, its ids
    and the answers it gives to publishing callers. */
module MqttRuns {
  import opened Text
  import opened MqttCodec
  import opened MqttFramer
  import opened MqttSession

  function Signals(events: seq<Event>, topics: seq<string>): seq<Signal> {
    if events == [] then []
    else Signals(events[..|events| - 1], topics)
         + Handle(Run(events[..|events| - 1], topics), events[|events| - 1], topics).1
  }

  function One(b: bool): nat {
    if b then 1 else 0
  }

  // ---------- counting signals ----------

  /** What is counted: confirmed publishes, publishes failed by a disconnect, publishes failed at the call. */
  datatype Measure = Confirmations | Drops | Failures

  function Weight(m: Measure, o: Signal): nat {
    match m
    case Confirmations => One(o.Confirmed?)
    case Drops => if o.PublishesDropped? then |o.topics| else 0
    case Failures => One(o.PublishFailed?)
  }

  function Total(m: Measure, signals: seq<Signal>): nat {
    if signals == [] then 0 else Total(m, signals[..|signals| - 1]) + Weight(m, signals[|signals| - 1])
  }

  lemma {:induction false} TotalOfConcat(m: Measure, a: seq<Signal>, b: seq<Signal>)
    ensures Total(m, a + b) == Total(m, a) + Total(m, b)
  {
    if b == [] {
      assert a + b == a;
    } else {
      TotalOfConcat(m, a, b[..|b| - 1]);
      assert (a + b)[..|a + b| - 1] == a + b[..|b| - 1];
    }
  }

  lemma TotalOfOne(m: Measure, o: Signal)
    ensures Total(m, [o]) == Weight(m, o)
  {
    assert [o][..0] == [];
  }

  lemma {:induction false} TotalOfNone(m: Measure, signals: seq<Signal>)
    requires forall o <- signals :: Weight(m, o) == 0
    ensures Total(m, signals) == 0
  {
    if signals != [] {
      assert signals[|signals| - 1] in signals;
      TotalOfNone(m, signals[..|signals| - 1]);
    }
  }

  // ---------- the fate of every publish ----------

  /** The caller gets true for this event. */
  predicate Accepts(c: Client, e: Event) {
    e.FromCaller? && PublishTopic(c, e.topic, e.written).2
  }

  /** The id for this event is still pending, so that an older publish is forgotten. */
  predicate Forgets(c: Client, e: Event) {
    && e.FromCaller? && ValidPublishTopic(Trim(e.topic)) && c.connected && c.sessionReady
    && c.nextId in c.pendingPublishes
  }

  function Accepted(events: seq<Event>, topics: seq<string>): nat {
    if events == [] then 0
    else Accepted(events[..|events| - 1], topics) + One(Accepts(Run(events[..|events| - 1], topics), events[|events| - 1]))
  }

  function Forgotten(events: seq<Event>, topics: seq<string>): nat {
    if events == [] then 0
    else Forgotten(events[..|events| - 1], topics) + One(Forgets(Run(events[..|events| - 1], topics), events[|events| - 1]))
  }

  function PublishCalls(events: seq<Event>): nat {
    if events == [] then 0
    else PublishCalls(events[..|events| - 1]) + One(events[|events| - 1].FromCaller?)
  }

  ghost predicate Balanced(c: Client, next: Client, signals: seq<Signal>, accepted: nat, forgotten: nat, failures: nat) {
    && Total(Confirmations, signals) + Total(Drops, signals) + |next.pendingPublishes| + forgotten
       == |c.pendingPublishes| + accepted
    && Total(Failures, signals) == failures
  }

  predicate IsSilent(o: Signal) {
    !o.Confirmed? && !o.PublishesDropped? && !o.PublishFailed?
  }

  lemma SilentBalances(c: Client, next: Client, signals: seq<Signal>)
    requires next.pendingPublishes == c.pendingPublishes && forall o <- signals :: IsSilent(o)
    ensures Balanced(c, next, signals, 0, 0, 0)
  {
    TotalOfNone(Confirmations, signals);
    TotalOfNone(Drops, signals);
    TotalOfNone(Failures, signals);
  }

  lemma OneBalances(c: Client, next: Client, o: Signal, accepted: nat, forgotten: nat, failures: nat)
    requires Weight(Confirmations, o) + Weight(Drops, o) + |next.pendingPublishes| + forgotten
          == |c.pendingPublishes| + accepted
    requires Weight(Failures, o) == failures
    ensures Balanced(c, next, [o], accepted, forgotten, failures)
  {
    TotalOfOne(Confirmations, o);
    TotalOfOne(Drops, o);
    TotalOfOne(Failures, o);
  }

  lemma SilentThen(c: Client, next: Client, o: Signal, more: seq<Signal>, accepted: nat, forgotten: nat, failures: nat)
    requires IsSilent(o) && Balanced(c, next, more, accepted, forgotten, failures)
    ensures Balanced(c, next, [o] + more, accepted, forgotten, failures)
  {
    forall m: Measure
      ensures Total(m, [o] + more) == Total(m, more)
    {
      TotalOfConcat(m, [o], more);
      TotalOfOne(m, o);
    }
  }

  lemma AbortBalances(c: Client)
    ensures Balanced(c, Disconnected(c).0, Disconnected(c).1, 0, 0, 0)
    ensures Balanced(c, Abort(c).0, Abort(c).1, 0, 0, 0)
  {
    SilentBalances(c, c, []);
    if c.pendingPublishes != map[] {
      OneBalances(c, Disconnected(c).0, PublishesDropped(c.pendingPublishes), 0, 0, 0);
    }
  }

  lemma {:induction false} SubscribingIsSilent(c: Client, topics: seq<string>)
    ensures SubscribeTopics(c, topics).0.pendingPublishes == c.pendingPublishes
    ensures forall o <- SubscribeTopics(c, topics).1 :: IsSilent(o)
  {
    if topics != [] {
      SubscribingIsSilent(c, topics[..|topics| - 1]);
    }
  }

  lemma ConnAckBalances(c: Client, body: bytes, topics: seq<string>)
    ensures Balanced(c, OnConnAck(c, body, topics).0, OnConnAck(c, body, topics).1, 0, 0, 0)
  {
    AbortBalances(c);
    if |body| >= 2 && body[1] == 0 {
      SubscribingIsSilent(BeginSession(c.(sessionReady := true)), topics);
      SilentBalances(c, OnConnAck(c, body, topics).0, OnConnAck(c, body, topics).1);
    }
  }

  lemma PubAckBalances(c: Client, body: bytes)
    ensures Balanced(c, OnPubAck(c, body).0, OnPubAck(c, body).1, 0, 0, 0)
  {
    if |body| != 2 || Word(body[0], body[1]) !in c.pendingPublishes {
      SilentBalances(c, c, []);
    } else {
      var id := Word(body[0], body[1]);
      KeySizes(c.pendingPublishes, id, "");
      OneBalances(c, OnPubAck(c, body).0, Confirmed(c.pendingPublishes[id]), 0, 0, 0);
    }
  }

  lemma KeySizes(m: map<nat, string>, id: nat, topic: string)
    ensures |m[id := topic]| == |m| + One(id !in m)
    ensures |m - {id}| == |m| - One(id in m)
  {
    assert m[id := topic].Keys == m.Keys + {id};
    assert (m - {id}).Keys == m.Keys - {id};
  }

  lemma SubAckBalances(c: Client, body: bytes)
    ensures Balanced(c, OnSubAck(c, body).0, OnSubAck(c, body).1, 0, 0, 0)
  {
    var next := OnSubAck(c, body).0;
    if |body| != 3 {
      AbortBalances(c);
      SilentThen(c, next, Malformed, Abort(c).1, 0, 0, 0);
    } else {
      var id := Word(body[0], body[1]);
      if id in c.pendingSubscriptions && body[2] > 2 {
        RefusedBalances(c, id);
      } else {
        SilentBalances(c, next, OnSubAck(c, body).1);
      }
    }
  }

  lemma RefusedBalances(c: Client, id: nat)
    requires id in c.pendingSubscriptions
    ensures Balanced(c, Refused(c, id).0, Refused(c, id).1, 0, 0, 0)
  {
    var request := if id in c.trace.origin then {c.trace.origin[id]} else {};
    var noted := c.(pendingSubscriptions := c.pendingSubscriptions - {id},
                    trace := c.trace.(origin := c.trace.origin - {id}, refused := c.trace.refused + request,
                                      rejection := true));
    AbortBalances(noted);
    SilentThen(noted, Abort(noted).0, Rejected(c.pendingSubscriptions[id]), Abort(noted).1, 0, 0, 0);
  }

  lemma CallerBalances(c: Client, e: Event)
    requires e.FromCaller?
    ensures
      var (next, signals, ok) := PublishTopic(c, e.topic, e.written);
      Balanced(c, next, signals, One(Accepts(c, e)), One(Forgets(c, e)), One(!Accepts(c, e)))
  {
    var (next, signals, ok) := PublishTopic(c, e.topic, e.written);
    var topic := Trim(e.topic);
    if ValidPublishTopic(topic) && c.connected && c.sessionReady {
      KeySizes(c.pendingPublishes, c.nextId, topic);
      if e.written {
        OneBalances(c, next, Publishing(c.nextId, topic), 1, One(Forgets(c, e)), 0);
      } else {
        OneBalances(c, next, PublishFailed(topic), 0, One(Forgets(c, e)), 1);
        assert [WriteRefused(c.nextId), PublishFailed(topic)] == [WriteRefused(c.nextId)] + [PublishFailed(topic)];
        SilentThen(c, next, WriteRefused(c.nextId), [PublishFailed(topic)], 0, One(Forgets(c, e)), 1);
      }
    } else {
      OneBalances(c, next, PublishFailed(topic), 0, 0, 1);
    }
  }

  lemma PacketBalances(c: Client, p: Packet, topics: seq<string>)
    ensures Balanced(c, OnPacket(c, p, topics).0, OnPacket(c, p, topics).1, 0, 0, 0)
  {
    match p.header / 16
    case 2 => ConnAckBalances(c, p.body, topics);
    case 3 => SilentBalances(c, c, OnPublish(c, p.header, p.body).1);
    case 4 => PubAckBalances(c, p.body);
    case 9 => SubAckBalances(c, p.body);
    case _ => SilentBalances(c, c, []);
  }

  lemma HandleBalances(c: Client, e: Event, topics: seq<string>)
    ensures Balanced(c, Handle(c, e, topics).0, Handle(c, e, topics).1,
                     One(Accepts(c, e)), One(Forgets(c, e)), One(e.FromCaller? && !Accepts(c, e)))
  {
    match e
    case FromBroker(p) => PacketBalances(c, p, topics);
    case FromCaller(_, _) => CallerBalances(c, e);
    case SocketDisconnected => AbortBalances(c);
    case _ => SilentBalances(c, Handle(c, e, topics).0, []);
  }

  /** Over every run: the publishes that returned true are those confirmed, those failed by a
      disconnect, those pending, and those forgotten through reuse of their id. */
  lemma {:induction false} PublishAccounting(events: seq<Event>, topics: seq<string>)
    ensures Accepted(events, topics)
         == Total(Confirmations, Signals(events, topics)) + Total(Drops, Signals(events, topics))
            + |Run(events, topics).pendingPublishes| + Forgotten(events, topics)
  {
    if events != [] {
      var front := events[..|events| - 1];
      PublishAccounting(front, topics);
      HandleBalances(Run(front, topics), events[|events| - 1], topics);
      var more := Handle(Run(front, topics), events[|events| - 1], topics).1;
      TotalOfConcat(Confirmations, Signals(front, topics), more);
      TotalOfConcat(Drops, Signals(front, topics), more);
    }
  }

  /** And each publish that returned false was reported as failed, exactly once. */
  lemma {:induction false} FalseMeansReported(events: seq<Event>, topics: seq<string>)
    ensures PublishCalls(events) == Accepted(events, topics) + Total(Failures, Signals(events, topics))
  {
    if events != [] {
      var front := events[..|events| - 1];
      FalseMeansReported(front, topics);
      HandleBalances(Run(front, topics), events[|events| - 1], topics);
      TotalOfConcat(Failures, Signals(front, topics), Handle(Run(front, topics), events[|events| - 1], topics).1);
    }
  }

  // ---------- the ids of a run ----------

  predicate CarriesId(o: Signal) {
    o.Subscribing? || o.Publishing? || o.WriteRefused?
  }

  /** The ids put on packets, in the order of the packets. */
  function Ids(signals: seq<Signal>): seq<nat> {
    if signals == [] then []
    else
      var last := signals[|signals| - 1];
      Ids(signals[..|signals| - 1]) + if CarriesId(last) then [last.id] else []
  }

  lemma {:induction false} IdsOfConcat(a: seq<Signal>, b: seq<Signal>)
    ensures Ids(a + b) == Ids(a) + Ids(b)
  {
    if b == [] {
      assert a + b == a;
    } else {
      IdsOfConcat(a, b[..|b| - 1]);
      assert (a + b)[..|a + b| - 1] == a + b[..|b| - 1];
    }
  }

  lemma {:induction false} NoIds(signals: seq<Signal>)
    requires forall o <- signals :: !CarriesId(o)
    ensures Ids(signals) == []
  {
    if signals != [] {
      assert signals[|signals| - 1] in signals;
      NoIds(signals[..|signals| - 1]);
    }
  }

  /** These are the ids of the allocations from one number up to another. */
  ghost predicate Allocations(ids: seq<nat>, from: nat, upTo: nat) {
    from <= upTo && |ids| == upTo - from && forall i :: 0 <= i < |ids| ==> ids[i] == IdOf(from + i)
  }

  lemma {:induction false} SubscribingAllocates(c: Client, topics: seq<string>)
    requires IdsInStep(c)
    ensures IdsInStep(SubscribeTopics(c, topics).0)
    ensures Allocations(Ids(SubscribeTopics(c, topics).1), c.trace.handedOut,
                        SubscribeTopics(c, topics).0.trace.handedOut)
  {
    if topics != [] {
      var (before, signals) := SubscribeTopics(c, topics[..|topics| - 1]);
      SubscribingAllocates(c, topics[..|topics| - 1]);
      AllocateInStep(before);
      assert (signals + [Subscribing(before.nextId, Trim(topics[|topics| - 1]))])[..|signals|] == signals;
    }
  }

  lemma ConnAckAllocates(c: Client, body: bytes, topics: seq<string>)
    requires IdsInStep(c)
    ensures Allocations(Ids(OnConnAck(c, body, topics).1), c.trace.handedOut, OnConnAck(c, body, topics).0.trace.handedOut)
  {
    if |body| < 2 || body[1] != 0 {
      NoIds(Abort(c).1);
    } else {
      var start := BeginSession(c.(sessionReady := true));
      SubscribingAllocates(start, topics);
      var (next, signals) := SubscribeTopics(start, topics);
      IdsOfConcat(signals, if next.expected == 0 then [NoSubscriptions] else []);
      NoIds(if next.expected == 0 then [NoSubscriptions] else []);
      assert Ids(signals) + [] == Ids(signals);
    }
  }

  lemma CallerAllocates(c: Client, e: Event)
    requires IdsInStep(c) && e.FromCaller?
    ensures
      var (next, signals, _) := PublishTopic(c, e.topic, e.written);
      Allocations(Ids(signals), c.trace.handedOut, next.trace.handedOut)
  {
    var signals := PublishTopic(c, e.topic, e.written).1;
    if ValidPublishTopic(Trim(e.topic)) && c.connected && c.sessionReady {
      assert signals[..1] == [signals[0]] && [signals[0]][..0] == [];
      assert Ids([signals[0]]) == [c.nextId];
    } else {
      NoIds(signals);
    }
  }

  lemma OthersAllocateNothing(c: Client, e: Event, topics: seq<string>)
    requires !e.FromCaller? && !(e.FromBroker? && e.packet.header / 16 == 2)
    ensures Handle(c, e, topics).0.trace.handedOut == c.trace.handedOut
    ensures Ids(Handle(c, e, topics).1) == []
  {
    var signals := Handle(c, e, topics).1;
    if e.FromBroker? {
      BrokerSendsNoIds(c, e.packet, topics);
    } else {
      assert forall o <- signals :: !CarriesId(o);
      NoIds(signals);
    }
  }

  lemma BrokerSendsNoIds(c: Client, packet: Packet, topics: seq<string>)
    requires packet.header / 16 != 2
    ensures OnPacket(c, packet, topics).0.trace.handedOut == c.trace.handedOut
    ensures Ids(OnPacket(c, packet, topics).1) == []
  {
    NoIds(OnPacket(c, packet, topics).1);
  }

  lemma {:induction false} RunAllocates(events: seq<Event>, topics: seq<string>)
    ensures Allocations(Ids(Signals(events, topics)), 0, Run(events, topics).trace.handedOut)
  {
    if events != [] {
      var front := events[..|events| - 1];
      var c := Run(front, topics);
      var e := events[|events| - 1];
      RunAllocates(front, topics);
      EveryRun(front, topics);
      IdsOfConcat(Signals(front, topics), Handle(c, e, topics).1);
      StepAllocates(c, e, topics);
      AllocationsJoin(Ids(Signals(front, topics)), Ids(Handle(c, e, topics).1), c.trace.handedOut,
                      Handle(c, e, topics).0.trace.handedOut);
    }
  }

  lemma StepAllocates(c: Client, e: Event, topics: seq<string>)
    requires IdsInStep(c)
    ensures Allocations(Ids(Handle(c, e, topics).1), c.trace.handedOut, Handle(c, e, topics).0.trace.handedOut)
  {
    if e.FromCaller? {
      CallerAllocates(c, e);
    } else if e.FromBroker? && e.packet.header / 16 == 2 {
      ConnAckAllocates(c, e.packet.body, topics);
    } else {
      OthersAllocateNothing(c, e, topics);
    }
  }

  lemma AllocationsJoin(a: seq<nat>, b: seq<nat>, middle: nat, upTo: nat)
    requires Allocations(a, 0, middle) && Allocations(b, middle, upTo)
    ensures Allocations(a + b, 0, upTo)
  {
  }

  /** The ids a run puts on its packets are never 0, and two of them agree exactly when they are a
      multiple of 65535 allocations apart; fewer than that apart they differ. */
  lemma RunIdsDiffer(events: seq<Event>, topics: seq<string>, j: nat, k: nat)
    requires j < k < |Ids(Signals(events, topics))|
    ensures
      var ids := Ids(Signals(events, topics));
      && ids[j] != 0 && (ids[j] == ids[k] <==> (k - j) % 65535 == 0)
      && (k - j < 65535 ==> ids[j] != ids[k])
  {
    RunAllocates(events, topics);
    IdsDiffer(j, k);
  }

  // ---------- publishing needs a CONNACK ----------

  predicate IsAcceptedConnAck(e: Event) {
    e.FromBroker? && e.packet.header / 16 == 2 && |e.packet.body| >= 2 && e.packet.body[1] == 0
  }

  /** The step at k closes the session: a disconnect, a stop, or an abort of the open socket. */
  predicate Closes(events: seq<Event>, topics: seq<string>, k: nat)
    requires k < |events|
  {
    || events[k].SocketDisconnected? || events[k].Stopped?
    || (Run(events[..k], topics).connected && !Run(events[..k + 1], topics).connected)
  }

  /** The step at k accepts a CONNACK, on an open socket or not, and the session is not closed later. */
  ghost predicate OpensAt(events: seq<Event>, topics: seq<string>, connected: bool, k: nat)
    requires k < |events|
  {
    && IsAcceptedConnAck(events[k]) && Run(events[..k], topics).connected == connected
    && forall m :: k < m < |events| ==> !Closes(events, topics, m)
  }

  ghost predicate Opened(events: seq<Event>, topics: seq<string>, connected: bool) {
    exists k :: 0 <= k < |events| && OpensAt(events, topics, connected, k)
  }

  lemma ClosesInPrefix(events: seq<Event>, topics: seq<string>, n: nat, k: nat)
    requires k < n <= |events|
    ensures Closes(events[..n], topics, k) <==> Closes(events, topics, k)
  {
    assert events[..n][..k] == events[..k] && events[..n][..k + 1] == events[..k + 1];
  }

  lemma OpenedByLast(events: seq<Event>, topics: seq<string>, connected: bool)
    requires events != []
    ensures
      var n := |events| - 1;
      Opened(events, topics, connected)
      <==> OpensAt(events, topics, connected, n)
           || (!Closes(events, topics, n) && Opened(events[..n], topics, connected))
  {
    var n := |events| - 1;
    forall k | 0 <= k < n
      ensures Closes(events[..n], topics, k) <==> Closes(events, topics, k)
    {
      ClosesInPrefix(events, topics, n, k);
    }
    if k :| 0 <= k < n && OpensAt(events, topics, connected, k) {
      assert events[..n][..k] == events[..k];
      assert OpensAt(events[..n], topics, connected, k);
    }
    if k :| 0 <= k < n && OpensAt(events[..n], topics, connected, k) && !Closes(events, topics, n) {
      assert events[..n][..k] == events[..k];
      assert OpensAt(events, topics, connected, k);
    }
  }

  lemma ReadyStep(c: Client, e: Event, topics: seq<string>)
    ensures
      var next := Handle(c, e, topics).0;
      next.sessionReady
      <==> IsAcceptedConnAck(e)
           || (c.sessionReady && !e.SocketDisconnected? && !e.Stopped? && !(c.connected && !next.connected))
    ensures IsAcceptedConnAck(e) ==> Handle(c, e, topics).0.connected == c.connected
  {
    if e.FromBroker? && e.packet.header / 16 == 2 {
      SubscribingKeepsSession(BeginSession(c.(sessionReady := true)), topics);
    }
  }

  lemma {:induction false} SubscribingKeepsSession(c: Client, topics: seq<string>)
    ensures SubscribeTopics(c, topics).0.sessionReady == c.sessionReady
    ensures SubscribeTopics(c, topics).0.connected == c.connected
  {
    if topics != [] {
      SubscribingKeepsSession(c, topics[..|topics| - 1]);
    }
  }

  /** The session counts as ready exactly when a CONNACK was accepted since it was last closed,
      whether the socket was open at that moment or not. */
  lemma {:induction false} ReadyIsOpened(events: seq<Event>, topics: seq<string>)
    ensures Run(events, topics).sessionReady <==> Opened(events, topics, true) || Opened(events, topics, false)
  {
    if events != [] {
      var n := |events| - 1;
      ReadyIsOpened(events[..n], topics);
      OpenedByLast(events, topics, true);
      OpenedByLast(events, topics, false);
      ReadyStep(Run(events[..n], topics), events[n], topics);
      assert events[..n + 1] == events;
    }
  }

  /** A publish is accepted although no CONNACK was accepted on an open socket since the session was
      last closed exactly when the socket is open and one was accepted while it was not. */
  lemma PublishWithoutConnAck(events: seq<Event>, topics: seq<string>, topic: string)
    requires ValidPublishTopic(Trim(topic)) && !Opened(events, topics, true)
    ensures PublishTopic(Run(events, topics), topic, true).2
       <==> Run(events, topics).connected && Opened(events, topics, false)
  {
    ReadyIsOpened(events, topics);
  }

  const SUBACK_CUT_SHORT := Packet(0x90, [])
  const CONNACK := Packet(0x20, [0, 0])

  /** It happens: a CONNACK that is still in the buffer when a malformed SUBACK has the socket
      aborted makes the next connection count as ready before its broker has said anything. */
  lemma LateConnAckOpensNextConnection(topic: string)
    requires ValidPublishTopic(Trim(topic))
    ensures
      var events := [SocketConnected, FromBroker(SUBACK_CUT_SHORT), FromBroker(CONNACK), SocketConnected];
      && !Opened(events, [], true)
      && PublishTopic(Run(events, []), topic, true).2
  {
    var events := [SocketConnected, FromBroker(SUBACK_CUT_SHORT), FromBroker(CONNACK), SocketConnected];
    assert events[..1] == [SocketConnected] && events[..0] == [];
    assert events[..2][..1] == events[..1] && events[..3][..2] == events[..2] && events[..4][..3] == events[..3];
    var c1 := Run(events[..1], []);
    assert c1 == Handle(Run(events[..0], []), SocketConnected, []).0 && c1.connected;
    var c2 := Run(events[..2], []);
    assert c2 == Handle(c1, FromBroker(SUBACK_CUT_SHORT), []).0 && !c2.connected;
    var c3 := Run(events[..3], []);
    assert c3 == Handle(c2, FromBroker(CONNACK), []).0 && c3.sessionReady && !c3.connected;
    assert events[..4] == events;
    assert Run(events, []) == Handle(c3, SocketConnected, []).0;
    assert forall k :: 0 <= k < 4 && IsAcceptedConnAck(events[k]) ==> k == 2;
  }
}
