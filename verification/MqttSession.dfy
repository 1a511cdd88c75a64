/** The session bookkeeping of the MQTT client: packet ids, subscriptions waiting
    for SUBACK and publishes waiting for PUBACK. */
module MqttSession {
  import opened Text
  import opened MqttCodec
  import opened MqttFramer

  type PacketId = n: nat | 1 <= n < 65536 witness 1

  /** Bookkeeping that only the proofs need. */
  datatype Trace = Trace(
    handedOut: nat,              // ids handed out so far
    requested: seq<string>,      // the topics of this session, in order of request
    origin: map<nat, nat>,       // which request a pending subscription belongs to
    granted: set<nat>,           // requests granted in this session
    refused: set<nat>,           // requests refused in this session
    rejection: bool,             // a refusal happened since the last accepted CONNACK
    born: map<nat, nat>)         // the allocation number of each pending publish

  datatype Client = Client(
    connected: bool,
    sessionReady: bool,
    nextId: PacketId,
    pendingSubscriptions: map<nat, string>,
    pendingPublishes: map<nat, string>,
    expected: nat,
    active: nat,
    trace: Trace)

  const NewTrace := Trace(0, [], map[], {}, {}, false, map[])
  const NewClient := Client(false, false, 1, map[], map[], 0, 0, NewTrace)

  datatype Signal =
    | Subscribing(id: nat, topic: string)
    | Subscribed(topic: string)
    | Ready
    | Rejected(topic: string)
    | Malformed
    | UnknownId(id: nat)
    | NoSubscriptions
    | Confirmed(topic: string)
    | PublishFailed(topic: string)
    | PublishesDropped(topics: map<nat, string>)
    | Received(message: Publish)
    | Acknowledging(id: nat)
    | Publishing(id: nat, topic: string)
    | WriteRefused(id: nat)

  // ---------- packet ids ----------

  /** The id after this one; 0 is reserved and skipped. */
  function IdAfter(id: PacketId): PacketId {
    if id == 65535 then 1 else id + 1
  }

  /** The id handed out by the k-th allocation. */
  function IdOf(k: nat): PacketId {
    k % 65535 + 1
  }

  function Allocate(c: Client): Client {
    c.(nextId := IdAfter(c.nextId), trace := c.trace.(handedOut := c.trace.handedOut + 1))
  }

  lemma IdsFollow(k: nat)
    ensures IdAfter(IdOf(k)) == IdOf(k + 1)
  {
  }

  /** Two allocations get the same id exactly when they are a multiple of 65535 apart. */
  lemma IdsDiffer(j: nat, k: nat)
    requires j < k
    ensures k - j < 65535 ==> IdOf(j) != IdOf(k)
    ensures IdOf(j) == IdOf(k) <==> (k - j) % 65535 == 0
    ensures IdOf(j) != 0
  {
  }

  // ---------- connection ----------

  function Disconnected(c: Client): (Client, seq<Signal>) {
    (c.(connected := false, sessionReady := false, pendingSubscriptions := map[], pendingPublishes := map[],
        expected := 0, active := 0,
        trace := c.trace.(requested := [], origin := map[], granted := {}, refused := {}, born := map[])),
     if c.pendingPublishes == map[] then [] else [PublishesDropped(c.pendingPublishes)])
  }

  /** Aborting an open socket runs the disconnect handler at once. */
  function Abort(c: Client): (Client, seq<Signal>) {
    if c.connected then Disconnected(c) else (c, [])
  }

  // ---------- subscriptions ----------

  function Subscribe(c: Client, topic: string): (Client, seq<Signal>) {
    var id := c.nextId;
    var next := Allocate(c);
    (next.(pendingSubscriptions := c.pendingSubscriptions[id := topic], expected := c.expected + 1,
           trace := next.trace.(requested := c.trace.requested + [topic],
                                origin := c.trace.origin[id := |c.trace.requested|])),
     [Subscribing(id, topic)])
  }

  /** The configured topics in order; blank ones are skipped. */
  function SubscribeTopics(c: Client, topics: seq<string>): (Client, seq<Signal>)
    decreases |topics|
  {
    if topics == [] then (c, [])
    else
      var (before, signals) := SubscribeTopics(c, topics[..|topics| - 1]);
      var topic := Trim(topics[|topics| - 1]);
      if topic == "" then (before, signals)
      else
        var (next, more) := Subscribe(before, topic);
        (next, signals + more)
  }

  lemma OneMoreTopic(c: Client, topics: seq<string>, i: nat)
    requires i < |topics|
    ensures
      var (before, signals) := SubscribeTopics(c, topics[..i]);
      var topic := Trim(topics[i]);
      SubscribeTopics(c, topics[..i + 1])
        == if topic == "" then (before, signals)
           else (Subscribe(before, topic).0, signals + Subscribe(before, topic).1)
  {
    assert topics[..i + 1][..i] == topics[..i];
  }

  function BeginSession(c: Client): Client {
    c.(pendingSubscriptions := map[], expected := 0, active := 0,
       trace := c.trace.(requested := [], origin := map[], granted := {}, refused := {}, rejection := false))
  }

  function SubscribeAll(c: Client, topics: seq<string>): (Client, seq<Signal>) {
    var (next, signals) := SubscribeTopics(BeginSession(c), topics);
    (next, signals + if next.expected == 0 then [NoSubscriptions] else [])
  }

  // ---------- packets from the broker ----------

  function OnConnAck(c: Client, body: bytes, topics: seq<string>): (Client, seq<Signal>) {
    if |body| < 2 || body[1] != 0 then Abort(c)
    else SubscribeAll(c.(sessionReady := true), topics)
  }

  function OnPubAck(c: Client, body: bytes): (Client, seq<Signal>) {
    if |body| != 2 then (c, [])
    else
      var id := Word(body[0], body[1]);
      if id !in c.pendingPublishes then (c, [])
      else
        (c.(pendingPublishes := c.pendingPublishes - {id},
            trace := c.trace.(born := c.trace.born - {id})),
         [Confirmed(c.pendingPublishes[id])])
  }

  function OnSubAck(c: Client, body: bytes): (Client, seq<Signal>) {
    if |body| != 3 then
      var (next, signals) := Abort(c);
      (next, [Malformed] + signals)
    else
      var id := Word(body[0], body[1]);
      if id !in c.pendingSubscriptions then (c, [UnknownId(id)])
      else if body[2] > 2 then Refused(c, id)
      else Granted(c, id)
  }

  function Refused(c: Client, id: nat): (Client, seq<Signal>)
    requires id in c.pendingSubscriptions
  {
    var request := if id in c.trace.origin then {c.trace.origin[id]} else {};
    var noted := c.(pendingSubscriptions := c.pendingSubscriptions - {id},
                    trace := c.trace.(origin := c.trace.origin - {id}, refused := c.trace.refused + request,
                                      rejection := true));
    var (next, signals) := Abort(noted);
    (next, [Rejected(c.pendingSubscriptions[id])] + signals)
  }

  function Granted(c: Client, id: nat): (Client, seq<Signal>)
    requires id in c.pendingSubscriptions
  {
    var request := if id in c.trace.origin then {c.trace.origin[id]} else {};
    var next := c.(pendingSubscriptions := c.pendingSubscriptions - {id}, active := c.active + 1,
                   trace := c.trace.(origin := c.trace.origin - {id}, granted := c.trace.granted + request));
    (next, [Subscribed(c.pendingSubscriptions[id])]
           + if next.pendingSubscriptions == map[] && next.active == next.expected then [Ready] else [])
  }

  function OnPublish(c: Client, header: byte, body: bytes): (Client, seq<Signal>) {
    match ParsePublish(header, body)
    case None => (c, [])
    case Some(message) =>
      (c, (if message.qos == 1 then [Acknowledging(message.packetId)] else []) + [Received(message)])
  }

  function OnPacket(c: Client, p: Packet, topics: seq<string>): (Client, seq<Signal>) {
    match p.header / 16
    case 2 => OnConnAck(c, p.body, topics)
    case 3 => OnPublish(c, p.header, p.body)
    case 4 => OnPubAck(c, p.body)
    case 9 => OnSubAck(c, p.body)
    case _ => (c, [])
  }

  // ---------- publishing ----------

  predicate ValidPublishTopic(topic: string) {
    topic != "" && '+' !in topic && '#' !in topic
  }

  /** A publish by the application; `written` is whether the socket took the packet. */
  function PublishTopic(c: Client, rawTopic: string, written: bool): (Client, seq<Signal>, bool) {
    var topic := Trim(rawTopic);
    if !ValidPublishTopic(topic) || !c.connected || !c.sessionReady then (c, [PublishFailed(topic)], false)
    else
      var id := c.nextId;
      var next := Allocate(c);
      if written then
        (next.(pendingPublishes := c.pendingPublishes[id := topic],
               trace := next.trace.(born := c.trace.born[id := c.trace.handedOut])),
         [Publishing(id, topic)], true)
      else
        (next.(pendingPublishes := c.pendingPublishes - {id},
               trace := next.trace.(born := c.trace.born - {id})),
         [WriteRefused(id), PublishFailed(topic)], false)
  }

  // ---------- events and runs ----------

  datatype Event =
    | SocketConnected
    | SocketDisconnected
    | FromBroker(packet: Packet)
    | FromCaller(topic: string, written: bool)
    | Stopped

  function Handle(c: Client, e: Event, topics: seq<string>): (Client, seq<Signal>) {
    match e
    case SocketConnected => (c.(connected := true), [])
    case SocketDisconnected => Disconnected(c)
    case FromBroker(p) => OnPacket(c, p, topics)
    case FromCaller(topic, written) =>
      var (next, signals, _) := PublishTopic(c, topic, written);
      (next, signals)
    case Stopped => (c.(sessionReady := false), [])
  }

  function Run(events: seq<Event>, topics: seq<string>): Client {
    if events == [] then NewClient
    else Handle(Run(events[..|events| - 1], topics), events[|events| - 1], topics).0
  }

  // ---------- the client object ----------

  /** The client's own fields, updated in place; `trace` exists for the proofs only. */
  class MqttServiceClient {
    const topics: seq<string>
    var connected: bool
    var sessionReady: bool
    var nextPacketId: PacketId
    var pendingSubscriptions: map<nat, string>
    var pendingPublishes: map<nat, string>
    var expectedCount: nat
    var activeCount: nat
    var signals: seq<Signal>
    ghost var trace: Trace

    ghost function View(): Client
      reads this
    {
      Client(connected, sessionReady, nextPacketId, pendingSubscriptions, pendingPublishes,
             expectedCount, activeCount, trace)
    }

    constructor (topics: seq<string>)
      ensures View() == NewClient && signals == [] && this.topics == topics
    {
      this.topics := topics;
      connected, sessionReady, nextPacketId := false, false, 1;
      pendingSubscriptions, pendingPublishes := map[], map[];
      expectedCount, activeCount := 0, 0;
      signals := [];
      trace := NewTrace;
    }

    method AllocateId() returns (id: PacketId)
      modifies `nextPacketId, `trace
      ensures id == old(nextPacketId) && View() == Allocate(old(View()))
    {
      id := nextPacketId;
      if nextPacketId == 65535 {
        nextPacketId := 1;
      } else {
        nextPacketId := nextPacketId + 1;
      }
      trace := trace.(handedOut := trace.handedOut + 1);
    }

    method OnSocketDisconnected()
      modifies this
      ensures View() == Disconnected(old(View())).0
      ensures signals == old(signals) + Disconnected(old(View())).1
    {
      connected := false;
      sessionReady := false;
      pendingSubscriptions := map[];
      trace := trace.(requested := [], origin := map[], granted := {}, refused := {}, born := map[]);
      if pendingPublishes != map[] {
        signals := signals + [PublishesDropped(pendingPublishes)];
        pendingPublishes := map[];
      }
      expectedCount := 0;
      activeCount := 0;
    }

    method AbortSocket()
      modifies this
      ensures View() == Abort(old(View())).0
      ensures signals == old(signals) + Abort(old(View())).1
    {
      if connected {
        OnSocketDisconnected();
      }
    }

    method SubscribeTopic(topic: string)
      modifies this
      ensures View() == Subscribe(old(View()), topic).0
      ensures signals == old(signals) + Subscribe(old(View()), topic).1
    {
      var packetId := AllocateId();
      pendingSubscriptions := pendingSubscriptions[packetId := topic];
      expectedCount := expectedCount + 1;
      trace := trace.(origin := trace.origin[packetId := |trace.requested|], requested := trace.requested + [topic]);
      signals := signals + [Subscribing(packetId, topic)];
    }

    method SubscribeToAll()
      modifies this
      ensures View() == SubscribeAll(old(View()), topics).0
      ensures signals == old(signals) + SubscribeAll(old(View()), topics).1
    {
      pendingSubscriptions := map[];
      expectedCount := 0;
      activeCount := 0;
      trace := trace.(requested := [], origin := map[], granted := {}, refused := {}, rejection := false);
      ghost var start := View();
      ghost var log := signals;
      for i := 0 to |topics|
        invariant View() == SubscribeTopics(start, topics[..i]).0
        invariant signals == log + SubscribeTopics(start, topics[..i]).1
      {
        OneMoreTopic(start, topics, i);
        var trimmed := Trim(topics[i]);
        if trimmed == "" {
          continue;
        }
        SubscribeTopic(trimmed);
      }
      assert topics[..|topics|] == topics;
      if expectedCount == 0 {
        signals := signals + [NoSubscriptions];
      }
    }

    method HandleConnAck(body: bytes)
      modifies this
      ensures View() == OnConnAck(old(View()), body, topics).0
      ensures signals == old(signals) + OnConnAck(old(View()), body, topics).1
    {
      if |body| < 2 || body[1] != 0 {
        AbortSocket();
        return;
      }
      sessionReady := true;
      SubscribeToAll();
    }

    method HandlePubAck(body: bytes)
      modifies this
      ensures View() == OnPubAck(old(View()), body).0
      ensures signals == old(signals) + OnPubAck(old(View()), body).1
    {
      if |body| != 2 {
        return;
      }
      var packetId := Word(body[0], body[1]);
      if packetId !in pendingPublishes {
        return;
      }
      var topic := pendingPublishes[packetId];
      pendingPublishes := pendingPublishes - {packetId};
      trace := trace.(born := trace.born - {packetId});
      signals := signals + [Confirmed(topic)];
    }

    method HandleSubAck(body: bytes)
      modifies this
      ensures View() == OnSubAck(old(View()), body).0
      ensures signals == old(signals) + OnSubAck(old(View()), body).1
    {
      if |body| != 3 {
        signals := signals + [Malformed];
        AbortSocket();
        return;
      }
      var packetId := Word(body[0], body[1]);
      if packetId !in pendingSubscriptions {
        signals := signals + [UnknownId(packetId)];
        return;
      }
      if body[2] > 2 {
        RejectTopic(packetId);
      } else {
        GrantTopic(packetId);
      }
    }

    /** The broker refused the subscription with this id. */
    method RejectTopic(packetId: nat)
      requires packetId in pendingSubscriptions
      modifies this
      ensures View() == Refused(old(View()), packetId).0
      ensures signals == old(signals) + Refused(old(View()), packetId).1
    {
      ghost var request := if packetId in trace.origin then {trace.origin[packetId]} else {};
      var topic := pendingSubscriptions[packetId];
      pendingSubscriptions := pendingSubscriptions - {packetId};
      trace := trace.(origin := trace.origin - {packetId}, refused := trace.refused + request, rejection := true);
      signals := signals + [Rejected(topic)];
      AbortSocket();
    }

    /** The broker granted it. */
    method GrantTopic(packetId: nat)
      requires packetId in pendingSubscriptions
      modifies this
      ensures View() == Granted(old(View()), packetId).0
      ensures signals == old(signals) + Granted(old(View()), packetId).1
    {
      ghost var request := if packetId in trace.origin then {trace.origin[packetId]} else {};
      var topic := pendingSubscriptions[packetId];
      pendingSubscriptions := pendingSubscriptions - {packetId};
      trace := trace.(origin := trace.origin - {packetId}, granted := trace.granted + request);
      activeCount := activeCount + 1;
      signals := signals + [Subscribed(topic)];
      if pendingSubscriptions == map[] && activeCount == expectedCount {
        signals := signals + [Ready];
      }
    }

    /** A message for the application; QoS 1 is acknowledged first. */
    method HandlePublish(header: byte, body: bytes)
      modifies this
      ensures View() == OnPublish(old(View()), header, body).0
      ensures signals == old(signals) + OnPublish(old(View()), header, body).1
    {
      var qos := Qos(header);
      var retained := header % 2 != 0;
      if |body| < 2 {
        return;
      }
      var pos := 2 + Word(body[0], body[1]);
      if |body| < pos {
        return;
      }
      var topic := body[2..pos];
      var packetId := 0;
      if qos > 0 {
        if |body| < pos + 2 {
          return;
        }
        packetId := Word(body[pos], body[pos + 1]);
        pos := pos + 2;
      }
      var payload := body[pos..];
      if qos == 1 {
        signals := signals + [Acknowledging(packetId)];
      }
      signals := signals + [Received(Publish(topic, payload, retained, qos, packetId))];
    }

    method HandlePacket(packet: Packet)
      modifies this
      ensures View() == OnPacket(old(View()), packet, topics).0
      ensures signals == old(signals) + OnPacket(old(View()), packet, topics).1
    {
      match packet.header / 16 {
        case 2 => HandleConnAck(packet.body);
        case 3 => HandlePublish(packet.header, packet.body);
        case 4 => HandlePubAck(packet.body);
        case 9 => HandleSubAck(packet.body);
        case _ =>
      }
    }

    method PublishMessage(topic: string, written: bool) returns (ok: bool)
      modifies this
      ensures View() == PublishTopic(old(View()), topic, written).0
      ensures signals == old(signals) + PublishTopic(old(View()), topic, written).1
      ensures ok == PublishTopic(old(View()), topic, written).2
    {
      var trimmed := Trim(topic);
      if trimmed == "" || '+' in trimmed || '#' in trimmed || !connected || !sessionReady {
        signals := signals + [PublishFailed(trimmed)];
        return false;
      }
      var packetId := AllocateId();
      pendingPublishes := pendingPublishes[packetId := trimmed];
      if !written {
        pendingPublishes := pendingPublishes - {packetId};
        trace := trace.(born := trace.born - {packetId});
        signals := signals + [WriteRefused(packetId)];
        signals := signals + [PublishFailed(trimmed)];
        return false;
      }
      trace := trace.(born := trace.born[packetId := trace.handedOut - 1]);
      signals := signals + [Publishing(packetId, trimmed)];
      return true;
    }
  }

  // ---------- invariants ----------

  ghost predicate IdsInStep(c: Client) {
    c.nextId == IdOf(c.trace.handedOut)
  }

  /** The requests of the session are split between pending, granted and refused ones. */
  ghost predicate RequestsAccounted(c: Client) {
    var t := c.trace;
    && c.expected == |t.requested| && c.active == |t.granted|
    && t.origin.Keys == c.pendingSubscriptions.Keys
    && (forall id <- t.origin ::
          t.origin[id] < |t.requested| && c.pendingSubscriptions[id] == t.requested[t.origin[id]]
          && t.origin[id] !in t.granted && t.origin[id] !in t.refused)
    && (forall i <- t.origin, j <- t.origin :: i != j ==> t.origin[i] != t.origin[j])
    && (forall r <- t.granted :: r < |t.requested| && r !in t.refused)
    && (forall r <- t.refused :: r < |t.requested|)
    && (t.rejection ==> t.refused != {} || t.requested == [])
  }

  ghost predicate BirthsInStep(c: Client) {
    var t := c.trace;
    && t.born.Keys == c.pendingPublishes.Keys
    && (forall id <- t.born :: t.born[id] < t.handedOut && IdOf(t.born[id]) == id)
  }

  ghost predicate Invariant(c: Client) {
    IdsInStep(c) && RequestsAccounted(c) && BirthsInStep(c)
  }

  lemma AllocateInStep(c: Client)
    requires IdsInStep(c)
    ensures IdsInStep(Allocate(c))
  {
    IdsFollow(c.trace.handedOut);
  }

  lemma SubscribeKeepsRequests(c: Client, topic: string)
    requires RequestsAccounted(c) && !c.trace.rejection
    ensures RequestsAccounted(Subscribe(c, topic).0)
  {
    var id := c.nextId;
    var next := Subscribe(c, topic).0;
    assert next.trace.origin == c.trace.origin[id := |c.trace.requested|];
    assert next.pendingSubscriptions == c.pendingSubscriptions[id := topic];
  }

  lemma SubscribeKeeps(c: Client, topic: string)
    requires Invariant(c) && !c.trace.rejection
    ensures Invariant(Subscribe(c, topic).0) && !Subscribe(c, topic).0.trace.rejection
  {
    AllocateInStep(c);
    SubscribeKeepsRequests(c, topic);
  }

  lemma {:induction false} SubscribeTopicsKeeps(c: Client, topics: seq<string>)
    requires Invariant(c) && !c.trace.rejection
    ensures Invariant(SubscribeTopics(c, topics).0) && !SubscribeTopics(c, topics).0.trace.rejection
  {
    if topics != [] {
      SubscribeTopicsKeeps(c, topics[..|topics| - 1]);
      SubscribeKeeps(SubscribeTopics(c, topics[..|topics| - 1]).0, Trim(topics[|topics| - 1]));
    }
  }

  lemma AbortKeeps(c: Client)
    requires Invariant(c)
    ensures Invariant(Abort(c).0) && Invariant(Disconnected(c).0)
  {
  }

  lemma RefusedKeeps(c: Client, id: nat)
    requires Invariant(c) && id in c.pendingSubscriptions
    ensures Invariant(Refused(c, id).0)
  {
    var request := c.trace.origin[id];
    var noted := c.(pendingSubscriptions := c.pendingSubscriptions - {id},
                    trace := c.trace.(origin := c.trace.origin - {id},
                                      refused := c.trace.refused + {request}, rejection := true));
    assert RequestsAccounted(noted) by {
      assert request in noted.trace.refused;
    }
    assert Refused(c, id).0 == Abort(noted).0;
    AbortKeeps(noted);
  }

  lemma GrantedKeeps(c: Client, id: nat)
    requires Invariant(c) && id in c.pendingSubscriptions
    ensures Invariant(Granted(c, id).0)
  {
  }

  lemma PubAckKeeps(c: Client, body: bytes)
    requires Invariant(c)
    ensures Invariant(OnPubAck(c, body).0)
  {
    if |body| == 2 && Word(body[0], body[1]) in c.pendingPublishes {
      var id := Word(body[0], body[1]);
      assert (c.pendingPublishes - {id}).Keys == c.pendingPublishes.Keys - {id};
    }
  }

  lemma PublishKeeps(c: Client, topic: string, written: bool)
    requires Invariant(c)
    ensures Invariant(PublishTopic(c, topic, written).0)
  {
    var next := PublishTopic(c, topic, written).0;
    if next != c {
      AllocateInStep(c);
      PublishKeepsBirths(c, next);
    }
  }

  lemma PublishKeepsBirths(c: Client, next: Client)
    requires IdsInStep(c) && BirthsInStep(c)
    requires next.trace.handedOut == c.trace.handedOut + 1
    requires next.trace.born == c.trace.born[c.nextId := c.trace.handedOut] || next.trace.born == c.trace.born - {c.nextId}
    ensures forall id <- next.trace.born ::
              next.trace.born[id] < next.trace.handedOut && IdOf(next.trace.born[id]) == id
  {
  }

  lemma HandleKeeps(c: Client, e: Event, topics: seq<string>)
    requires Invariant(c)
    ensures Invariant(Handle(c, e, topics).0)
  {
    match e
    case FromBroker(p) => PacketKeeps(c, p, topics);
    case FromCaller(topic, written) => PublishKeeps(c, topic, written);
    case SocketDisconnected => AbortKeeps(c);
    case _ =>
  }

  lemma ConnAckKeeps(c: Client, body: bytes, topics: seq<string>)
    requires Invariant(c)
    ensures Invariant(OnConnAck(c, body, topics).0)
  {
    AbortKeeps(c);
    SubscribeTopicsKeeps(BeginSession(c.(sessionReady := true)), topics);
  }

  lemma SubAckKeeps(c: Client, body: bytes)
    requires Invariant(c)
    ensures Invariant(OnSubAck(c, body).0)
  {
    AbortKeeps(c);
    if |body| == 3 && Word(body[0], body[1]) in c.pendingSubscriptions {
      RefusedKeeps(c, Word(body[0], body[1]));
      GrantedKeeps(c, Word(body[0], body[1]));
    }
  }

  lemma PacketKeeps(c: Client, p: Packet, topics: seq<string>)
    requires Invariant(c)
    ensures Invariant(OnPacket(c, p, topics).0)
  {
    match p.header / 16
    case 2 => ConnAckKeeps(c, p.body, topics);
    case 4 => PubAckKeeps(c, p.body);
    case 9 => SubAckKeeps(c, p.body);
    case _ =>
  }

  lemma {:induction false} EveryRun(events: seq<Event>, topics: seq<string>)
    ensures Invariant(Run(events, topics))
  {
    if events != [] {
      EveryRun(events[..|events| - 1], topics);
      HandleKeeps(Run(events[..|events| - 1], topics), events[|events| - 1], topics);
    }
  }

  // ---------- the theorems ----------

  /** An id is reused while pending only after at least 65535 further allocations. */
  lemma ReuseNeedsFullCycle(events: seq<Event>, topics: seq<string>)
    ensures
      var c := Run(events, topics);
      c.nextId in c.pendingPublishes ==>
        c.nextId in c.trace.born && c.trace.handedOut - c.trace.born[c.nextId] >= 65535
  {
    EveryRun(events, topics);
    var c := Run(events, topics);
    if c.nextId in c.pendingPublishes {
      IdsDiffer(c.trace.born[c.nextId], c.trace.handedOut);
    }
  }

  lemma {:induction false} BoundedSet(s: set<nat>, n: nat)
    requires forall x <- s :: x < n
    ensures |s| <= n
    ensures |s| == n ==> forall k: nat :: k < n ==> k in s
    decreases n
  {
    if n == 0 {
      assert s == {};
    } else {
      var last := n - 1;
      var smaller := s - {last};
      BoundedSet(smaller, last);
      if last in s {
        assert s == smaller + {last};
      } else {
        assert smaller == s;
      }
    }
  }

  /** An injective map has as many values as keys. */
  lemma {:induction false} InjectiveSize(m: map<nat, nat>)
    requires forall i <- m, j <- m :: i != j ==> m[i] != m[j]
    ensures |m.Values| == |m|
    decreases |m|
  {
    if m != map[] {
      var k :| k in m;
      var rest := m - {k};
      assert rest.Keys == m.Keys - {k};
      InjectiveSize(rest);
      assert m.Values == rest.Values + {m[k]} by {
        forall v <- m.Values
          ensures v in rest.Values + {m[k]}
        {
          var i :| i in m && m[i] == v;
          assert i != k ==> i in rest && rest[i] == v;
        }
      }
    }
  }

  lemma RequestsAreSplit(c: Client)
    requires RequestsAccounted(c)
    ensures c.active + |c.pendingSubscriptions| + |c.trace.refused| <= c.expected
  {
    var t := c.trace;
    InjectiveSize(t.origin);
    assert |t.origin| == |t.origin.Keys| == |c.pendingSubscriptions.Keys| == |c.pendingSubscriptions|;
    var all := t.granted + t.refused + t.origin.Values;
    assert |t.granted + t.refused| == |t.granted| + |t.refused| by {
      assert t.granted !! t.refused;
    }
    assert (t.granted + t.refused) !! t.origin.Values;
    BoundedSet(all, |t.requested|);
  }

  /** Granted and pending subscriptions never exceed the requested ones. */
  lemma SubscriptionsNeverExceed(events: seq<Event>, topics: seq<string>)
    ensures
      var c := Run(events, topics);
      c.active + |c.pendingSubscriptions| + |c.trace.refused| <= c.expected
  {
    EveryRun(events, topics);
    RequestsAreSplit(Run(events, topics));
  }

  /** "Ready" is announced only when every topic of the session was granted, and
      never after a refusal in it. */
  lemma ReadyMeansAllGranted(events: seq<Event>, topics: seq<string>, e: Event)
    requires Ready in Handle(Run(events, topics), e, topics).1
    ensures
      var next := Handle(Run(events, topics), e, topics).0;
      && next.trace.requested != []
      && (forall k: nat :: k < |next.trace.requested| ==> k in next.trace.granted)
      && next.trace.refused == {} && !next.trace.rejection
  {
    EveryRun(events, topics);
    var c := Run(events, topics);
    OnlyGrantsAnnounceReady(c, e, topics);
    var id := Word(e.packet.body[0], e.packet.body[1]);
    GrantedKeeps(c, id);
    var next := Granted(c, id).0;
    RequestsAreSplit(next);
    BoundedSet(next.trace.granted, |next.trace.requested|);
  }

  lemma AbortingIsNotReady(c: Client)
    ensures Ready !in Abort(c).1
  {
  }

  lemma ConnAckIsNotReady(c: Client, body: bytes, topics: seq<string>)
    ensures Ready !in OnConnAck(c, body, topics).1
  {
    AbortingIsNotReady(c);
    SubscribingIsNotReady(BeginSession(c.(sessionReady := true)), topics);
  }

  lemma SubAckReady(c: Client, body: bytes)
    requires Ready in OnSubAck(c, body).1
    ensures |body| == 3
    ensures
      var id := Word(body[0], body[1]);
      id in c.pendingSubscriptions && OnSubAck(c, body) == Granted(c, id)
      && Granted(c, id).0.active == Granted(c, id).0.expected && Granted(c, id).0.pendingSubscriptions == map[]
  {
    AbortingIsNotReady(c);
  }

  lemma OnlyGrantsAnnounceReady(c: Client, e: Event, topics: seq<string>)
    requires Ready in Handle(c, e, topics).1
    ensures e.FromBroker? && |e.packet.body| == 3
    ensures
      var id := Word(e.packet.body[0], e.packet.body[1]);
      id in c.pendingSubscriptions && Handle(c, e, topics) == Granted(c, id)
      && Granted(c, id).0.active == Granted(c, id).0.expected && Granted(c, id).0.pendingSubscriptions == map[]
  {
    if e.FromBroker? {
      if e.packet.header / 16 == 2 {
        ConnAckIsNotReady(c, e.packet.body, topics);
      } else if e.packet.header / 16 == 9 {
        SubAckReady(c, e.packet.body);
      }
    }
  }

  lemma {:induction false} SubscribingIsNotReady(c: Client, topics: seq<string>)
    ensures Ready !in SubscribeTopics(c, topics).1
  {
    if topics != [] {
      SubscribingIsNotReady(c, topics[..|topics| - 1]);
    }
  }
}
