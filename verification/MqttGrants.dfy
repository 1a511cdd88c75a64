/** Subscriptions seen from the packets: which SUBACK grants and which refuses, and
    what the client may conclude when it announces that it is ready. */
module MqttGrants {
  import opened Text
  import opened MqttCodec
  import opened MqttFramer
  import opened MqttSession
  import opened MqttRuns

  // ---------- one SUBACK ----------

  predicate IsSubAck(p: Packet) {
    p.header / 16 == 9
  }

  function BigEndian(high: nat, low: nat): nat {
    256 * high + low
  }

  /** The answer to one subscription request: its id and a return code. */
  predicate Answers(p: Packet, id: nat) {
    IsSubAck(p) && |p.body| == 3 && BigEndian(p.body[0], p.body[1]) == id
  }

  /** Return codes 0, 1 and 2 grant a quality of service (section 3.9.3 of MQTT 3.1.1). */
  predicate Grants(p: Packet, id: nat) {
    Answers(p, id) && (p.body[2] == 0 || p.body[2] == 1 || p.body[2] == 2)
  }

  /** An answer to a pending request announces the topic as subscribed exactly for the three granting
      codes; any other code rejects it, and an open connection is dropped. */
  lemma AnswerDecides(c: Client, p: Packet, id: nat, topics: seq<string>)
    requires Answers(p, id) && id in c.pendingSubscriptions
    ensures
      var (next, signals) := OnPacket(c, p, topics);
      var topic := c.pendingSubscriptions[id];
      && (Subscribed(topic) in signals <==> Grants(p, id))
      && (Rejected(topic) in signals <==> !Grants(p, id))
      && (Grants(p, id) ==>
            next.connected == c.connected && next.active == c.active + 1
            && next.pendingSubscriptions == c.pendingSubscriptions - {id})
      && (!Grants(p, id) ==>
            !next.connected && Ready !in signals && forall t: string :: Subscribed(t) !in signals)
  {
  }

  /** Any other SUBACK changes no subscription: an unknown id is reported, and a malformed one drops
      the connection. */
  lemma OtherSubAcks(c: Client, p: Packet, topics: seq<string>)
    requires IsSubAck(p) && forall id <- c.pendingSubscriptions :: !Answers(p, id)
    ensures
      var (next, signals) := OnPacket(c, p, topics);
      && (|p.body| == 3 ==> next == c && signals == [UnknownId(BigEndian(p.body[0], p.body[1]))])
      && (|p.body| != 3 ==> !next.connected && Malformed in signals)
      && Ready !in signals && forall t: string :: Subscribed(t) !in signals && Rejected(t) !in signals
  {
  }

  // ---------- the requests of a session ----------

  /** The topics to ask for: trimmed, without the blank ones. */
  function Wanted(topics: seq<string>): seq<string> {
    if topics == [] then []
    else Wanted(topics[..|topics| - 1])
         + if Trim(topics[|topics| - 1]) == "" then [] else [Trim(topics[|topics| - 1])]
  }

  /** The requests among the signals, in order. */
  function Requests(signals: seq<Signal>): seq<Signal> {
    if signals == [] then []
    else
      var before := Requests(signals[..|signals| - 1]);
      if signals[|signals| - 1].Subscribing? then before + [signals[|signals| - 1]] else before
  }

  predicate AreFor(requests: seq<Signal>, topics: seq<string>) {
    |requests| == |topics|
    && forall r :: 0 <= r < |requests| ==> requests[r].Subscribing? && requests[r].topic == topics[r]
  }

  lemma {:induction false} AllRequests(signals: seq<Signal>)
    requires forall o <- signals :: o.Subscribing?
    ensures Requests(signals) == signals
  {
    if signals != [] {
      assert signals[|signals| - 1] in signals;
      AllRequests(signals[..|signals| - 1]);
    }
  }

  /** What the trace says of the requests is what was sent. */
  ghost predicate Tied(c: Client, requests: seq<Signal>) {
    && AreFor(requests, c.trace.requested)
    && forall id <- c.trace.origin :: c.trace.origin[id] < |requests| && requests[c.trace.origin[id]].id == id
  }

  lemma {:induction false} SubscribingIsTied(c: Client, topics: seq<string>)
    requires c.trace.requested == [] && c.trace.origin == map[]
    ensures Tied(SubscribeTopics(c, topics).0, SubscribeTopics(c, topics).1)
    ensures SubscribeTopics(c, topics).0.trace.requested == Wanted(topics)
    ensures SubscribeTopics(c, topics).0.trace.granted == c.trace.granted
    ensures SubscribeTopics(c, topics).0.expected == c.expected + |Wanted(topics)|
  {
    if topics != [] {
      SubscribingIsTied(c, topics[..|topics| - 1]);
    }
  }

  /** The step of an accepted CONNACK asks for the wanted topics, in order. */
  lemma ConnAckAsks(c: Client, body: bytes, topics: seq<string>)
    requires |body| >= 2 && body[1] == 0
    ensures
      var (next, signals) := OnConnAck(c, body, topics);
      && AreFor(Requests(signals), Wanted(topics))
      && Tied(next, Requests(signals)) && next.trace.granted == {}
      && next.trace.requested == Wanted(topics)
  {
    var start := BeginSession(c.(sessionReady := true));
    SubscribingIsTied(start, topics);
    var (next, signals) := SubscribeTopics(start, topics);
    AllRequests(signals);
    if next.expected == 0 {
      assert (signals + [NoSubscriptions])[..|signals|] == signals;
    } else {
      assert signals + [] == signals;
    }
  }

  // ---------- ready means granted ----------

  /** The requests sent in the step at k. */
  function AskedAt(events: seq<Event>, topics: seq<string>, k: nat): seq<Signal>
    requires k < |events|
  {
    Requests(Handle(Run(events[..k], topics), events[k], topics).1)
  }

  ghost predicate GrantedAfter(events: seq<Event>, k: nat, id: nat) {
    exists j :: k < j < |events| && events[j].FromBroker? && Grants(events[j].packet, id)
  }

  /** The last CONNACK that was accepted. */
  ghost predicate IsLastConnAck(events: seq<Event>, k: nat)
    requires k < |events|
  {
    IsAcceptedConnAck(events[k]) && forall j :: k < j < |events| ==> !IsAcceptedConnAck(events[j])
  }

  /** The requests of the session were sent with its CONNACK, and those counted as granted were granted
      by a packet. */
  ghost predicate TiedSince(c: Client, events: seq<Event>, topics: seq<string>, k: nat)
    requires k < |events|
  {
    && IsLastConnAck(events, k)
    && Tied(c, AskedAt(events, topics, k))
    && forall r <- c.trace.granted :: r < |c.trace.requested| && GrantedAfter(events, k, AskedAt(events, topics, k)[r].id)
  }

  ghost predicate SessionTied(events: seq<Event>, topics: seq<string>) {
    var c := Run(events, topics);
    (c.trace.requested == [] && c.trace.origin == map[] && c.trace.granted == {})
    || exists k :: 0 <= k < |events| && TiedSince(c, events, topics, k)
  }

  /** How a step that accepts no CONNACK changes the requests: it forgets them all, or keeps them and
      counts at most one more as granted, by a packet. */
  ghost predicate Moves(c: Client, next: Client, e: Event) {
    || (next.trace.requested == [] && next.trace.origin == map[] && next.trace.granted == {})
    || (&& next.trace.requested == c.trace.requested
        && (forall id <- next.trace.origin :: id in c.trace.origin && next.trace.origin[id] == c.trace.origin[id])
        && (forall r <- next.trace.granted ::
              r in c.trace.granted
              || exists id <- c.trace.origin :: c.trace.origin[id] == r && e.FromBroker? && Grants(e.packet, id)))
  }

  lemma SubAckMoves(c: Client, e: Event, topics: seq<string>)
    requires e.FromBroker? && IsSubAck(e.packet)
    ensures Moves(c, Handle(c, e, topics).0, e)
  {
    var p := e.packet;
    if |p.body| == 3 && Word(p.body[0], p.body[1]) in c.pendingSubscriptions && p.body[2] <= 2 {
      var id := Word(p.body[0], p.body[1]);
      assert Grants(p, id);
      assert Handle(c, e, topics) == Granted(c, id);
    }
  }

  lemma StepMoves(c: Client, e: Event, topics: seq<string>)
    requires !IsAcceptedConnAck(e)
    ensures Moves(c, Handle(c, e, topics).0, e)
  {
    if e.FromBroker? && IsSubAck(e.packet) {
      SubAckMoves(c, e, topics);
    }
  }

  lemma GrantsStay(events: seq<Event>, e: Event, k: nat, id: nat)
    requires GrantedAfter(events, k, id) || (k < |events| && e.FromBroker? && Grants(e.packet, id))
    ensures GrantedAfter(events + [e], k, id)
  {
    var all := events + [e];
    if GrantedAfter(events, k, id) {
      var j :| k < j < |events| && events[j].FromBroker? && Grants(events[j].packet, id);
      assert all[j] == events[j];
    } else {
      assert all[|events|] == e;
    }
  }

  lemma TiedStays(events: seq<Event>, e: Event, topics: seq<string>, k: nat, c: Client, next: Client)
    requires k < |events| && TiedSince(c, events, topics, k) && !IsAcceptedConnAck(e)
    requires next.trace.requested == c.trace.requested
    requires forall id <- next.trace.origin :: id in c.trace.origin && next.trace.origin[id] == c.trace.origin[id]
    requires forall r <- next.trace.granted ::
               r in c.trace.granted
               || exists id <- c.trace.origin :: c.trace.origin[id] == r && e.FromBroker? && Grants(e.packet, id)
    ensures TiedSince(next, events + [e], topics, k)
  {
    var all := events + [e];
    assert all[..k] == events[..k] && all[k] == events[k];
    assert AskedAt(all, topics, k) == AskedAt(events, topics, k);
    var asked := AskedAt(events, topics, k);
    forall r <- next.trace.granted
      ensures r < |next.trace.requested| && GrantedAfter(all, k, asked[r].id)
    {
      if r !in c.trace.granted {
        var id :| id in c.trace.origin && c.trace.origin[id] == r && e.FromBroker? && Grants(e.packet, id);
        assert asked[r].id == id;
      }
      GrantsStay(events, e, k, asked[r].id);
    }
  }

  lemma ConnAckTies(events: seq<Event>, e: Event, topics: seq<string>)
    requires IsAcceptedConnAck(e)
    ensures TiedSince(Handle(Run(events, topics), e, topics).0, events + [e], topics, |events|)
  {
    var all := events + [e];
    assert all[..|events|] == events && all[|events|] == e;
    ConnAckAsks(Run(events, topics), e.packet.body, topics);
  }

  lemma {:induction false} RunIsTied(events: seq<Event>, topics: seq<string>)
    ensures SessionTied(events, topics)
  {
    if events != [] {
      var front, e := events[..|events| - 1], events[|events| - 1];
      assert events == front + [e];
      RunIsTied(front, topics);
      var c, next := Run(front, topics), Run(events, topics);
      if IsAcceptedConnAck(e) {
        ConnAckTies(front, e, topics);
      } else {
        StepMoves(c, e, topics);
        if next.trace.requested != [] || next.trace.origin != map[] || next.trace.granted != {} {
          MovedIsTied(front, e, topics);
        }
      }
    }
  }

  lemma MovedIsTied(events: seq<Event>, e: Event, topics: seq<string>)
    requires SessionTied(events, topics) && !IsAcceptedConnAck(e)
    requires
      var next := Handle(Run(events, topics), e, topics).0;
      Moves(Run(events, topics), next, e)
      && (next.trace.requested != [] || next.trace.origin != map[] || next.trace.granted != {})
    ensures exists k :: 0 <= k < |events| && TiedSince(Handle(Run(events, topics), e, topics).0, events + [e], topics, k)
  {
    var c, next := Run(events, topics), Handle(Run(events, topics), e, topics).0;
    assert !(c.trace.requested == [] && c.trace.origin == map[] && c.trace.granted == {});
    var k :| 0 <= k < |events| && TiedSince(c, events, topics, k);
    TiedStays(events, e, topics, k, c, next);
  }

  /** Every request sent with the last accepted CONNACK, at k, has been granted by a packet, and these
      requests are for the wanted topics. */
  ghost predicate IsGrantedSession(events: seq<Event>, topics: seq<string>, e: Event, k: nat)
    requires k < |events|
  {
    && IsLastConnAck(events, k)
    && AreFor(AskedAt(events, topics, k), Wanted(topics))
    && forall o <- AskedAt(events, topics, k) :: GrantedAfter(events + [e], k, o.id)
  }

  lemma ReadyIsNoConnAck(c: Client, e: Event, topics: seq<string>)
    requires Ready in Handle(c, e, topics).1
    ensures !IsAcceptedConnAck(e)
  {
    if IsAcceptedConnAck(e) {
      ConnAckIsNotReady(c, e.packet.body, topics);
    }
  }

  lemma TiedIsGranted(events: seq<Event>, topics: seq<string>, e: Event, k: nat, next: Client)
    requires k < |events| + 1 && TiedSince(next, events + [e], topics, k) && !IsAcceptedConnAck(e)
    requires forall r: nat :: r < |next.trace.requested| ==> r in next.trace.granted
    ensures k < |events| && IsGrantedSession(events, topics, e, k)
    ensures |next.trace.requested| == |Wanted(topics)|
  {
    LastBefore(events, topics, e, k);
    var asked := AskedAt(events, topics, k);
    ConnAckAsks(Run(events[..k], topics), events[k].packet.body, topics);
    forall o <- asked
      ensures GrantedAfter(events + [e], k, o.id)
    {
      var r :| 0 <= r < |asked| && asked[r] == o;
      assert r in next.trace.granted;
    }
  }

  /** "Ready" is announced only when the broker has granted, by a SUBACK after the last accepted CONNACK
      and with a granting code, every request that was sent with that CONNACK; and these were all the
      wanted topics, of which there is at least one. */
  lemma ReadyMeansGranted(events: seq<Event>, topics: seq<string>, e: Event)
    requires Ready in Handle(Run(events, topics), e, topics).1
    ensures Wanted(topics) != []
    ensures exists k :: 0 <= k < |events| && IsGrantedSession(events, topics, e, k)
  {
    ReadyMeansAllGranted(events, topics, e);
    ReadyIsNoConnAck(Run(events, topics), e, topics);
    var next := Handle(Run(events, topics), e, topics).0;
    TiedAfter(events, topics, e);
    var k :| 0 <= k < |events| + 1 && TiedSince(next, events + [e], topics, k);
    TiedIsGranted(events, topics, e, k, next);
  }

  lemma TiedAfter(events: seq<Event>, topics: seq<string>, e: Event)
    requires Handle(Run(events, topics), e, topics).0.trace.requested != []
    ensures exists k :: 0 <= k < |events| + 1 && TiedSince(Handle(Run(events, topics), e, topics).0, events + [e], topics, k)
  {
    var all := events + [e];
    assert all[..|all| - 1] == events && all[|all| - 1] == e;
    RunIsTied(all, topics);
    assert Run(all, topics) == Handle(Run(events, topics), e, topics).0;
  }

  lemma LastBefore(events: seq<Event>, topics: seq<string>, e: Event, k: nat)
    requires k < |events| + 1 && IsLastConnAck(events + [e], k) && !IsAcceptedConnAck(e)
    ensures k < |events| && IsLastConnAck(events, k) && AskedAt(events + [e], topics, k) == AskedAt(events, topics, k)
  {
    var all := events + [e];
    assert all[|events|] == e;
    assert k < |events|;
    assert all[..k] == events[..k] && all[k] == events[k];
    assert forall j :: k < j < |events| ==> all[j] == events[j];
  }

  // ---------- a broker that grants everything ----------

  /** The client after these packets. */
  function Feed(c: Client, packets: seq<Packet>, topics: seq<string>): Client {
    if packets == [] then c else OnPacket(Feed(c, packets[..|packets| - 1], topics), packets[|packets| - 1], topics).0
  }

  predicate GrantEach(packets: seq<Packet>, ids: seq<nat>) {
    |packets| == |ids| && forall i :: 0 <= i < |ids| ==> Grants(packets[i], ids[i])
  }

  predicate AllDiffer(ids: seq<nat>) {
    forall i, j :: 0 <= i < j < |ids| ==> ids[i] != ids[j]
  }

  lemma {:induction false} FeedingGrants(c: Client, packets: seq<Packet>, ids: seq<nat>, topics: seq<string>)
    requires GrantEach(packets, ids) && AllDiffer(ids) && forall id <- ids :: id in c.pendingSubscriptions
    ensures Feed(c, packets, topics).active == c.active + |ids| && Feed(c, packets, topics).expected == c.expected
    ensures forall id :: id in Feed(c, packets, topics).pendingSubscriptions <==> id in c.pendingSubscriptions && id !in ids
  {
    if packets != [] {
      var n := |packets| - 1;
      assert ids == ids[..n] + [ids[n]];
      FeedingGrants(c, packets[..n], ids[..n], topics);
      var before := Feed(c, packets[..n], topics);
      assert ids[n] in ids && ids[n] !in ids[..n];
      GrantLeaves(before, packets[n], ids[n], topics);
    }
  }

  lemma GrantLeaves(c: Client, p: Packet, id: nat, topics: seq<string>)
    requires Grants(p, id) && id in c.pendingSubscriptions
    ensures
      var (next, signals) := OnPacket(c, p, topics);
      && next.active == c.active + 1 && next.expected == c.expected
      && next.pendingSubscriptions == c.pendingSubscriptions - {id}
      && (Ready in signals <==> next.pendingSubscriptions == map[] && next.active == next.expected)
  {
  }

  /** After some of the grants, the requests of the others are still pending. */
  lemma SomeGranted(c: Client, packets: seq<Packet>, ids: seq<nat>, topics: seq<string>, k: nat)
    requires GrantEach(packets, ids) && AllDiffer(ids) && (forall id :: id in ids <==> id in c.pendingSubscriptions)
    requires k < |ids|
    ensures
      var before := Feed(c, packets[..k], topics);
      && before.active == c.active + k && before.expected == c.expected
      && (forall id :: id in before.pendingSubscriptions <==> id in ids && id !in ids[..k])
      && ids[k] in before.pendingSubscriptions
  {
    forall id <- ids[..k]
      ensures id in c.pendingSubscriptions
    {
      assert id in ids;
    }
    FeedingGrants(c, packets[..k], ids[..k], topics);
    assert ids[k] in ids && ids[k] !in ids[..k];
  }

  /** Granting the pending requests one after the other, in any order, makes the client ready with the
      last one and not before. */
  lemma GrantingAllIsReady(c: Client, packets: seq<Packet>, ids: seq<nat>, topics: seq<string>, k: nat)
    requires GrantEach(packets, ids) && AllDiffer(ids) && (forall id :: id in ids <==> id in c.pendingSubscriptions)
    requires c.active + |ids| == c.expected && k < |ids|
    ensures Ready in OnPacket(Feed(c, packets[..k], topics), packets[k], topics).1 <==> k == |ids| - 1
  {
    SomeGranted(c, packets, ids, topics, k);
    LastGrantIsReady(Feed(c, packets[..k], topics), packets[k], ids, topics, k);
  }

  lemma LastGrantIsReady(before: Client, p: Packet, ids: seq<nat>, topics: seq<string>, k: nat)
    requires k < |ids| && Grants(p, ids[k]) && ids[k] in before.pendingSubscriptions
    requires before.active + |ids| - k == before.expected
    requires forall id :: id in before.pendingSubscriptions <==> id in ids && id !in ids[..k]
    ensures Ready in OnPacket(before, p, topics).1 <==> k == |ids| - 1
  {
    GrantLeaves(before, p, ids[k], topics);
    if k == |ids| - 1 {
      assert ids == ids[..k] + [ids[k]];
      assert before.pendingSubscriptions - {ids[k]} == map[];
    }
  }

  lemma {:induction false} IdsOfRequests(signals: seq<Signal>)
    requires forall o <- signals :: o.Subscribing?
    ensures |Ids(signals)| == |signals| && forall i :: 0 <= i < |signals| ==> Ids(signals)[i] == signals[i].id
  {
    if signals != [] {
      var n := |signals| - 1;
      assert signals[n] in signals;
      assert signals == signals[..n] + [signals[n]];
      IdsOfRequests(signals[..n]);
    }
  }

  lemma {:induction false} SubscribingPends(c: Client, topics: seq<string>)
    requires c.pendingSubscriptions == map[]
    ensures forall id :: id in SubscribeTopics(c, topics).0.pendingSubscriptions
                         <==> exists o <- SubscribeTopics(c, topics).1 :: o.Subscribing? && o.id == id
    ensures forall o <- SubscribeTopics(c, topics).1 :: o.Subscribing?
    ensures SubscribeTopics(c, topics).0.active == c.active
  {
    if topics != [] {
      SubscribingPends(c, topics[..|topics| - 1]);
    }
  }

  lemma ConnAckSubscribes(c: Client, body: bytes, topics: seq<string>)
    requires |body| >= 2 && body[1] == 0
    ensures
      var (next, signals) := SubscribeTopics(BeginSession(c.(sessionReady := true)), topics);
      OnConnAck(c, body, topics).0 == next && Requests(OnConnAck(c, body, topics).1) == signals
  {
    var start := BeginSession(c.(sessionReady := true));
    var (next, signals) := SubscribeTopics(start, topics);
    SubscribingPends(start, topics);
    AllRequests(signals);
    if next.expected == 0 {
      assert (signals + [NoSubscriptions])[..|signals|] == signals;
    } else {
      assert signals + [] == signals;
    }
  }

  lemma RequestIdsDiffer(c: Client, topics: seq<string>)
    requires IdsInStep(c) && |SubscribeTopics(c, topics).1| <= 65535 && c.pendingSubscriptions == map[]
    ensures |Ids(SubscribeTopics(c, topics).1)| == |SubscribeTopics(c, topics).1| && AllDiffer(Ids(SubscribeTopics(c, topics).1))
  {
    var signals := SubscribeTopics(c, topics).1;
    SubscribingPends(c, topics);
    IdsOfRequests(signals);
    SubscribingAllocates(c, topics);
    AllocatedDiffer(Ids(signals), c.trace.handedOut, SubscribeTopics(c, topics).0.trace.handedOut);
  }

  lemma AllocatedDiffer(ids: seq<nat>, from: nat, upTo: nat)
    requires Allocations(ids, from, upTo) && |ids| <= 65535
    ensures AllDiffer(ids)
  {
    forall i, j | 0 <= i < j < |ids|
      ensures ids[i] != ids[j]
    {
      IdsDiffer(from + i, from + j);
    }
  }

  /** After an accepted CONNACK, if there are no more topics than packet ids: the requests carry different
      ids, all of them are pending, and as many grants are expected. */
  lemma ConnAckPends(c: Client, body: bytes, topics: seq<string>)
    requires IdsInStep(c) && |body| >= 2 && body[1] == 0 && |Wanted(topics)| <= 65535
    ensures
      var (next, signals) := OnConnAck(c, body, topics);
      var ids := Ids(Requests(signals));
      && |ids| == |Wanted(topics)| == next.expected && AllDiffer(ids) && next.active == 0
      && (forall id :: id in ids <==> id in next.pendingSubscriptions)
  {
    var start := BeginSession(c.(sessionReady := true));
    var (next, signals) := SubscribeTopics(start, topics);
    ConnAckSubscribes(c, body, topics);
    SubscribingIsTied(start, topics);
    SubscribingPends(start, topics);
    RequestIdsDiffer(start, topics);
    IdsOfRequests(signals);
    PendingIds(next, signals, Ids(signals));
  }

  lemma PendingIds(c: Client, signals: seq<Signal>, ids: seq<nat>)
    requires |ids| == |signals| && forall i :: 0 <= i < |signals| ==> signals[i].Subscribing? && ids[i] == signals[i].id
    requires forall id :: id in c.pendingSubscriptions <==> exists o <- signals :: o.Subscribing? && o.id == id
    ensures forall id :: id in ids <==> id in c.pendingSubscriptions
  {
    forall id
      ensures id in ids <==> id in c.pendingSubscriptions
    {
      if id in ids {
        var i :| 0 <= i < |ids| && ids[i] == id;
        assert signals[i] in signals;
      }
      if id in c.pendingSubscriptions {
        var o :| o in signals && o.Subscribing? && o.id == id;
        var i :| 0 <= i < |signals| && signals[i] == o;
        assert ids[i] == id;
      }
    }
  }

  /** A broker that accepts the connection and grants every request, each once and in any order, makes the
      client announce that it is ready, with the last grant and not before. */
  lemma GenerousBrokerMakesReady(c: Client, body: bytes, topics: seq<string>, packets: seq<Packet>, ids: seq<nat>, k: nat)
    requires IdsInStep(c) && |body| >= 2 && body[1] == 0 && |Wanted(topics)| <= 65535
    requires GrantEach(packets, ids) && AllDiffer(ids) && k < |ids| == |Wanted(topics)|
    requires forall id :: id in ids <==> id in Ids(Requests(OnConnAck(c, body, topics).1))
    ensures Ready in OnPacket(Feed(OnConnAck(c, body, topics).0, packets[..k], topics), packets[k], topics).1
       <==> k == |ids| - 1
  {
    ConnAckPends(c, body, topics);
    GrantingAllIsReady(OnConnAck(c, body, topics).0, packets, ids, topics, k);
  }
}
