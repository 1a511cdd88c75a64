/** Messages in both directions: what a PUBLISH packet of the broker delivers, whatever its
    flags, and what becomes of a publish of the application. */
module MqttDelivery {
  import opened Text
  import opened MqttCodec
  import opened MqttFramer
  import opened MqttSession
  import opened MqttGrants

  // ---------- messages of the broker ----------

  /** The first byte of a PUBLISH: its type, a duplicate flag, the quality of service and the retain flag
      (section 3.3.1 of MQTT 3.1.1). */
  function PublishHeader(duplicate: bool, qos: nat, retained: bool): (header: byte)
    requires qos < 4
  {
    0x30 + (if duplicate then 8 else 0) + 2 * qos + (if retained then 1 else 0)
  }

  /** The part in front of the payload: the topic with its length and, above quality 0, the packet id. */
  function PublishPrefix(topic: bytes, qos: nat, packetId: nat): bytes
    requires |topic| < 65536 && packetId < 65536
  {
    [HighByte(|topic|), LowByte(|topic|)] + topic + if qos == 0 then [] else [HighByte(packetId), LowByte(packetId)]
  }

  lemma HeaderFlags(duplicate: bool, qos: nat, retained: bool)
    requires qos < 4
    ensures
      var header := PublishHeader(duplicate, qos, retained);
      header / 16 == 3 && Qos(header) == qos && (header % 2 != 0 <==> retained)
  {
  }

  lemma PrefixLayout(topic: bytes, qos: nat, packetId: nat, payload: bytes)
    requires |topic| < 65536 && packetId < 65536
    ensures
      var body, end := PublishPrefix(topic, qos, packetId) + payload, 2 + |topic|;
      && body[0] == HighByte(|topic|) && body[1] == LowByte(|topic|) && body[2..end] == topic
      && (qos == 0 ==> body[end..] == payload)
      && (qos > 0 ==> body[end] == HighByte(packetId) && body[end + 1] == LowByte(packetId) && body[end + 2..] == payload)
  {
  }

  lemma PlainIsParsed(header: byte, body: bytes, topic: bytes, payload: bytes, retained: bool)
    requires Qos(header) == 0 && (header % 2 != 0 <==> retained) && |body| == 2 + |topic| + |payload|
    requires Word(body[0], body[1]) == |topic| && body[2..2 + |topic|] == topic && body[2 + |topic|..] == payload
    ensures ParsePublish(header, body) == Some(Publish(topic, payload, retained, 0, 0))
  {
  }

  lemma NumberedIsParsed(header: byte, body: bytes, topic: bytes, packetId: nat, payload: bytes, retained: bool)
    requires Qos(header) > 0 && (header % 2 != 0 <==> retained) && |body| == 4 + |topic| + |payload|
    requires
      var end := 2 + |topic|;
      && Word(body[0], body[1]) == |topic| && body[2..end] == topic
      && Word(body[end], body[end + 1]) == packetId && body[end + 2..] == payload
    ensures ParsePublish(header, body) == Some(Publish(topic, payload, retained, Qos(header), packetId))
  {
  }

  lemma AnyPublishIsParsed(duplicate: bool, qos: nat, retained: bool, topic: bytes, packetId: nat, payload: bytes)
    requires qos < 4 && |topic| < 65536 && packetId < 65536
    ensures ParsePublish(PublishHeader(duplicate, qos, retained), PublishPrefix(topic, qos, packetId) + payload)
         == Some(Publish(topic, payload, retained, qos, if qos == 0 then 0 else packetId))
  {
    var header, body := PublishHeader(duplicate, qos, retained), PublishPrefix(topic, qos, packetId) + payload;
    HeaderFlags(duplicate, qos, retained);
    PrefixLayout(topic, qos, packetId, payload);
    WordRoundTrip(|topic|);
    WordRoundTrip(packetId);
    if qos == 0 {
      PlainIsParsed(header, body, topic, payload, retained);
    } else {
      NumberedIsParsed(header, body, topic, packetId, payload, retained);
    }
  }

  /** Whatever its flags, a message of the broker is handed on with its own topic, payload and retain flag,
      and acknowledged first, under its packet id, exactly when its quality of service is 1. */
  lemma MessageIsDelivered(c: Client, duplicate: bool, qos: nat, retained: bool, topic: bytes, packetId: nat,
                           payload: bytes, topics: seq<string>)
    requires qos < 4 && |topic| < 65536 && packetId < 65536
    ensures
      var p := Packet(PublishHeader(duplicate, qos, retained), PublishPrefix(topic, qos, packetId) + payload);
      var received := Received(Publish(topic, payload, retained, qos, if qos == 0 then 0 else packetId));
      OnPacket(c, p, topics) == (c, if qos == 1 then [Acknowledging(packetId), received] else [received])
  {
    HeaderFlags(duplicate, qos, retained);
    AnyPublishIsParsed(duplicate, qos, retained, topic, packetId, payload);
    var received := Received(Publish(topic, payload, retained, qos, if qos == 0 then 0 else packetId));
    assert [Acknowledging(packetId)] + [received] == [Acknowledging(packetId), received];
    assert [] + [received] == [received];
  }

  /** The length of the part in front of the payload, and where it says the length of the topic. */
  lemma PrefixStart(topic: bytes, qos: nat, packetId: nat)
    requires |topic| < 65536 && packetId < 65536
    ensures
      var prefix := PublishPrefix(topic, qos, packetId);
      && |prefix| == 2 + |topic| + (if qos == 0 then 0 else 2)
      && prefix[0] == HighByte(|topic|) && prefix[1] == LowByte(|topic|)
  {
  }

  /** A body that ends before its payload begins delivers nothing. */
  lemma CutMessageIsDropped(c: Client, duplicate: bool, qos: nat, retained: bool, topic: bytes, packetId: nat,
                            n: nat, topics: seq<string>)
    requires qos < 4 && |topic| < 65536 && packetId < 65536 && n < |PublishPrefix(topic, qos, packetId)|
    ensures OnPacket(c, Packet(PublishHeader(duplicate, qos, retained), PublishPrefix(topic, qos, packetId)[..n]), topics) == (c, [])
  {
    HeaderFlags(duplicate, qos, retained);
    PrefixStart(topic, qos, packetId);
    WordRoundTrip(|topic|);
    ShortIsDropped(c, PublishHeader(duplicate, qos, retained), PublishPrefix(topic, qos, packetId)[..n], |topic|, topics);
  }

  lemma ShortIsDropped(c: Client, header: byte, body: bytes, length: nat, topics: seq<string>)
    requires header / 16 == 3
    requires |body| >= 2 ==> Word(body[0], body[1]) == length
    requires |body| < 2 + length + if Qos(header) == 0 then 0 else 2
    ensures OnPacket(c, Packet(header, body), topics) == (c, [])
  {
    assert ParsePublish(header, body) == None;
  }

  // ---------- publishes of the application ----------

  /** A publish is taken exactly when its topic names something and holds no wildcard, the session is ready
      on an open socket, and the socket takes the packet; it then waits for its confirmation. */
  lemma PublishIsTakenExactly(c: Client, raw: string, written: bool)
    ensures
      var (next, signals, taken) := PublishTopic(c, raw, written);
      var topic := Trim(raw);
      && (taken <==> written && c.connected && c.sessionReady && topic != "" && '+' !in topic && '#' !in topic)
      && (taken ==> next.pendingPublishes == c.pendingPublishes[c.nextId := topic] && signals == [Publishing(c.nextId, topic)])
      && (!taken ==> signals != [] && signals[|signals| - 1] == PublishFailed(topic))
  {
  }

  /** A PUBACK confirms exactly the publish that waits under its id. */
  lemma PubAckConfirms(c: Client, p: Packet, topics: seq<string>)
    requires p.header / 16 == 4 && |p.body| == 2
    ensures
      var id := BigEndian(p.body[0], p.body[1]);
      var (next, signals) := OnPacket(c, p, topics);
      if id in c.pendingPublishes
      then signals == [Confirmed(c.pendingPublishes[id])] && next.pendingPublishes == c.pendingPublishes - {id}
      else signals == [] && next == c
  {
  }

  /** A CONNACK that refuses, or is cut short, drops an open connection and subscribes to nothing. */
  lemma RefusedConnAckDrops(c: Client, p: Packet, topics: seq<string>)
    requires p.header / 16 == 2 && (|p.body| < 2 || p.body[1] != 0)
    ensures !OnPacket(c, p, topics).0.connected && OnPacket(c, p, topics).0.sessionReady == (c.sessionReady && !c.connected)
    ensures forall o <- OnPacket(c, p, topics).1 :: !o.Subscribing?
  {
  }

  /** Packets of any other type do nothing. */
  lemma OtherPacketsAreIgnored(c: Client, p: Packet, topics: seq<string>)
    requires p.header / 16 !in {2, 3, 4, 9}
    ensures OnPacket(c, p, topics) == (c, [])
  {
  }
}
