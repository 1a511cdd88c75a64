/** MQTT 3.1.1 packets as bytes: the remaining length (section 2.2.3), UTF-8
    strings (section 1.5.3) and PUBLISH (section 3.3). */
module MqttCodec {
  import opened Text

  type byte = x: int | 0 <= x < 256
  type bytes = seq<byte>

  const MAX_REMAINING_LENGTH: nat := 268435455

  // ---------- remaining length ----------

  function RemainingLengthBytes(length: nat): (out: bytes)
    ensures out != []
  {
    if length < 128 then [length] else [length % 128 + 128] + RemainingLengthBytes(length / 128)
  }

  method EncodeRemainingLength(length: nat) returns (out: bytes)
    ensures out == RemainingLengthBytes(length)
  {
    out := [];
    var rest := length;
    while true
      invariant rest >= 0
      invariant out + RemainingLengthBytes(rest) == RemainingLengthBytes(length)
      decreases rest
    {
      var digit := rest % 128;
      var next := rest / 128;
      if next > 0 {
        digit := digit + 128;
      }
      ghost var tail := RemainingLengthBytes(rest);
      ghost var before := out;
      out := out + [digit];
      if next == 0 {
        assert tail == [digit];
        break;
      }
      assert tail == [digit] + RemainingLengthBytes(next);
      assert before + tail == out + RemainingLengthBytes(next);
      rest := next;
    }
  }

  /** Value and size of the length that starts the bytes. `None` is a length that
      is cut short, or that still continues after four bytes. */
  function LengthAt(b: bytes, digits: nat): Option<(nat, nat)>
    decreases digits
  {
    if digits == 0 || b == [] then None
    else if b[0] < 128 then Some((b[0], 1))
    else
      match LengthAt(b[1..], digits - 1)
      case None => None
      case Some((value, size)) => Some((b[0] - 128 + 128 * value, size + 1))
  }

  function RemainingLength(b: bytes): Option<(nat, nat)> {
    LengthAt(b, 4)
  }

  /** A length whose first bytes have been read: their number, their value and the next digit's weight. */
  function Continue(tail: Option<(nat, nat)>, count: nat, value: nat, weight: nat): Option<(nat, nat)> {
    match tail
    case None => None
    case Some((v, n)) => Some((value + weight * v, count + n))
  }

  function Accumulate(result: nat, b: byte, multiplier: nat): nat {
    result + b % 128 * multiplier
  }

  lemma ContinueStep(b: bytes, digits: nat, count: nat, value: nat, weight: nat)
    requires digits > 0 && b != [] && b[0] >= 128
    ensures Continue(LengthAt(b, digits), count, value, weight)
            == Continue(LengthAt(b[1..], digits - 1), count + 1, Accumulate(value, b[0], weight), weight * 128)
  {
    var tail := LengthAt(b[1..], digits - 1);
    if tail.Some? {
      var v := tail.value.0;
      assert weight * (b[0] - 128 + 128 * v) == (b[0] - 128) * weight + (weight * 128) * v;
    }
  }

  lemma ContinueEnd(b: bytes, digits: nat, count: nat, value: nat, weight: nat)
    requires digits > 0 && b != [] && b[0] < 128
    ensures Continue(LengthAt(b, digits), count, value, weight) == Some((Accumulate(value, b[0], weight), count + 1))
  {
  }

  lemma ContinueStart(b: bytes)
    ensures Continue(RemainingLength(b), 0, 0, 1) == RemainingLength(b)
  {
  }

  /** The loop keeps a running value and a multiplier, and answers -1 on failure. */
  method DecodeRemainingLength(buffer: bytes, start: nat) returns (size: int, value: nat)
    requires start <= |buffer|
    ensures RemainingLength(buffer[start..]) == if size < 0 then None else Some((value, size))
  {
    var multiplier: nat := 1;
    var result: nat := 0;
    var pos := start;
    value := 0;
    ContinueStart(buffer[start..]);
    for i := 0 to 4
      invariant pos == start + i <= |buffer|
      invariant RemainingLength(buffer[start..]) == Continue(LengthAt(buffer[pos..], 4 - i), i, result, multiplier)
    {
      ghost var here := buffer[pos..];
      if pos >= |buffer| {
        assert LengthAt(here, 4 - i) == None;
        return -1, 0;
      }
      var b := buffer[pos];
      assert here[0] == b && here[1..] == buffer[pos + 1..];
      if b < 128 {
        ContinueEnd(here, 4 - i, i, result, multiplier);
      } else {
        ContinueStep(here, 4 - i, i, result, multiplier);
      }
      pos := pos + 1;
      result := Accumulate(result, b, multiplier);
      if b < 128 {
        return pos - start, result;
      }
      multiplier := multiplier * 128;
    }
    return -1, 0;
  }

  /** 128 to the power of the digits. */
  function Capacity(digits: nat): (c: nat)
    ensures c >= 1
  {
    if digits == 0 then 1 else 128 * Capacity(digits - 1)
  }

  lemma {:induction false} LengthRoundTrips(length: nat, suffix: bytes, digits: nat)
    requires 1 <= digits && length < Capacity(digits)
    ensures |RemainingLengthBytes(length)| <= digits
    ensures LengthAt(RemainingLengthBytes(length) + suffix, digits) == Some((length, |RemainingLengthBytes(length)|))
  {
    if length >= 128 {
      CapacityOfOne();
      QuotientFits(length, Capacity(digits - 1));
      LengthRoundTrips(length / 128, suffix, digits - 1);
      LongLengthStarts(length, suffix);
    }
  }

  lemma CapacityOfOne()
    ensures Capacity(1) == 128
  {
    assert Capacity(1) == 128 * Capacity(0);
  }

  lemma QuotientFits(length: nat, capacity: nat)
    requires length < 128 * capacity
    ensures length / 128 < capacity
  {
  }

  /** The first byte of a long length, and what follows it. */
  lemma LongLengthStarts(length: nat, suffix: bytes)
    requires length >= 128
    ensures
      var coded := RemainingLengthBytes(length) + suffix;
      && coded[0] == 128 + length % 128
      && coded[1..] == RemainingLengthBytes(length / 128) + suffix
  {
    FirstOf(length % 128 + 128, RemainingLengthBytes(length / 128), suffix);
  }

  lemma FirstOf(first: byte, rest: bytes, suffix: bytes)
    ensures ([first] + rest + suffix)[0] == first
    ensures ([first] + rest + suffix)[1..] == rest + suffix
  {
  }

  lemma {:induction false} LongLengthsDoNotFit(length: nat, suffix: bytes, digits: nat)
    requires Capacity(digits) <= length
    ensures LengthAt(RemainingLengthBytes(length) + suffix, digits) == None
  {
    if digits > 0 {
      assert length >= 128;
      LongLengthsDoNotFit(length / 128, suffix, digits - 1);
      LongLengthStarts(length, suffix);
    }
  }

  lemma CapacityOfFour()
    ensures Capacity(4) == MAX_REMAINING_LENGTH + 1
  {
    assert Capacity(4) == 128 * Capacity(3) == 128 * (128 * Capacity(2)) == 128 * (128 * (128 * Capacity(1)));
  }

  /** Decoding an encoded length, whatever follows it, gives it back with its
      size - exactly for the lengths that MQTT allows. */
  lemma RemainingLengthRoundTrip(length: nat, suffix: bytes)
    ensures RemainingLength(RemainingLengthBytes(length) + suffix)
            == if length <= MAX_REMAINING_LENGTH then Some((length, |RemainingLengthBytes(length)|)) else None
    ensures length <= MAX_REMAINING_LENGTH <==> |RemainingLengthBytes(length)| <= 4
  {
    CapacityOfFour();
    if length <= MAX_REMAINING_LENGTH {
      LengthRoundTrips(length, suffix, 4);
    } else {
      LongLengthsDoNotFit(length, suffix, 4);
      LongEncodings(length, 4);
    }
  }

  lemma {:induction false} LongEncodings(length: nat, digits: nat)
    requires Capacity(digits) <= length
    ensures |RemainingLengthBytes(length)| > digits
  {
    if digits > 0 {
      LongEncodings(length / 128, digits - 1);
    }
  }

  /** A decoded length is never above the limit, and it consumes at least one byte of the input. */
  lemma {:induction false} DecodedLengthIsBounded(b: bytes, digits: nat)
    requires LengthAt(b, digits).Some?
    ensures 1 <= LengthAt(b, digits).value.1 <= digits && LengthAt(b, digits).value.1 <= |b|
    ensures LengthAt(b, digits).value.0 < Capacity(digits)
  {
    if b[0] >= 128 {
      DecodedLengthIsBounded(b[1..], digits - 1);
    }
  }

  /** Bytes after a complete length do not change it. */
  lemma {:induction false} LengthIgnoresSuffix(b: bytes, suffix: bytes, digits: nat)
    requires LengthAt(b, digits).Some?
    ensures LengthAt(b + suffix, digits) == LengthAt(b, digits)
  {
    if b[0] >= 128 {
      assert (b + suffix)[1..] == b[1..] + suffix;
      LengthIgnoresSuffix(b[1..], suffix, digits - 1);
    }
  }

  /** A length fails on enough bytes only when all of its bytes continue. */
  lemma {:induction false} FailedLength(b: bytes, digits: nat)
    ensures LengthAt(b, digits) == None <==>
            forall i :: 0 <= i < digits && i < |b| ==> b[i] >= 128
  {
    if digits > 0 && b != [] {
      FailedLength(b[1..], digits - 1);
      if b[0] >= 128 {
        assert forall i :: 1 <= i < |b| ==> b[i] == b[1..][i - 1];
        assert forall i :: 0 <= i < |b| - 1 ==> b[1..][i] == b[i + 1];
      }
    }
  }

  // ---------- packets ----------

  function HighByte(n: nat): byte
    requires n < 65536
  {
    n / 256
  }

  function LowByte(n: nat): byte {
    n % 256
  }

  function Word(high: byte, low: byte): (n: nat)
    ensures n < 65536
  {
    high * 256 + low
  }

  /** A string is written with a 16-bit length in front; longer ones get a truncated length. */
  function Utf8String(text: bytes): bytes {
    var length := |text| % 65536;
    [HighByte(length), LowByte(length)] + text
  }

  const PUBLISH_QOS1: byte := 0x32

  function PublishBody(packetId: nat, topic: bytes, payload: bytes): bytes
    requires packetId < 65536
  {
    Utf8String(topic) + [HighByte(packetId), LowByte(packetId)] + payload
  }

  function PacketBytes(header: byte, body: bytes): bytes {
    [header] + RemainingLengthBytes(|body|) + body
  }

  function PublishPacket(packetId: nat, topic: bytes, payload: bytes): bytes
    requires packetId < 65536
  {
    PacketBytes(PUBLISH_QOS1, PublishBody(packetId, topic, payload))
  }

  method BuildPublishPacket(packetId: nat, topic: bytes, payload: bytes) returns (packet: bytes)
    requires packetId < 65536
    ensures packet == PublishPacket(packetId, topic, payload)
  {
    var variableHeader := Utf8String(topic);
    variableHeader := variableHeader + [HighByte(packetId)];
    variableHeader := variableHeader + [LowByte(packetId)];
    var remaining := variableHeader + payload;
    assert remaining == PublishBody(packetId, topic, payload);
    var length := EncodeRemainingLength(|remaining|);
    packet := [PUBLISH_QOS1];
    packet := packet + length;
    packet := packet + remaining;
  }

  // ---------- PUBLISH bodies ----------

  /** What a PUBLISH delivers; `None` is a body that is cut short. */
  datatype Publish = Publish(topic: bytes, payload: bytes, retained: bool, qos: nat, packetId: nat)

  function Qos(header: byte): nat {
    header / 2 % 4
  }

  function ParsePublish(header: byte, body: bytes): Option<Publish> {
    if |body| < 2 then None
    else
      var end := 2 + Word(body[0], body[1]);
      if |body| < end then None
      else if Qos(header) == 0 then Some(Publish(body[2..end], body[end..], header % 2 != 0, 0, 0))
      else if |body| < end + 2 then None
      else Some(Publish(body[2..end], body[end + 2..], header % 2 != 0, Qos(header), Word(body[end], body[end + 1])))
  }

  lemma WordRoundTrip(n: nat)
    requires n < 65536
    ensures Word(HighByte(n), LowByte(n)) == n
  {
  }

  /** What was published is what is parsed - exactly when the topic fits its 16-bit length. */
  lemma PublishRoundTrip(packetId: nat, topic: bytes, payload: bytes)
    requires packetId < 65536
    ensures |topic| < 65536 <==>
            ParsePublish(PUBLISH_QOS1, PublishBody(packetId, topic, payload))
            == Some(Publish(topic, payload, false, 1, packetId))
  {
    if |topic| < 65536 {
      ShortTopicRoundTrip(packetId, topic, payload);
    } else {
      LongTopicIsCut(packetId, topic, payload);
    }
  }

  lemma Qos1Header()
    ensures Qos(PUBLISH_QOS1) == 1 && PUBLISH_QOS1 % 2 == 0
  {
  }

  lemma BodyLayout(packetId: nat, topic: bytes, payload: bytes)
    requires packetId < 65536
    ensures
      var body, end := PublishBody(packetId, topic, payload), 2 + |topic|;
      && |body| == end + 2 + |payload|
      && body[0] == HighByte(|topic| % 65536) && body[1] == LowByte(|topic| % 65536)
      && body[2..end] == topic
      && body[end] == HighByte(packetId) && body[end + 1] == LowByte(packetId)
      && body[end + 2..] == payload
  {
  }

  lemma ShortTopicRoundTrip(packetId: nat, topic: bytes, payload: bytes)
    requires packetId < 65536 && |topic| < 65536
    ensures ParsePublish(PUBLISH_QOS1, PublishBody(packetId, topic, payload))
            == Some(Publish(topic, payload, false, 1, packetId))
  {
    BodyLayout(packetId, topic, payload);
    ShortLength(|topic|);
    WordRoundTrip(packetId);
    LaidOutIsParsed(PublishBody(packetId, topic, payload), packetId, topic, payload);
  }

  lemma ShortLength(length: nat)
    requires length < 65536
    ensures Word(HighByte(length % 65536), LowByte(length % 65536)) == length
  {
    assert length % 65536 == length;
    WordRoundTrip(length);
  }

  lemma LaidOutIsParsed(body: bytes, packetId: nat, topic: bytes, payload: bytes)
    requires
      var end := 2 + |topic|;
      && |body| == end + 2 + |payload|
      && Word(body[0], body[1]) == |topic| && body[2..end] == topic
      && Word(body[end], body[end + 1]) == packetId && body[end + 2..] == payload
    ensures ParsePublish(PUBLISH_QOS1, body) == Some(Publish(topic, payload, false, 1, packetId))
  {
    Qos1Header();
  }

  lemma LongTopicIsCut(packetId: nat, topic: bytes, payload: bytes)
    requires packetId < 65536 && |topic| >= 65536
    ensures ParsePublish(PUBLISH_QOS1, PublishBody(packetId, topic, payload)).Some? ==>
              |ParsePublish(PUBLISH_QOS1, PublishBody(packetId, topic, payload)).value.topic| < |topic|
  {
    BodyLayout(packetId, topic, payload);
    WordRoundTrip(|topic| % 65536);
    Qos1Header();
  }
}
