/** Cutting the byte stream into packets, whatever the reads look like. */
module MqttFramer {
  import opened Text
  import opened MqttCodec

  datatype Packet = Packet(header: byte, body: bytes)

  /** The packets cut from a buffer, the bytes left over, and whether the stream is given up. */
  datatype Frames = Frames(packets: seq<Packet>, rest: bytes, abort: bool)

  /** The size of the packet at the front of the buffer, once it is complete. */
  function FrontPacket(buffer: bytes): (size: Option<(nat, nat)>)
    ensures size.Some? ==> 2 <= size.value.0 <= size.value.1 <= |buffer|
  {
    if |buffer| < 2 then None
    else
      match RemainingLength(buffer[1..])
      case None => None
      case Some((remaining, lengthBytes)) =>
        DecodedLengthIsBounded(buffer[1..], 4);
        if |buffer| < 1 + lengthBytes + remaining then None
        else Some((1 + lengthBytes, 1 + lengthBytes + remaining))
  }

  /** A length that still continues after four bytes, seen with a byte to spare. */
  predicate IsMalformed(buffer: bytes) {
    |buffer| > 5 && RemainingLength(buffer[1..]) == None
  }

  function Cut(buffer: bytes): Frames
    decreases |buffer|
  {
    match FrontPacket(buffer)
    case None => Frames([], buffer, IsMalformed(buffer))
    case Some((headerSize, size)) =>
      var tail := Cut(buffer[size..]);
      Frames([Packet(buffer[0], buffer[headerSize..size])] + tail.packets, tail.rest, tail.abort)
  }

  function Prepend(packets: seq<Packet>, frames: Frames): Frames {
    Frames(packets + frames.packets, frames.rest, frames.abort)
  }

  lemma CutOne(packets: seq<Packet>, buffer: bytes, headerSize: nat, size: nat)
    requires FrontPacket(buffer) == Some((headerSize, size))
    ensures Prepend(packets, Cut(buffer))
            == Prepend(packets + [Packet(buffer[0], buffer[headerSize..size])], Cut(buffer[size..]))
  {
    var tail := Cut(buffer[size..]);
    var packet := Packet(buffer[0], buffer[headerSize..size]);
    assert packets + ([packet] + tail.packets) == (packets + [packet]) + tail.packets;
  }

  lemma PrependTwice(a: seq<Packet>, b: seq<Packet>, frames: Frames)
    ensures Prepend(a, Prepend(b, frames)) == Prepend(a + b, frames)
  {
    assert a + (b + frames.packets) == (a + b) + frames.packets;
  }

  lemma PrependNothing(frames: Frames)
    ensures Prepend([], frames) == frames
  {
    assert [] + frames.packets == frames.packets;
  }

  lemma NothingToCut(packets: seq<Packet>, buffer: bytes)
    requires FrontPacket(buffer) == None
    ensures Prepend(packets, Cut(buffer)) == Frames(packets, buffer, IsMalformed(buffer))
  {
    assert packets + [] == packets;
  }

  /** The reading side of the client: a buffer that grows with each read. */
  class Framer {
    var readBuffer: bytes
    var packets: seq<Packet>
    var aborted: bool

    constructor ()
      ensures readBuffer == [] && packets == [] && !aborted
    {
      readBuffer, packets, aborted := [], [], false;
    }

    /** One read of the socket: append, then cut as many packets as are complete. */
    method OnReadyRead(chunk: bytes)
      modifies this
      ensures
        var frames := Cut(old(readBuffer) + chunk);
        packets == old(packets) + frames.packets && readBuffer == frames.rest
        && aborted == (old(aborted) || frames.abort)
    {
      readBuffer := readBuffer + chunk;
      ghost var whole := Prepend(packets, Cut(readBuffer));
      var more := true;
      while more
        invariant more ==> Prepend(packets, Cut(readBuffer)) == whole && aborted == old(aborted)
        invariant !more ==> packets == whole.packets && readBuffer == whole.rest
                            && aborted == (old(aborted) || whole.abort)
        decreases |readBuffer|, more
      {
        ghost var before, cut := readBuffer, packets;
        more := CutFront();
        if more {
          CutOne(cut, before, FrontPacket(before).value.0, FrontPacket(before).value.1);
        } else {
          NothingToCut(cut, before);
        }
      }
    }

    /** The body of that loop: the packet at the front, if it is complete. */
    method CutFront() returns (more: bool)
      modifies this
      ensures more <==> FrontPacket(old(readBuffer)).Some?
      ensures more ==>
                var (headerSize, size) := FrontPacket(old(readBuffer)).value;
                && packets == old(packets) + [Packet(old(readBuffer)[0], old(readBuffer)[headerSize..size])]
                && readBuffer == old(readBuffer)[size..] && aborted == old(aborted)
      ensures !more ==> packets == old(packets) && readBuffer == old(readBuffer)
                        && aborted == (old(aborted) || IsMalformed(readBuffer))
    {
      if |readBuffer| < 2 {
        return false;
      }
      var lengthBytes, remaining := DecodeRemainingLength(readBuffer, 1);
      if lengthBytes < 0 {
        if |readBuffer| > 5 {
          aborted := true;
        }
        return false;
      }
      DecodedLengthIsBounded(readBuffer[1..], 4);
      var headerSize: nat := 1 + lengthBytes;
      if |readBuffer| < headerSize + remaining {
        return false;
      }
      var size := headerSize + remaining;
      var packet := Packet(readBuffer[0], readBuffer[headerSize..size]);
      readBuffer := readBuffer[size..];
      packets := packets + [packet];
      return true;
    }
  }

  // ---------- chunk independence ----------

  lemma FrontIgnoresSuffix(buffer: bytes, more: bytes)
    requires FrontPacket(buffer).Some?
    ensures FrontPacket(buffer + more) == FrontPacket(buffer)
  {
    assert (buffer + more)[1..] == buffer[1..] + more;
    LengthIgnoresSuffix(buffer[1..], more, 4);
  }

  lemma MalformedStaysMalformed(buffer: bytes, more: bytes)
    requires IsMalformed(buffer)
    ensures FrontPacket(buffer + more) == None && IsMalformed(buffer + more)
  {
    assert (buffer + more)[1..] == buffer[1..] + more;
    FailedLength(buffer[1..], 4);
    FailedLength(buffer[1..] + more, 4);
  }

  /** Two reads: the packets of both, the rest of the second. */
  function Then(first: Frames, second: Frames): Frames {
    Frames(first.packets + second.packets, second.rest, first.abort || second.abort)
  }

  lemma PrependThen(packets: seq<Packet>, first: Frames, second: Frames)
    ensures Then(Prepend(packets, first), second) == Prepend(packets, Then(first, second))
  {
    assert (packets + first.packets) + second.packets == packets + (first.packets + second.packets);
  }

  /** Reading some bytes and then more is reading them at once. */
  lemma {:induction false} CutInTwo(buffer: bytes, more: bytes)
    ensures Cut(buffer + more) == Then(Cut(buffer), Cut(Cut(buffer).rest + more))
    decreases |buffer|
  {
    match FrontPacket(buffer)
    case None =>
      if IsMalformed(buffer) {
        MalformedStaysMalformed(buffer, more);
      }
      PrependNothing(Cut(buffer + more));
    case Some((headerSize, size)) =>
      var tail := Cut(buffer[size..]);
      CutInTwo(buffer[size..], more);
      CutOneOfMore(buffer, more, headerSize, size, tail, Cut(tail.rest + more));
  }

  lemma CutFirst(buffer: bytes, headerSize: nat, size: nat)
    requires FrontPacket(buffer) == Some((headerSize, size))
    ensures Cut(buffer) == Prepend([Packet(buffer[0], buffer[headerSize..size])], Cut(buffer[size..]))
  {
  }

  lemma SlicesOfMore(buffer: bytes, more: bytes, headerSize: nat, size: nat)
    requires headerSize <= size <= |buffer|
    ensures (buffer + more)[size..] == buffer[size..] + more
    ensures (buffer + more)[headerSize..size] == buffer[headerSize..size]
  {
  }

  lemma CutFirstOfMore(buffer: bytes, more: bytes, headerSize: nat, size: nat, both: bytes)
    requires FrontPacket(buffer) == Some((headerSize, size)) && both == buffer + more
    ensures Cut(both) == Prepend([Packet(buffer[0], buffer[headerSize..size])], Cut(buffer[size..] + more))
  {
    FrontIgnoresSuffix(buffer, more);
    SlicesOfMore(buffer, more, headerSize, size);
    CutFirst(both, headerSize, size);
  }

  lemma CutOneOfMore(buffer: bytes, more: bytes, headerSize: nat, size: nat, tail: Frames, second: Frames)
    requires FrontPacket(buffer) == Some((headerSize, size))
    requires Cut(buffer[size..]) == tail && Cut(buffer[size..] + more) == Then(tail, second)
    ensures Cut(buffer).rest == tail.rest
    ensures Cut(buffer + more) == Then(Cut(buffer), second)
  {
    CutFirst(buffer, headerSize, size);
    CutFirstOfMore(buffer, more, headerSize, size, buffer + more);
    PrependThen([Packet(buffer[0], buffer[headerSize..size])], tail, second);
  }

  /** The framer after a sequence of reads. */
  function ReadAll(chunks: seq<bytes>): Frames {
    if chunks == [] then Frames([], [], false)
    else
      var before := ReadAll(chunks[..|chunks| - 1]);
      Then(before, Cut(before.rest + chunks[|chunks| - 1]))
  }

  function Concat(chunks: seq<bytes>): bytes {
    if chunks == [] then [] else Concat(chunks[..|chunks| - 1]) + chunks[|chunks| - 1]
  }

  /** However the stream is split into reads, the packets, the rest and the abort
      decision are those of one read of the whole stream. */
  lemma {:induction false} ChunkIndependence(chunks: seq<bytes>)
    ensures ReadAll(chunks) == Cut(Concat(chunks))
  {
    if chunks != [] {
      ChunkIndependence(chunks[..|chunks| - 1]);
      CutInTwo(Concat(chunks[..|chunks| - 1]), chunks[|chunks| - 1]);
    }
  }

  // ---------- what the framer delivers ----------

  function Wire(packets: seq<Packet>): bytes {
    if packets == [] then [] else PacketBytes(packets[0].header, packets[0].body) + Wire(packets[1..])
  }

  predicate FitsWire(p: Packet) {
    |p.body| <= MAX_REMAINING_LENGTH
  }

  lemma FrontOfWire(p: Packet, more: bytes)
    requires FitsWire(p)
    ensures
      var headerSize := 1 + |RemainingLengthBytes(|p.body|)|;
      FrontPacket(PacketBytes(p.header, p.body) + more) == Some((headerSize, headerSize + |p.body|))
  {
    var length := RemainingLengthBytes(|p.body|);
    var buffer := PacketBytes(p.header, p.body) + more;
    assert buffer[1..] == length + (p.body + more);
    RemainingLengthRoundTrip(|p.body|, p.body + more);
  }

  /** A stream of packets is cut into exactly those packets, and what follows is cut on its own. */
  lemma {:induction false} WireIsCutBack(packets: seq<Packet>, more: bytes)
    requires forall p <- packets :: FitsWire(p)
    ensures Cut(Wire(packets) + more) == Prepend(packets, Cut(more))
  {
    if packets == [] {
      assert Wire(packets) + more == more;
      PrependNothing(Cut(more));
    } else {
      var rest := Wire(packets[1..]) + more;
      assert Wire(packets) + more == PacketBytes(packets[0].header, packets[0].body) + rest;
      FrontPacketIsCut(packets[0], rest);
      WireIsCutBack(packets[1..], more);
      PrependTwice([packets[0]], packets[1..], Cut(more));
      assert [packets[0]] + packets[1..] == packets;
    }
  }

  lemma FrontPacketIsCut(p: Packet, rest: bytes)
    requires FitsWire(p)
    ensures Cut(PacketBytes(p.header, p.body) + rest) == Prepend([p], Cut(rest))
  {
    var buffer := PacketBytes(p.header, p.body) + rest;
    var headerSize := 1 + |RemainingLengthBytes(|p.body|)|;
    FrontOfWire(p, rest);
    CutOne([], buffer, headerSize, headerSize + |p.body|);
    PrependNothing(Cut(buffer));
    assert buffer[headerSize..headerSize + |p.body|] == p.body;
    assert buffer[headerSize + |p.body|..] == rest;
    assert [] + [p] == [p];
  }

  /** A buffer counts as malformed exactly when its length field is four continuation bytes and
      at least one more byte has arrived; a short header is never enough. */
  lemma AbortMeansMalformed(buffer: bytes)
    ensures IsMalformed(buffer) <==> |buffer| > 5 && forall i :: 1 <= i <= 4 ==> buffer[i] >= 128
  {
    if |buffer| > 5 {
      FailedLength(buffer[1..], 4);
      assert forall i :: 1 <= i < |buffer| ==> buffer[i] == buffer[1..][i - 1];
      assert forall i :: 0 <= i < 4 ==> buffer[1..][i] == buffer[i + 1];
    }
  }

  /** The abort decision is about what is left over once no packet is complete. */
  lemma {:induction false} AbortIsAboutTheRest(buffer: bytes)
    ensures FrontPacket(Cut(buffer).rest) == None
    ensures Cut(buffer).abort <==> IsMalformed(Cut(buffer).rest)
    decreases |buffer|
  {
    match FrontPacket(buffer)
    case None =>
    case Some((_, size)) => AbortIsAboutTheRest(buffer[size..]);
  }

  /** Sending a PUBLISH and reading it back recovers everything - exactly when the
      topic fits its 16-bit length - provided the body fits the wire. */
  lemma PublishSurvivesTheWire(packetId: nat, topic: bytes, payload: bytes)
    requires packetId < 65536 && |PublishBody(packetId, topic, payload)| <= MAX_REMAINING_LENGTH
    ensures
      var frames := Cut(PublishPacket(packetId, topic, payload));
      && |frames.packets| == 1 && frames.rest == [] && !frames.abort
      && (|topic| < 65536 <==>
            ParsePublish(frames.packets[0].header, frames.packets[0].body)
            == Some(Publish(topic, payload, false, 1, packetId)))
  {
    var p := Packet(PUBLISH_QOS1, PublishBody(packetId, topic, payload));
    assert PublishPacket(packetId, topic, payload) == PacketBytes(p.header, p.body);
    assert Wire([p]) + [] == PacketBytes(p.header, p.body);
    WireIsCutBack([p], []);
    PublishRoundTrip(packetId, topic, payload);
  }

  /** A PUBLISH that is too long for the wire is given up by a receiver that frames like this one. */
  lemma OversizedPublishAborts(packetId: nat, topic: bytes, payload: bytes)
    requires packetId < 65536 && |PublishBody(packetId, topic, payload)| > MAX_REMAINING_LENGTH
    ensures Cut(PublishPacket(packetId, topic, payload)).abort
    ensures Cut(PublishPacket(packetId, topic, payload)).packets == []
  {
    var body := PublishBody(packetId, topic, payload);
    var packet := PublishPacket(packetId, topic, payload);
    assert packet[1..] == RemainingLengthBytes(|body|) + body;
    RemainingLengthRoundTrip(|body|, body);
  }
}
