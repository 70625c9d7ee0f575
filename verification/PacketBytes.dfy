/** The packets of MQTT v3.1.1 byte by byte: what the client reads from them, and what
    it writes. */
module PacketBytes {
  import opened Bytes
  import opened Frames
  import opened ReceivePackets
  import opened Streams
  import opened Framing
  import opened SenderPass
  import opened SendPackets
  import opened PacketObjects
  import D = Deliveries
  import RL = RemainingLength

  // -------------------------------------------------------------------------
  // Reading
  // -------------------------------------------------------------------------

  /** A packet of less than 128 body bytes is one of the expected types, with the flags
      and the length of that type (section 2.2.2 and chapter 3 of MQTT v3.1.1). */
  predicate Expected(first: u8, n: nat) {
    || (first in {0x20, 0x40, 0x50, 0x62, 0x70, 0xB0} && n == 2)
    || (first == 0x90 && n >= 3)
    || (first == 0xD0 && n == 0)
    || (first in {0x30, 0x31, 0x38, 0x39} && n >= 3)
    || (first in {0x32, 0x33, 0x34, 0x35, 0x3A, 0x3B, 0x3C, 0x3D} && n >= 5)
  }

  lemma FirstByte(first: u8)
    ensures first / 0x10 * 0x10 + first % 0x10 == first
    ensures first / 0x10 < 0x10
  {
  }

  lemma ShortWire(first: u8, body: seq<u8>, rest: seq<u8>)
    requires |body| < 0x80
    ensures [first, |body|] + body + rest == Wire(first / 0x10, first % 0x10, body) + rest
  {
    FirstByte(first);
    assert RL.Encode(|body|) == [|body|];
  }

  lemma ExpectedIff(first: u8, n: nat)
    ensures Expected(first, n) <==> Acceptable(first / 0x10, first % 0x10, n)
  {
    FirstByte(first);
  }

  /** Any other packet closes the connection as invalid. */
  lemma OthersAreInvalid(first: u8, body: seq<u8>, rest: seq<u8>, maxTopic: nat)
    requires |body| < 0x80
    ensures !Expected(first, |body|) ==> Next([first, |body|] + body + rest, maxTopic).outcome == Closing(InvalidPacket)
    ensures Expected(first, |body|) ==> FrameOf([first, |body|] + body + rest).Found?
  {
    ShortWire(first, body, rest);
    ExpectedIff(first, |body|);
    FrameOfWire(first / 0x10, first % 0x10, body, rest);
  }

  /** The message in the body of an expected packet. */
  lemma PacketRead(first: u8, body: seq<u8>, rest: seq<u8>, m: Message, maxTopic: nat)
    requires |body| < 0x80 && Acceptable(first / 0x10, first % 0x10, |body|)
    requires Read(first / 0x10, first % 0x10, body, maxTopic) == Reading.Message(m, |body|)
    ensures Next([first, |body|] + body + rest, maxTopic)
            == Poll(Got(Item(first / 0x10, first % 0x10, body, m)), rest)
  {
    hide Read;
    var typ, flags := first / 0x10, first % 0x10;
    ShortWire(first, body, rest);
    FrameOfWire(typ, flags, body, rest);
    Delivered(Wire(typ, flags, body) + rest, FrameOf(Wire(typ, flags, body) + rest), body, maxTopic);
  }

  lemma ConnAckRead(ackFlags: u8, code: u8, rest: seq<u8>, maxTopic: nat)
    ensures Next([0x20, 2, ackFlags, code] + rest, maxTopic)
            == Poll(Got(Item(CONNACK, 0, [ackFlags, code], ConnAck(ackFlags, code))), rest)
  {
    assert [0x20, 2] + [ackFlags, code] == [0x20, 2, ackFlags, code];
    PacketRead(0x20, [ackFlags, code], rest, ConnAck(ackFlags, code), maxTopic);
  }

  lemma PubAckRead(high: u8, low: u8, rest: seq<u8>, maxTopic: nat)
    ensures Next([0x40, 2, high, low] + rest, maxTopic)
            == Poll(Got(Item(PUBACK, 0, [high, low], PubAck(high * 0x100 + low))), rest)
  {
    assert [0x40, 2] + [high, low] == [0x40, 2, high, low];
    PacketRead(0x40, [high, low], rest, PubAck(high * 0x100 + low), maxTopic);
  }

  lemma PubRecRead(high: u8, low: u8, rest: seq<u8>, maxTopic: nat)
    ensures Next([0x50, 2, high, low] + rest, maxTopic)
            == Poll(Got(Item(PUBREC, 0, [high, low], PubRec(high * 0x100 + low))), rest)
  {
    assert [0x50, 2] + [high, low] == [0x50, 2, high, low];
    PacketRead(0x50, [high, low], rest, PubRec(high * 0x100 + low), maxTopic);
  }

  lemma PubRelRead(high: u8, low: u8, rest: seq<u8>, maxTopic: nat)
    ensures Next([0x62, 2, high, low] + rest, maxTopic)
            == Poll(Got(Item(PUBREL, 2, [high, low], PubRel(high * 0x100 + low))), rest)
  {
    assert [0x62, 2] + [high, low] == [0x62, 2, high, low];
    PacketRead(0x62, [high, low], rest, PubRel(high * 0x100 + low), maxTopic);
  }

  lemma PubCompRead(high: u8, low: u8, rest: seq<u8>, maxTopic: nat)
    ensures Next([0x70, 2, high, low] + rest, maxTopic)
            == Poll(Got(Item(PUBCOMP, 0, [high, low], PubComp(high * 0x100 + low))), rest)
  {
    assert [0x70, 2] + [high, low] == [0x70, 2, high, low];
    PacketRead(0x70, [high, low], rest, PubComp(high * 0x100 + low), maxTopic);
  }

  lemma SubAckRead(high: u8, low: u8, code: u8, rest: seq<u8>, maxTopic: nat)
    ensures Next([0x90, 3, high, low, code] + rest, maxTopic)
            == Poll(Got(Item(SUBACK, 0, [high, low, code], SubAck(high * 0x100 + low, code))), rest)
  {
    assert [0x90, 3] + [high, low, code] == [0x90, 3, high, low, code];
    PacketRead(0x90, [high, low, code], rest, SubAck(high * 0x100 + low, code), maxTopic);
  }

  lemma UnsubAckRead(high: u8, low: u8, rest: seq<u8>, maxTopic: nat)
    ensures Next([0xB0, 2, high, low] + rest, maxTopic)
            == Poll(Got(Item(UNSUBACK, 0, [high, low], UnsubAck(high * 0x100 + low))), rest)
  {
    assert [0xB0, 2] + [high, low] == [0xB0, 2, high, low];
    PacketRead(0xB0, [high, low], rest, UnsubAck(high * 0x100 + low), maxTopic);
  }

  lemma PingRespRead(rest: seq<u8>, maxTopic: nat)
    ensures Next([0xD0, 0] + rest, maxTopic) == Poll(Got(Item(PINGRESP, 0, [], PingResp)), rest)
  {
    assert [0xD0, 0] + [] == [0xD0, 0];
    PacketRead(0xD0, [], rest, PingResp, maxTopic);
  }

  // -------------------------------------------------------------------------
  // Writing
  // -------------------------------------------------------------------------

  /** A packet of two body bytes, which are an identifier. */
  function IdPacket(first: u8, id: u16): seq<u8> {
    [first, 2, id / 0x100, id % 0x100]
  }

  lemma IdPacketWire(typ: u4, flags: u4, id: u16)
    ensures Wire(typ, flags, WordBytes(id)) == IdPacket(typ * 0x10 + flags, id)
  {
    assert RL.Encode(2) == [2];
  }

  /** The answers to packets, with their identifier: PUBACK at QoS 1, PUBREC at QoS 2,
      PUBREL to a PUBREC, and PUBCOMP to a PUBREL; nothing else is answered. */
  lemma AnswersOnWire(m: Message, handle: nat)
    requires m.Publish? ==> QoSOf(m.flags) <= 2
    ensures var answer := D.AnswerTo(m, handle);
            if m.Publish? && QoSOf(m.flags) == 1 then |answer| == 1 && OnWire(answer[0]) == IdPacket(0x40, m.id)
            else if m.Publish? && QoSOf(m.flags) == 2 then |answer| == 1 && OnWire(answer[0]) == IdPacket(0x50, m.id)
            else if m.PubRec? then |answer| == 1 && OnWire(answer[0]) == IdPacket(0x62, m.id)
            else if m.PubRel? then |answer| == 1 && OnWire(answer[0]) == IdPacket(0x70, m.id)
            else answer == []
  {
    var answer := D.AnswerTo(m, handle);
    if answer != [] {
      IdPacketWire(answer[0].typ, answer[0].flags, m.id);
    }
  }

  /** A topic filter: its length in two bytes, and its characters. */
  lemma FilterBytes(topic: seq<u8>)
    ensures StringBytes(topic) == [|topic| / 0x100 % 0x100, |topic| % 0x100] + topic
  {
    Truncated(|topic|);
  }

  /** A SUBSCRIBE for one topic filter: identifier, filter, and QoS. */
  lemma SubscribeOnWire(topic: seq<u8>, qos: u8, id: u16)
    ensures Wire(SUBSCRIBE, 2, WordBytes(id) + StringBytes(topic) + [qos])
            == [0x82] + RL.Encode(5 + |topic|)
               + (WordBytes(id) + ([|topic| / 0x100 % 0x100, |topic| % 0x100] + topic) + [qos])
  {
    FilterBytes(topic);
  }

  lemma UnsubscribeOnWire(topic: seq<u8>, id: u16)
    ensures Wire(UNSUBSCRIBE, 2, WordBytes(id) + StringBytes(topic))
            == [0xA2] + RL.Encode(4 + |topic|)
               + (WordBytes(id) + ([|topic| / 0x100 % 0x100, |topic| % 0x100] + topic))
  {
    FilterBytes(topic);
  }

  /** PINGREQ and DISCONNECT. */
  lemma EmptyOnWire()
    ensures Wire(PINGREQ, 0, []) == [0xC0, 0] && Wire(DISCONNECT, 0, []) == [0xE0, 0]
  {
    assert RL.Encode(0) == [0];
  }
}
