/** What `Publish` writes is what `Receiver` of another client reads. */
module PublishRoundTrip {
  import opened Bytes
  import opened Frames
  import opened ReceivePackets
  import opened SendPackets
  import opened Streams
  import opened Framing
  import RL = RemainingLength

  /** The body `Publish` builds: at every QoS it holds a packet identifier. */
  function PublishBody(topic: seq<u8>, id: u16, payload: seq<u8>): seq<u8> {
    StringBytes(topic) + WordBytes(id) + payload
  }

  /** The flags `Publish` sets. */
  function PublishFlags(qos: nat, retain: bool): u4
    requires qos <= 2
  {
    qos * 2 + if retain then FLAG_RETAIN else 0
  }

  /** They are the QoS and the retain flag, without DUP. */
  lemma FlagsOfPublish(qos: nat, retain: bool)
    requires qos <= 2
    ensures var flags := PublishFlags(qos, retain);
            && QoSOf(flags) == qos && RetainOf(flags) == retain && !DupOf(flags)
            && flags == 2 * qos + if retain then 1 else 0
  {
  }

  /** The packet-building part of `Publish`. */
  method Build(maxPacketSize: nat, topic: seq<u8>, payload: seq<u8>, qos: nat, retain: bool, id: u16)
    returns (packet: SendPacket)
    requires maxPacketSize >= 128 && CString(topic) && qos <= 2
    ensures fresh(packet) && fresh(packet.buffer) && packet.Valid() && packet.SameEveryTime()
    ensures packet.typ == PUBLISH && packet.flags == PublishFlags(qos, retain)
    ensures packet.maxPacketSize == maxPacketSize
    ensures packet.handed == [] && packet.sendTries == SEND_TRIES
    ensures packet.error <==> MAX_LENGTH_FIXED_HEADER + |PublishBody(topic, id, payload)| > maxPacketSize
    ensures !packet.error ==> packet.Body() == PublishBody(topic, id, payload)
  {
    packet := new SendPacket(PUBLISH, maxPacketSize);
    packet.SetFlags(PublishFlags(qos, retain));
    packet.AppendString(topic);
    ghost var head := StringBytes(topic) + WordBytes(id);
    packet.AppendWord(id);
    assert packet.error == (MAX_LENGTH_FIXED_HEADER + |head| > maxPacketSize);
    assert !packet.error ==> packet.Body() == head;
    if |payload| > 0 {
      packet.AppendData(payload);
    }
    assert head + payload == PublishBody(topic, id, payload);
    assert packet.handed == [];
  }

  // -------------------------------------------------------------------------
  // Reading it back
  // -------------------------------------------------------------------------

  /** A topic that the receiver can take. */
  predicate Readable(topic: seq<u8>, maxTopic: nat) {
    0 < |topic| <= maxTopic && |topic| < 0x1_0000 && Ascii(topic)
  }

  lemma TopicReadBack(topic: seq<u8>, more: seq<u8>, maxTopic: nat)
    ensures StringOf(StringBytes(topic) + more, maxTopic + 1) == topic <==> topic == [] || Readable(topic, maxTopic)
    ensures Readable(topic, maxTopic) ==> (StringBytes(topic) + more)[2 + |topic|..] == more
  {
    var s, n := StringBytes(topic) + more, |topic| % 0x1_0000;
    assert s == WordBytes(n) + (topic + more);
    WordRoundTrip(n, topic + more);
    assert s[2..2 + n] == topic[..n] by { assert s[2..] == topic + more; }
    assert |topic| < 0x1_0000 <==> n == |topic|;
  }

  /** The message that a PUBLISH of ours turns into at the receiver. */
  function Received(flags: u4, topic: seq<u8>, id: u16, payload: seq<u8>): Message {
    if QoSOf(flags) == 0 then Publish(flags, topic, 0, WordBytes(id) + payload)
    else Publish(flags, topic, id, payload)
  }

  lemma BodyReadBack(flags: u4, topic: seq<u8>, id: u16, payload: seq<u8>, maxTopic: nat)
    requires Readable(topic, maxTopic) && QoSOf(flags) <= 2 && id != 0
    ensures var body := PublishBody(topic, id, payload);
            && Acceptable(PUBLISH, flags, |body|)
            && ReadPublish(flags, body, maxTopic) == Reading.Message(Received(flags, topic, id, payload), |body|)
  {
    var body, more := PublishBody(topic, id, payload), WordBytes(id) + payload;
    assert body == StringBytes(topic) + more;
    TopicReadBack(topic, more, maxTopic);
    WordRoundTrip(id, payload);
  }

  /** The bytes of a PUBLISH followed by anything: the packet is read as it was
      written, and exactly what follows it stays. */
  lemma PublishReadBack(flags: u4, topic: seq<u8>, id: u16, payload: seq<u8>, rest: seq<u8>, maxTopic: nat)
    requires Readable(topic, maxTopic) && QoSOf(flags) <= 2 && id != 0
    requires |PublishBody(topic, id, payload)| < BODY_LIMIT
    ensures var body := PublishBody(topic, id, payload);
            Next(Wire(PUBLISH, flags, body) + rest, maxTopic)
            == Poll(Got(Item(PUBLISH, flags, body, Received(flags, topic, id, payload))), rest)
  {
    var body := PublishBody(topic, id, payload);
    BodyReadBack(flags, topic, id, payload, maxTopic);
    FrameOfWire(PUBLISH, flags, body, rest);
  }

  /** The message is the published one: what the application gets to see of it, and
      above QoS 0 the identifier. */
  predicate Preserves(m: Message, flags: u4, topic: seq<u8>, id: u16, payload: seq<u8>) {
    && m.Publish? && m.topic == topic && m.payload == payload && RetainOf(m.flags) == RetainOf(flags)
    && QoSOf(m.flags) == QoSOf(flags) && (QoSOf(flags) > 0 ==> m.id == id)
  }

  /** Topic, payload, retain flag and QoS, with the identifier, survive exactly at QoS 1
      and 2 and for topics the receiver can take.  At QoS 0 the receiver expects no
      identifier and takes it for the front of the payload. */
  lemma PublishRoundTripIff(flags: u4, topic: seq<u8>, id: u16, payload: seq<u8>, rest: seq<u8>, maxTopic: nat)
    requires CString(topic) && QoSOf(flags) <= 2 && id != 0
    requires |PublishBody(topic, id, payload)| < BODY_LIMIT
    ensures var outcome := Next(Wire(PUBLISH, flags, PublishBody(topic, id, payload)) + rest, maxTopic).outcome;
            outcome.Got? && Preserves(outcome.item.message, flags, topic, id, payload)
            <==> QoSOf(flags) >= 1 && Readable(topic, maxTopic)
  {
    var outcome := Next(Wire(PUBLISH, flags, PublishBody(topic, id, payload)) + rest, maxTopic).outcome;
    if Readable(topic, maxTopic) {
      PublishReadBack(flags, topic, id, payload, rest, maxTopic);
      ReceivedIsPublishedIff(flags, topic, id, payload);
    } else {
      UnreadablePublish(flags, topic, id, payload, rest, maxTopic, outcome);
    }
  }

  lemma ReceivedIsPublishedIff(flags: u4, topic: seq<u8>, id: u16, payload: seq<u8>)
    requires QoSOf(flags) <= 2
    ensures Preserves(Received(flags, topic, id, payload), flags, topic, id, payload) <==> QoSOf(flags) >= 1
  {
    assert |WordBytes(id) + payload| == |payload| + 2;
  }

  lemma UnreadablePublish(flags: u4, topic: seq<u8>, id: u16, payload: seq<u8>, rest: seq<u8>, maxTopic: nat,
                          outcome: Outcome)
    requires CString(topic) && !Readable(topic, maxTopic) && |PublishBody(topic, id, payload)| < BODY_LIMIT
    requires outcome == Next(Wire(PUBLISH, flags, PublishBody(topic, id, payload)) + rest, maxTopic).outcome
    ensures !(outcome.Got? && Preserves(outcome.item.message, flags, topic, id, payload))
  {
    hide Next, ReadPublish, Preserves;
    var body := PublishBody(topic, id, payload);
    FrameOfWire(PUBLISH, flags, body, rest);
    assert body == StringBytes(topic) + (WordBytes(id) + payload);
    TopicReadBack(topic, WordBytes(id) + payload, maxTopic);
    if Acceptable(PUBLISH, flags, |body|) {
      UnreadableTopic(flags, body, topic, id, payload, maxTopic);
      MessageIsRead(Wire(PUBLISH, flags, body) + rest, flags, body, maxTopic, outcome);
    } else {
      NothingFound(Wire(PUBLISH, flags, body) + rest, maxTopic);
    }
  }

  lemma MessageIsRead(s: seq<u8>, flags: u4, body: seq<u8>, maxTopic: nat, outcome: Outcome)
    requires outcome == Next(s, maxTopic).outcome && Acceptable(PUBLISH, flags, |body|)
    requires var f := FrameOf(s);
             f.Found? && f.typ == PUBLISH && f.flags == flags && s[f.header..f.header + f.remaining] == body
    ensures var r := ReadPublish(flags, body, maxTopic);
            outcome.Got? ==> r.Message? && outcome.item.message == r.message
  {
    hide ReadPublish;
    Delivered(s, FrameOf(s), body, maxTopic);
  }

  lemma NothingFound(s: seq<u8>, maxTopic: nat)
    requires FrameOf(s).Malformed?
    ensures !Next(s, maxTopic).outcome.Got?
  {
  }

  /** The message is what `Publish` was called with. */
  predicate AsCalled(m: Message, topic: seq<u8>, payload: seq<u8>, qos: nat, retain: bool) {
    && m.Publish? && m.topic == topic && m.payload == payload
    && QoSOf(m.flags) == qos && RetainOf(m.flags) == retain && !DupOf(m.flags)
  }

  predicate ReadBackWithIff(w: seq<u8>, topic: seq<u8>, payload: seq<u8>, qos: nat, retain: bool,
                            rest: seq<u8>, maxTopic: nat) {
    var outcome := Next(w + rest, maxTopic).outcome;
    outcome.Got? && AsCalled(outcome.item.message, topic, payload, qos, retain)
    <==> qos >= 1 && Readable(topic, maxTopic)
  }

  /** The bytes `w`, followed by anything, are read back as a message with these arguments
      exactly for QoS 1 and 2 and a topic the receiver can take. */
  ghost predicate ReadBackIff(w: seq<u8>, topic: seq<u8>, payload: seq<u8>, qos: nat, retain: bool) {
    forall rest: seq<u8>, maxTopic: nat :: ReadBackWithIff(w, topic, payload, qos, retain, rest, maxTopic)
  }

  /** The round trip in terms of the arguments of `Publish`. */
  lemma CallRoundTripIff(topic: seq<u8>, payload: seq<u8>, qos: nat, retain: bool, id: u16)
    requires CString(topic) && qos <= 2 && id != 0 && |PublishBody(topic, id, payload)| < BODY_LIMIT
    ensures ReadBackIff(Wire(PUBLISH, PublishFlags(qos, retain), PublishBody(topic, id, payload)),
              topic, payload, qos, retain)
  {
    var flags := PublishFlags(qos, retain);
    var w := Wire(PUBLISH, flags, PublishBody(topic, id, payload));
    FlagsOfPublish(qos, retain);
    forall rest: seq<u8>, maxTopic: nat
      ensures ReadBackWithIff(w, topic, payload, qos, retain, rest, maxTopic)
    {
      CallReadBackIff(flags, topic, payload, qos, retain, id, rest, maxTopic);
    }
  }

  lemma CallReadBackIff(flags: u4, topic: seq<u8>, payload: seq<u8>, qos: nat, retain: bool, id: u16,
                        rest: seq<u8>, maxTopic: nat)
    requires CString(topic) && qos <= 2 && id != 0 && |PublishBody(topic, id, payload)| < BODY_LIMIT
    requires QoSOf(flags) == qos && RetainOf(flags) == retain && !DupOf(flags)
    ensures ReadBackWithIff(Wire(PUBLISH, flags, PublishBody(topic, id, payload)), topic, payload, qos, retain,
              rest, maxTopic)
  {
    var outcome := Next(Wire(PUBLISH, flags, PublishBody(topic, id, payload)) + rest, maxTopic).outcome;
    if Readable(topic, maxTopic) {
      PublishReadBack(flags, topic, id, payload, rest, maxTopic);
      assert |WordBytes(id) + payload| == |payload| + 2;
    } else {
      UnreadableCall(flags, topic, payload, id, rest, maxTopic, outcome);
    }
  }

  /** A topic that the receiver cannot take does not come back with the message. */
  lemma UnreadableCall(flags: u4, topic: seq<u8>, payload: seq<u8>, id: u16, rest: seq<u8>, maxTopic: nat,
                       outcome: Outcome)
    requires CString(topic) && !Readable(topic, maxTopic) && |PublishBody(topic, id, payload)| < BODY_LIMIT
    requires outcome == Next(Wire(PUBLISH, flags, PublishBody(topic, id, payload)) + rest, maxTopic).outcome
    ensures outcome.Got? && outcome.item.message.Publish? ==> outcome.item.message.topic != topic
  {
    hide Next, ReadPublish;
    var body := PublishBody(topic, id, payload);
    FrameOfWire(PUBLISH, flags, body, rest);
    assert body == StringBytes(topic) + (WordBytes(id) + payload);
    TopicReadBack(topic, WordBytes(id) + payload, maxTopic);
    if Acceptable(PUBLISH, flags, |body|) {
      TopicTaken(flags, body, maxTopic);
      MessageIsRead(Wire(PUBLISH, flags, body) + rest, flags, body, maxTopic, outcome);
    } else {
      NothingFound(Wire(PUBLISH, flags, body) + rest, maxTopic);
    }
  }

  lemma TopicTaken(flags: u4, body: seq<u8>, maxTopic: nat)
    requires Acceptable(PUBLISH, flags, |body|)
    ensures var r := ReadPublish(flags, body, maxTopic);
            r.Message? ==> r.message.Publish? && r.message.topic == StringOf(body, maxTopic + 1) != []
  {
  }

  /** The bytes that `Publish` hands to the socket: one transmission, whose first byte
      says PUBLISH, the QoS and the retain flag, and which is read back as called. */
  method Published(maxPacketSize: nat, topic: seq<u8>, payload: seq<u8>, qos: nat, retain: bool, id: u16,
                   accepted: bool)
    returns (packet: SendPacket, ok: bool)
    requires 128 <= maxPacketSize < BODY_LIMIT && CString(topic) && qos <= 2 && id != 0
    ensures fresh(packet) && fresh(packet.buffer) && packet.Valid()
    ensures packet.error <==> 5 + 2 + |topic| + 2 + |payload| > maxPacketSize
    ensures packet.error ==> packet.handed == [] && !ok
    ensures !packet.error ==>
              && ok == accepted && |packet.handed| == 1 && packet.handed[0] != []
              && packet.handed[0][0] == 0x30 + 2 * qos + (if retain then 1 else 0)
              && ReadBackIff(packet.handed[0], topic, payload, qos, retain)
  {
    packet := Build(maxPacketSize, topic, payload, qos, retain, id);
    assert |packet.Body()| == packet.bufPtr - 5 <= maxPacketSize;
    ok := packet.Send(accepted);
    if !packet.error {
      FlagsOfPublish(qos, retain);
      CallRoundTripIff(topic, payload, qos, retain, id);
    }
  }

  /** What the application of the receiver gets at QoS 0. */
  lemma IdentifierTakenForPayload(topic: seq<u8>, id: u16, payload: seq<u8>, retain: bool, rest: seq<u8>, maxTopic: nat)
    requires Readable(topic, maxTopic) && id != 0 && |PublishBody(topic, id, payload)| < BODY_LIMIT
    ensures var outcome := Next(Wire(PUBLISH, PublishFlags(0, retain), PublishBody(topic, id, payload)) + rest,
                             maxTopic).outcome;
            && outcome.Got? && outcome.item.message.Publish?
            && outcome.item.message.topic == topic && outcome.item.message.payload == WordBytes(id) + payload
  {
    var flags := PublishFlags(0, retain);
    assert QoSOf(flags) == 0;
    PublishReadBack(flags, topic, id, payload, rest, maxTopic);
    assert Received(flags, topic, id, payload) == Publish(flags, topic, 0, WordBytes(id) + payload);
  }

  lemma UnreadableTopic(flags: u4, body: seq<u8>, topic: seq<u8>, id: u16, payload: seq<u8>, maxTopic: nat)
    requires Acceptable(PUBLISH, flags, |body|) && (topic != [] ==> StringOf(body, maxTopic + 1) != topic)
    ensures var r := ReadPublish(flags, body, maxTopic);
            r.Message? ==> !Preserves(r.message, flags, topic, id, payload)
  {
  }

  /** In any segmentation: whatever run of the receive loop takes in a stream that
      starts with the packet delivers it first, and one that is open with nothing
      complete in the buffer has delivered it. */
  lemma PublishDeliveredInAnySegmentation(flags: u4, topic: seq<u8>, id: u16, payload: seq<u8>, rest: seq<u8>,
                                          room: nat, segments: seq<seq<u8>>, maxTopic: nat)
    requires Readable(topic, maxTopic) && 1 <= QoSOf(flags) <= 2 && id != 0
    requires |PublishBody(topic, id, payload)| < BODY_LIMIT
    requires Concat(segments) == Wire(PUBLISH, flags, PublishBody(topic, id, payload)) + rest
    ensures var run := Run(Client(maxTopic), [], room, segments);
            var item := Item(PUBLISH, flags, PublishBody(topic, id, payload), Publish(flags, topic, id, payload));
            && (run.items != [] ==> run.items[0] == item)
            && (run.end.outcome.Waiting? && Client(maxTopic)(run.end.pending).outcome.Waiting? ==> run.items != [])
  {
    var next := Client(maxTopic);
    ClientIsFramer(maxTopic);
    PublishReadBack(flags, topic, id, payload, rest, maxTopic);
    RunRefinesParser(next, [], room, segments, []);
    var s := Concat(segments);
    assert [] + s + [] == s;
    var run, whole := Run(next, [], room, segments), Parse(next, s);
    var item := Item(PUBLISH, flags, PublishBody(topic, id, payload), Publish(flags, topic, id, payload));
    assert next(s) == Poll(Got(item), rest);
    assert whole.items[0] == item;
    assert run.end.pending + [] == run.end.pending;
  }

  /** If in addition the stream fits, then the packet is delivered. */
  lemma PublishIsDelivered(flags: u4, topic: seq<u8>, id: u16, payload: seq<u8>, rest: seq<u8>,
                           room: nat, segments: seq<seq<u8>>, maxTopic: nat)
    requires Readable(topic, maxTopic) && 1 <= QoSOf(flags) <= 2 && id != 0
    requires |PublishBody(topic, id, payload)| < BODY_LIMIT
    requires Concat(segments) == Wire(PUBLISH, flags, PublishBody(topic, id, payload)) + rest
    requires PacketsFit(Concat(segments), maxTopic, room) && Drained(maxTopic, [], room, segments)
    requires Next(Run(Client(maxTopic), [], room, segments).end.pending, maxTopic).outcome.Waiting?
    ensures var items := Run(Client(maxTopic), [], room, segments).items;
            && items != []
            && items[0] == Item(PUBLISH, flags, PublishBody(topic, id, payload), Publish(flags, topic, id, payload))
  {
    DrainedRunDelivers(segments, maxTopic, room);
    PublishReadBack(flags, topic, id, payload, rest, maxTopic);
    assert Client(maxTopic)(Concat(segments)).pending == rest;
  }
}
