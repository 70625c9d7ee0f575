/** From the bytes of a packet to what it does to the client. */
module PacketEffects {
  import opened Bytes
  import opened Frames
  import opened Ticks
  import opened RetransmissionQueue
  import opened SendPackets
  import opened ReceivePackets
  import opened ClientStatus
  import opened SenderPass
  import opened PacketBytes
  import opened Deliveries
  import opened MqttClients
  import Q = QoS2
  import Streams
  import Framing
  import Writer = PublishRoundTrip

  /** The number of a reason to refuse a connection (section 3.2.2.3 of MQTT v3.1.1),
      and 0 for any other reason. */
  function NumberOf(reason: Reason): nat {
    match reason
    case UnacceptableProtocolVersion => 1
    case IdentifierRejected => 2
    case ServerUnavailable => 3
    case BadUsernameOrPassword => 4
    case NotAuthorized => 5
    case _ => 0
  }

  /** A client that waits for a packet, of which nothing has come yet. */
  ghost predicate Idle(client: MqttClient)
    reads client, client.rx, client.rx.buffer
  {
    client.Valid() && client.status != Disconnected && client.rx.Pending() == []
  }

  /** A packet comes, with more behind it, and its message is handled. */
  method Arrives(client: MqttClient, bytes: seq<u8>, rest: seq<u8>, ghost item: Streams.Item)
    requires Idle(client) && |bytes + rest| <= client.rx.frameSize
    requires Framing.Next(bytes + rest, client.maxTopic) == Streams.Poll(Streams.Got(item), rest)
    modifies client, client.rx, client.rx.buffer
    ensures client.Valid() && client.rx.Pending() == rest && client.Handled(item.message)
  {
    hide Framing.Next;
    assert [] + (bytes + rest) == bytes + rest;
    var _ := client.PollAndHandle(Chunk.Bytes(bytes + rest));
  }

  /** Nothing of the client that a packet can change is changed but its end. */
  twostate predicate Closed(client: MqttClient, reason: Reason)
    reads client
  {
    && client.status == Disconnected && client.wire == old(client.wire)
    && client.events == old(client.events) + [OnDisconnect(reason)]
  }

  /** CONNACK connects exactly a client that waits for it, with return code 0, and says
      whether a session was present; codes 1 to 5 are the reasons of that number. */
  method ConnAckArrives(client: MqttClient, ackFlags: u8, code: u8, rest: seq<u8>)
    requires Idle(client) && 4 + |rest| <= client.rx.frameSize
    modifies client, client.rx, client.rx.buffer
    ensures client.Valid() && client.rx.Pending() == rest
    ensures if old(client.status) == ConnectPending && code == 0 then
              && client.status == Connected && client.wire == old(client.wire) && client.store == old(client.store)
              && client.queue == old(client.queue)
              && client.events == old(client.events) + [OnConnect(ackFlags % 2 == 1)]
            else if old(client.status) != ConnectPending then
              Closed(client, InvalidPacket)
            else
              exists reason :: && Closed(client, reason)
                               && if code > 5 then reason == Unknown else NumberOf(reason) == code
  {
    ConnAckRead(ackFlags, code, rest, client.maxTopic);
    Arrives(client, [0x20, 2, ackFlags, code], rest,
      Streams.Item(CONNACK, 0, [ackFlags, code], ConnAck(ackFlags, code)));
    if old(client.status) == ConnectPending && code != 0 {
      assert Closed(client, RefusalReason(code));
    }
  }

  /** The packet with identifier `id` that is first in the queue is at `k`, or there is
      none and `k` is the end. */
  predicate FirstWith(q: seq<Packet>, id: u16, k: nat) {
    && k <= |q| && (k < |q| ==> q[k].id == id)
    && forall i :: 0 <= i < k ==> q[i].id != id
  }

  lemma FirstIsFound(q: seq<Packet>, id: u16, k: nat)
    requires FirstWith(q, id, k)
    ensures Find(q, id) == k
  {
  }

  /** Only the `k`th packet has gone, with its time. */
  twostate predicate Gone(client: MqttClient, k: nat)
    requires k < |old(client.queue)| == |old(client.due)|
    reads client
  {
    && client.status == old(client.status) && client.wire == old(client.wire)
    && client.store == old(client.store) && client.events == old(client.events)
    && (client.queue, client.due) == (RemoveAt(old(client.queue), k), RemoveAt(old(client.due), k))
  }

  /** The last answers to packets of the client, by the first byte: PUBACK, PUBCOMP and
      UNSUBACK. */
  predicate ShortAnswer(first: u8) {
    first in {0x40, 0x70, 0xB0}
  }

  /** PUBACK or UNSUBACK for a packet queued at QoS 1, and PUBCOMP for one queued at
      QoS 2, takes it out of the queue; otherwise the connection is closed. */
  method AnswerArrives(client: MqttClient, first: u8, high: u8, low: u8, rest: seq<u8>, ghost k: nat)
    requires Idle(client) && 4 + |rest| <= client.rx.frameSize && ShortAnswer(first)
    requires FirstWith(client.queue, high * 0x100 + low, k)
    modifies client, client.rx, client.rx.buffer
    ensures client.Valid() && client.rx.Pending() == rest && |old(client.queue)| == |old(client.due)|
    ensures if k < |old(client.queue)| && old(client.queue)[k].qos == (if first == 0x70 then 2 else 1) then
              Gone(client, k)
            else
              Closed(client, PacketIdentifier)
  {
    ghost var id := high * 0x100 + low;
    ghost var qos := if first == 0x70 then 2 else 1;
    FirstIsFound(client.queue, id, k);
    ghost var item := ShortAnswerRead(first, high, low, rest, client.maxTopic);
    Arrives(client, [first, 2, high, low], rest, item);
    hide Answers, RefusalOf, AnswerTo, AppAfter, QueueAfter, FirstWith, Keys, RemoveAt;
    AnswerTaken(old(client.status), old(client.queue), k, old(client.store), old(client.events), item.message, id, qos);
    assert old(client.wire) + [] == old(client.wire);
  }

  lemma ShortAnswerRead(first: u8, high: u8, low: u8, rest: seq<u8>, maxTopic: nat) returns (item: Streams.Item)
    requires ShortAnswer(first)
    ensures Framing.Next([first, 2, high, low] + rest, maxTopic) == Streams.Poll(Streams.Got(item), rest)
    ensures item.message == if first == 0x40 then PubAck(high * 0x100 + low)
                            else if first == 0x70 then PubComp(high * 0x100 + low)
                            else UnsubAck(high * 0x100 + low)
    ensures Answers(item.message, high * 0x100 + low, if first == 0x70 then 2 else 1)
  {
    hide Framing.Next;
    PubAckRead(high, low, rest, maxTopic);
    PubCompRead(high, low, rest, maxTopic);
    UnsubAckRead(high, low, rest, maxTopic);
    item := Framing.Next([first, 2, high, low] + rest, maxTopic).outcome.item;
  }

  /** SUBACK likewise, if its return code is one of the QoS levels. */
  method SubAckArrives(client: MqttClient, high: u8, low: u8, code: u8, rest: seq<u8>, ghost k: nat)
    requires Idle(client) && 5 + |rest| <= client.rx.frameSize
    requires FirstWith(client.queue, high * 0x100 + low, k)
    modifies client, client.rx, client.rx.buffer
    ensures client.Valid() && client.rx.Pending() == rest && |old(client.queue)| == |old(client.due)|
    ensures if code > 2 then Closed(client, SubscribeError)
            else if k < |old(client.queue)| && old(client.queue)[k].qos == 1 then Gone(client, k)
            else Closed(client, PacketIdentifier)
  {
    ghost var id := high * 0x100 + low;
    FirstIsFound(client.queue, id, k);
    SubAckRead(high, low, code, rest, client.maxTopic);
    Arrives(client, [0x90, 3, high, low, code], rest,
      Streams.Item(SUBACK, 0, [high, low, code], SubAck(id, code)));
    assert old(client.wire) + [] == old(client.wire) && old(client.events) + [] == old(client.events);
  }

  /** PUBREL is answered with PUBCOMP, or sending that fails; identifier 0 is invalid. */
  method PubRelArrives(client: MqttClient, high: u8, low: u8, rest: seq<u8>)
    requires Idle(client) && 4 + |rest| <= client.rx.frameSize
    modifies client, client.rx, client.rx.buffer
    ensures client.Valid() && client.rx.Pending() == rest
    ensures high == low == 0 ==> Closed(client, InvalidPacket)
    ensures high != 0 || low != 0 ==>
              && client.wire == old(client.wire) + [Transmission(0, 7, 0, [high, low])]
              && if client.status != Disconnected then
                   && client.status == old(client.status) && client.events == old(client.events)
                   && client.store == Q.Forgotten(old(client.store), high * 0x100 + low)
                 else client.events == old(client.events) + [OnDisconnect(SendFailed)]
  {
    PubRelRead(high, low, rest, client.maxTopic);
    Arrives(client, [0x62, 2, high, low], rest,
      Streams.Item(PUBREL, 2, [high, low], PubRel(high * 0x100 + low)));
    assert WordBytes(high * 0x100 + low) == [high, low];
    assert old(client.events) + [] == old(client.events);
  }

  /** PINGRESP connects, and restarts the keep-alive timer from now. */
  method PingRespArrives(client: MqttClient, rest: seq<u8>)
    requires Idle(client) && 2 + |rest| <= client.rx.frameSize
    modifies client, client.rx, client.rx.buffer
    ensures client.Valid() && client.rx.Pending() == rest
    ensures client.status == Connected && client.wire == old(client.wire) && client.events == old(client.events)
    ensures client.queue == old(client.queue) && client.store == old(client.store)
    ensures client.keepAlive > 0 ==>
              && client.timerRunning
              && client.timerElapsesAt == (client.now + client.keepAlive * client.hz) % 0x1_0000_0000
  {
    PingRespRead(rest, client.maxTopic);
    Arrives(client, [0xD0, 0], rest, Streams.Item(PINGRESP, 0, [], PingResp));
    assert old(client.wire) + [] == old(client.wire) && old(client.events) + [] == old(client.events);
  }

  /** The bytes of a publication, sent first or again. */
  function Publication(flags: u4, topic: seq<u8>, id: u16, payload: seq<u8>): seq<u8> {
    Wire(3, flags, Writer.PublishBody(topic, id, payload))
  }

  /** What a publication with these arguments leaves behind: at QoS 1 it is answered with
      PUBACK, at QoS 2 with PUBREC; the application gets it, unless its exchange at QoS 2 is
      already open; or sending the answer fails. */
  twostate predicate Delivered(client: MqttClient, topic: seq<u8>, payload: seq<u8>, qos: nat, retain: bool, id: u16)
    reads client
  {
    && client.wire
       == old(client.wire) + [Transmission(0, if qos == 1 then 4 else 5, 0, [id / 0x100, id % 0x100])]
    && if client.status == Disconnected then client.events == old(client.events) + [OnDisconnect(SendFailed)]
       else
         && client.status == old(client.status) && client.queue == old(client.queue)
         && client.store == (if qos == 2 && id !in old(client.store) then [id] else []) + old(client.store)
         && client.events == old(client.events)
            + if qos == 2 && id in old(client.store) then [] else [OnMessage(topic, payload, retain)]
  }

  method PublicationArrives(client: MqttClient, flags: u4, topic: seq<u8>, id: u16, payload: seq<u8>, rest: seq<u8>)
    requires Idle(client) && Writer.Readable(topic, client.maxTopic) && id != 0 && 1 <= QoSOf(flags) <= 2
    requires |Writer.PublishBody(topic, id, payload)| < BODY_LIMIT
    requires |Publication(flags, topic, id, payload) + rest| <= client.rx.frameSize
    modifies client, client.rx, client.rx.buffer
    ensures client.Valid() && client.rx.Pending() == rest
    ensures Delivered(client, topic, payload, QoSOf(flags), RetainOf(flags), id)
  {
    ghost var item := Streams.Item(PUBLISH, flags, Writer.PublishBody(topic, id, payload),
      Message.Publish(flags, topic, id, payload));
    Writer.PublishReadBack(flags, topic, id, payload, rest, client.maxTopic);
    Arrives(client, Publication(flags, topic, id, payload), rest, item);
    IdentifierBytes(id);
    assert [] + old(client.store) == old(client.store);
  }

  /** A publication at QoS 0. */
  lemma MessageRead(flags: u4, topic: seq<u8>, payload: seq<u8>, rest: seq<u8>, maxTopic: nat)
    requires Writer.Readable(topic, maxTopic) && QoSOf(flags) == 0
    requires 2 + |topic| + |payload| < BODY_LIMIT
    ensures var body := StringBytes(topic) + payload;
            var item := Streams.Item(PUBLISH, flags, body, Message.Publish(flags, topic, 0, payload));
            Framing.Next(Wire(3, flags, body) + rest, maxTopic) == Streams.Poll(Streams.Got(item), rest)
  {
    var body := StringBytes(topic) + payload;
    Writer.TopicReadBack(topic, payload, maxTopic);
    FrameOfWire(PUBLISH, flags, body, rest);
  }

  /** It goes to the application as it is, without an answer. */
  method MessageArrives(client: MqttClient, flags: u4, topic: seq<u8>, payload: seq<u8>, rest: seq<u8>)
    requires Idle(client) && Writer.Readable(topic, client.maxTopic) && QoSOf(flags) == 0
    requires 2 + |topic| + |payload| < BODY_LIMIT
    requires |Wire(3, flags, StringBytes(topic) + payload) + rest| <= client.rx.frameSize
    modifies client, client.rx, client.rx.buffer
    ensures client.Valid() && client.rx.Pending() == rest
    ensures client.status == old(client.status) && client.wire == old(client.wire)
    ensures client.queue == old(client.queue) && client.store == old(client.store)
    ensures client.events == old(client.events) + [OnMessage(topic, payload, RetainOf(flags))]
  {
    MessageRead(flags, topic, payload, rest, client.maxTopic);
    Arrives(client, Wire(3, flags, StringBytes(topic) + payload), rest,
      Streams.Item(PUBLISH, flags, StringBytes(topic) + payload, Message.Publish(flags, topic, 0, payload)));
    assert old(client.wire) + [] == old(client.wire);
  }

  // -------------------------------------------------------------------------
  // What closes the connection
  // -------------------------------------------------------------------------

  /** The connection is closed and the application told so. */
  twostate predicate ClosedFor(client: MqttClient, reason: Reason)
    reads client
  {
    client.status == Disconnected && client.events == old(client.events) + [OnDisconnect(reason)]
  }

  /** A packet that is not expected, by its first byte and its length. */
  method OtherPacketArrives(client: MqttClient, first: u8, body: seq<u8>, rest: seq<u8>)
    requires Idle(client) && |body| < 0x80 && 2 + |body| + |rest| <= client.rx.frameSize
    requires !Expected(first, |body|)
    modifies client, client.rx, client.rx.buffer
    ensures client.Valid() && ClosedFor(client, InvalidPacket)
  {
    OthersAreInvalid(first, body, rest, client.maxTopic);
    ArrivesAndCloses(client, [first, |body|] + body + rest, Streams.InvalidPacket);
  }

  /** A topic that is too long for the buffer, or not ASCII, or empty. */
  predicate Unreadable(topic: seq<u8>, maxTopic: nat) {
    CString(topic) && |topic| < 0x1_0000 && !Writer.Readable(topic, maxTopic)
  }

  lemma TopicNotTaken(topic: seq<u8>, more: seq<u8>, maxTopic: nat)
    requires Unreadable(topic, maxTopic)
    ensures StringOf(StringBytes(topic) + more, maxTopic + 1) == []
  {
    Writer.TopicReadBack(topic, more, maxTopic);
    WordRoundTrip(|topic|, topic + more);
    assert StringBytes(topic) + more == WordBytes(|topic|) + (topic + more);
    assert (StringBytes(topic) + more)[2..2 + |topic|] == topic;
  }

  lemma TopicRefused(flags: u4, topic: seq<u8>, more: seq<u8>, rest: seq<u8>, maxTopic: nat)
    requires Unreadable(topic, maxTopic) && QoSOf(flags) <= 2 && |topic| + |more| >= 3
    requires 2 + |topic| + |more| < BODY_LIMIT
    ensures Framing.Next(Wire(3, flags, StringBytes(topic) + more) + rest, maxTopic).outcome
            == Streams.Closing(Streams.TopicNotSupported)
  {
    var body := StringBytes(topic) + more;
    var s := Wire(3, flags, body) + rest;
    TopicNotTaken(topic, more, maxTopic);
    hide StringOf, StringBytes, Unreadable;
    assert ReadPublish(flags, body, maxTopic) == Reading.NotSupported;
    hide ReadPublish;
    FrameOfWire(PUBLISH, flags, body, rest);
    Framing.Delivered(s, FrameOf(s), body, maxTopic);
  }

  /** A publication with such a topic. */
  method OtherTopicArrives(client: MqttClient, flags: u4, topic: seq<u8>, more: seq<u8>, rest: seq<u8>)
    requires Idle(client) && Unreadable(topic, client.maxTopic)
    requires QoSOf(flags) <= 2 && |topic| + |more| >= 3 && 2 + |topic| + |more| < BODY_LIMIT
    requires |Wire(3, flags, StringBytes(topic) + more) + rest| <= client.rx.frameSize
    modifies client, client.rx, client.rx.buffer
    ensures client.Valid() && ClosedFor(client, Reason.NotSupported)
  {
    TopicRefused(flags, topic, more, rest, client.maxTopic);
    hide StringBytes, Wire, Unreadable;
    ArrivesAndCloses(client, Wire(3, flags, StringBytes(topic) + more) + rest, Streams.TopicNotSupported);
  }

  method ArrivesAndCloses(client: MqttClient, bytes: seq<u8>, ghost reason: Streams.Reason)
    requires Idle(client) && |bytes| <= client.rx.frameSize
    requires Framing.Next(bytes, client.maxTopic).outcome == Streams.Closing(reason)
    modifies client, client.rx, client.rx.buffer
    ensures client.Valid() && ClosedFor(client, ReasonOf(reason))
  {
    hide Framing.Next;
    assert [] + bytes == bytes;
    var _ := client.PollAndHandle(Chunk.Bytes(bytes));
  }

  /** An error of the socket, and a buffer without room for another segment. */
  method SocketFails(client: MqttClient)
    requires client.Valid() && client.status != Disconnected
    modifies client, client.rx, client.rx.buffer
    ensures client.Valid()
    ensures ClosedFor(client,
              if |old(client.rx.Pending())| + client.rx.frameSize > client.rx.bufferSize then InsufficientResources
              else FromPeer)
  {
    var _ := client.PollAndHandle(SocketError);
  }

  /** The answer to a queued packet, with the identifier as it was written, and a return
      code of the QoS for a SUBSCRIBE. */
  function AnswerBytes(p: Packet, code: u8): seq<u8> {
    var high, low := p.id / 0x100, p.id % 0x100;
    if p.typ == PUBLISH then [0x40, 2, high, low]
    else if p.typ == SUBSCRIBE then [0x90, 3, high, low, code]
    else if p.typ == UNSUBSCRIBE then [0xB0, 2, high, low]
    else [0x70, 2, high, low]
  }

  lemma IdentifierBytes(id: u16)
    ensures id / 0x100 * 0x100 + id % 0x100 == id
    ensures WordBytes(id) == [id / 0x100, id % 0x100]
  {
  }

  lemma QueuedAsRight(client: MqttClient, k: nat)
    requires Idle(client) && k < |client.queue|
    ensures var p := client.queue[k];
            && (p.qos == 1 || p.qos == 2)
            && (p.typ == PUBLISH || p.typ == SUBSCRIBE || p.typ == UNSUBSCRIBE || p.typ == PUBREL)
            && (p.typ == PUBREL ==> p.qos == 2) && (p.typ == SUBSCRIBE || p.typ == UNSUBSCRIBE ==> p.qos == 1)
  {
    assert client.queue[k] in client.queue;
  }

  /** When the answer to a packet of the queue comes, the packet is done: PUBACK for a
      PUBLISH at QoS 1, SUBACK with code 0 to 2, UNSUBACK, and PUBCOMP for a PUBREL. */
  method QueuedIsAnswered(client: MqttClient, k: nat, code: u8, rest: seq<u8>)
    requires Idle(client) && 5 + |rest| <= client.rx.frameSize && code <= 2
    requires k < |client.queue| && FirstWith(client.queue, client.queue[k].id, k)
    requires client.queue[k].typ == PUBLISH ==> client.queue[k].qos == 1
    modifies client, client.rx, client.rx.buffer
    ensures client.Valid() && client.rx.Pending() == rest
    ensures |old(client.queue)| == |old(client.due)| && Gone(client, k)
  {
    var p := client.queue[k];
    var high, low := p.id / 0x100, p.id % 0x100;
    IdentifierBytes(p.id);
    QueuedAsRight(client, k);
    if p.typ == SUBSCRIBE {
      SubAckArrives(client, high, low, code, rest, k);
    } else {
      AnswerArrives(client, AnswerBytes(p, code)[0], high, low, rest, k);
    }
  }
}
