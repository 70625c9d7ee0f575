/** One pass of the receive loop: from a received segment to a message. */
module Framing {
  import opened Bytes
  import opened Frames
  import opened ReceivePackets
  import opened Streams
  import RemainingLength

  function ReasonOf(r: Reading): Reason
    requires !r.Message?
  {
    match r
    case NotSupported => TopicNotSupported
    case BadIdentifier => InvalidPacket
    case AssertionFails => AssertionInGetWord
  }

  /** What becomes of the bytes `s` when the framer has said `f` about them and
      reading the packet, if there is one, has given `r`. */
  function Taken(s: seq<u8>, f: Frame, r: Reading): Poll
    requires f.Found? ==> f.header + f.remaining <= |s|
    requires f.Found? && r.Message? ==> r.taken <= f.remaining
  {
    match f
    case NeedMore => Poll(Waiting, s)
    case Malformed => Poll(Closing(InvalidPacket), s)
    case Found(typ, flags, header, remaining) =>
      match r
      case Message(m, taken) => Poll(Got(Item(typ, flags, s[header..header + remaining], m)), s[header + taken..])
      case refused => Poll(Closing(ReasonOf(refused)), s)
  }

  function Deliver(s: seq<u8>, f: Frame, maxTopic: nat): (p: Poll)
    requires f.Found? ==> 2 <= f.header && f.header + f.remaining <= |s| && Acceptable(f.typ, f.flags, f.remaining)
    ensures p.outcome.Got? ==> |p.pending| < |s|
  {
    Taken(s, f, if f.Found? then Read(f.typ, f.flags, s[f.header..f.header + f.remaining], maxTopic) else NotSupported)
  }

  lemma Delivered(s: seq<u8>, f: Frame, body: seq<u8>, maxTopic: nat)
    requires f.Found? && 2 <= f.header && f.header + f.remaining <= |s| && Acceptable(f.typ, f.flags, f.remaining)
    requires body == s[f.header..f.header + f.remaining]
    ensures Deliver(s, f, maxTopic) == Taken(s, f, Read(f.typ, f.flags, body, maxTopic))
  {
  }

  function Next(s: seq<u8>, maxTopic: nat): (p: Poll)
    ensures p.outcome.Got? ==> |p.pending| < |s|
  {
    Deliver(s, FrameOf(s), maxTopic)
  }

  /** The packet at the front of the buffer object, read as `r`, is dropped. */
  method Finish(rx: ReceivePacket, body: seq<u8>, r: Reading) returns (outcome: Outcome)
    requires rx.Valid() && (r.Message? ==> rx.Reading() && rx.consumed == r.taken && body == rx.Body())
    modifies rx, rx.buffer
    ensures rx.Valid()
    ensures old(rx.Reading()) && r.Message? ==>
              Poll(outcome, rx.Pending())
              == Taken(old(rx.Pending()), Found(old(rx.typ), old(rx.flags), old(rx.header), old(rx.remaining)), r)
    ensures !r.Message? ==> outcome == Closing(ReasonOf(r)) && rx.Pending() == old(rx.Pending())
  {
    if !r.Message? {
      return Closing(ReasonOf(r));
    }
    outcome := Got(Item(rx.typ, rx.flags, body, r.message));
    rx.BodyIsPending();
    rx.Complete();
  }

  method ReadAndComplete(rx: ReceivePacket, maxTopic: nat) returns (outcome: Outcome)
    requires rx.Reading() && rx.consumed == 0 && rx.header >= 2
    modifies rx, rx.buffer
    ensures rx.Valid()
    ensures Poll(outcome, rx.Pending())
            == Deliver(old(rx.Pending()), Found(old(rx.typ), old(rx.flags), old(rx.header), old(rx.remaining)),
                 maxTopic)
  {
    ghost var s, f := rx.Pending(), Found(rx.typ, rx.flags, rx.header, rx.remaining);
    var header, remaining := rx.outPtr, rx.remaining;
    var body := rx.buffer[header..header + remaining];
    assert body == rx.Body();
    rx.BodyIsPending();
    Delivered(s, f, body, maxTopic);
    var r := rx.ReadMessage(maxTopic);
    outcome := Finish(rx, body, r);
  }

  /** One pass of the receive loop on the buffer object. */
  method PollSocket(rx: ReceivePacket, chunk: Chunk, maxTopic: nat) returns (outcome: Outcome)
    requires rx.Valid() && (chunk.Bytes? ==> |chunk.data| <= rx.frameSize)
    modifies rx, rx.buffer
    ensures rx.Valid()
    ensures Poll(outcome, rx.Pending())
            == Polled(Client(maxTopic), old(rx.Pending()), rx.bufferSize - rx.frameSize, chunk)
  {
    var verdict := rx.Receive(chunk);
    match verdict {
      case Continue => outcome := Waiting;
      case PacketInvalid => outcome := Closing(InvalidPacket);
      case PeerGone => outcome := Closing(FromPeer);
      case NotEnoughMemory => outcome := Closing(InsufficientResources);
      case PacketOK => outcome := ReadAndComplete(rx, maxTopic);
    }
  }

  // -------------------------------------------------------------------------
  // The client's framer has the properties that Streams asks for
  // -------------------------------------------------------------------------

  function Client(maxTopic: nat): (next: Framer)
    ensures forall s :: next(s) == Next(s, maxTopic)
  {
    (s: seq<u8>) => Next(s, maxTopic)
  }

  /** A PUBLISH that is taken has one of the three QoS levels. */
  lemma PublishQoS(pending: seq<u8>, room: nat, chunk: Chunk, maxTopic: nat)
    ensures var outcome := Polled(Client(maxTopic), pending, room, chunk).outcome;
            outcome.Got? && outcome.item.message.Publish? ==> QoSOf(outcome.item.message.flags) <= 2
  {
  }

  lemma TakenStable(s: seq<u8>, f: Frame, r: Reading, more: seq<u8>)
    requires f.Found? ==> f.header + f.remaining <= |s|
    requires f.Found? && r.Message? ==> r.taken <= f.remaining
    requires !f.NeedMore?
    ensures var p := Taken(s, f, r);
            Taken(s + more, f, r) == Poll(p.outcome, p.pending + more)
  {
    if f.Found? && r.Message? {
      assert (s + more)[f.header..f.header + f.remaining] == s[f.header..f.header + f.remaining];
      assert (s + more)[f.header + r.taken..] == s[f.header + r.taken..] + more;
    }
  }

  lemma DeliverStable(s: seq<u8>, f: Frame, more: seq<u8>, maxTopic: nat)
    requires f.Found? ==> 2 <= f.header && f.header + f.remaining <= |s| && Acceptable(f.typ, f.flags, f.remaining)
    requires !f.NeedMore?
    ensures var p := Deliver(s, f, maxTopic);
            Deliver(s + more, f, maxTopic) == Poll(p.outcome, p.pending + more)
  {
    if f.Found? {
      assert (s + more)[f.header..f.header + f.remaining] == s[f.header..f.header + f.remaining];
    }
    var r := if f.Found? then Read(f.typ, f.flags, s[f.header..f.header + f.remaining], maxTopic) else NotSupported;
    assert Deliver(s, f, maxTopic) == Taken(s, f, r) && Deliver(s + more, f, maxTopic) == Taken(s + more, f, r);
    TakenStable(s, f, r, more);
  }

  lemma ClientIsFramer(maxTopic: nat)
    ensures Shrinks(Client(maxTopic)) && Stable(Client(maxTopic))
  {
    forall s, more | !Next(s, maxTopic).outcome.Waiting?
      ensures Next(s + more, maxTopic) == Poll(Next(s, maxTopic).outcome, Next(s, maxTopic).pending + more)
    {
      FrameStable(s, more);
      DeliverStable(s, FrameOf(s), more, maxTopic);
    }
  }

  /** Received bytes make the assertion in `GetWord` fail exactly if they start with
      such a PUBLISH. */
  lemma AssertionInGetWordIff(s: seq<u8>, maxTopic: nat)
    ensures var f := FrameOf(s);
            Next(s, maxTopic).outcome == Closing(AssertionInGetWord)
            <==> && f.Found? && f.typ == PUBLISH && QoSOf(f.flags) > 0
                 && NoRoomForIdentifier(s[f.header..f.header + f.remaining], maxTopic)
  {
    var f := FrameOf(s);
    if f.Found? {
      var body := s[f.header..f.header + f.remaining];
      Delivered(s, f, body, maxTopic);
      if f.typ == PUBLISH {
        AssertionFailsIff(f.flags, body, maxTopic);
      }
    }
  }

  lemma AbcPublish(s: seq<u8>, body: seq<u8>)
    requires s == [0x32, 5, 0, 3, 97, 98, 99] && body == [0, 3, 97, 98, 99]
    ensures FrameOf(s) == Found(PUBLISH, 2, 2, 5) && s[2..7] == body && NoRoomForIdentifier(body, 3)
  {
    assert RemainingLength.Encode(5) == [5];
    assert s == Wire(PUBLISH, 2, body) + [];
    FrameOfWire(PUBLISH, 2, body, []);
    assert WordAt(body) == 3 && body[2..5] == [97, 98, 99];
  }

  /** A PUBLISH at QoS 1 with topic "abc" and nothing else is one. */
  lemma PublishWithoutIdentifier()
    ensures Next([0x32, 5, 0, 3, 97, 98, 99], 3).outcome == Closing(AssertionInGetWord)
  {
    var s, body: seq<u8> := [0x32, 5, 0, 3, 97, 98, 99], [0, 3, 97, 98, 99];
    AbcPublish(s, body);
    AssertionInGetWordIff(s, 3);
  }

  // -------------------------------------------------------------------------
  // Bytes are neither lost nor duplicated
  // -------------------------------------------------------------------------

  /** A packet is dropped as a whole, unless it is a SUBACK for more than one
      topic filter: of that one, three body bytes are. */
  lemma PacketDroppedWholeIff(s: seq<u8>, maxTopic: nat)
    requires Next(s, maxTopic).outcome.Got?
    ensures var p := Next(s, maxTopic);
            s == WireOf(p.outcome.item) + p.pending <==> Exact(p.outcome.item)
  {
    FrameIsWire(s);
    DeliveredWholeIff(s, FrameOf(s), maxTopic);
  }

  lemma DeliveredWholeIff(s: seq<u8>, f: Frame, maxTopic: nat)
    requires f.Found? && 2 <= f.header && f.header + f.remaining <= |s| && Acceptable(f.typ, f.flags, f.remaining)
    requires s == Wire(f.typ, f.flags, s[f.header..f.header + f.remaining]) + s[f.header + f.remaining..]
    requires Deliver(s, f, maxTopic).outcome.Got?
    ensures var p := Deliver(s, f, maxTopic);
            s == WireOf(p.outcome.item) + p.pending <==> Exact(p.outcome.item)
  {
    var body := s[f.header..f.header + f.remaining];
    var r := Read(f.typ, f.flags, body, maxTopic);
    WholeBodyTakenIff(f.typ, f.flags, body, maxTopic);
    var p := Deliver(s, f, maxTopic);
    assert |WireOf(p.outcome.item)| == f.header + f.remaining;
    assert p.pending == s[f.header + r.taken..];
  }

  lemma ClientAccounts(maxTopic: nat)
    ensures Accounts(Client(maxTopic))
  {
    forall s | Client(maxTopic)(s).outcome.Got? && Exact(Client(maxTopic)(s).outcome.item)
      ensures s == WireOf(Client(maxTopic)(s).outcome.item) + Client(maxTopic)(s).pending
    {
      PacketDroppedWholeIff(s, maxTopic);
    }
  }

  /** So over any run of the client that is open, without such a SUBACK, the bytes taken
      are the wire forms of the packets and the bytes in the buffer. */
  lemma ClientConservesBytes(maxTopic: nat, pending: seq<u8>, room: nat, segments: seq<seq<u8>>)
    requires var run := Run(Client(maxTopic), pending, room, segments);
             run.end.outcome.Waiting? && forall item <- run.items :: Exact(item)
    ensures var run := Run(Client(maxTopic), pending, room, segments);
            pending + Concat(segments) == WireAll(run.items) + run.end.pending
  {
    ClientIsFramer(maxTopic);
    ClientAccounts(maxTopic);
    BytesConserved(Client(maxTopic), pending, room, segments);
  }

  /** The claim about runs fails without the condition: of a SUBACK with two
      return codes one byte stays and is taken for the start of the next packet. */
  lemma LongSubAckLeavesAByte()
    ensures Next([0x90, 4, 0, 1, 0, 0], 0) == Poll(Got(Item(SUBACK, 0, [0, 1, 0, 0], SubAck(1, 0))), [0])
  {
    var s, body: seq<u8> := [0x90, 4, 0, 1, 0, 0], [0, 1, 0, 0];
    TwoCodes(s, body);
    Delivered(s, FrameOf(s), body, 0);
  }

  lemma TwoCodes(s: seq<u8>, body: seq<u8>)
    requires s == [0x90, 4, 0, 1, 0, 0] && body == [0, 1, 0, 0]
    ensures FrameOf(s) == Found(SUBACK, 0, 2, 4) && s[2..6] == body && s[5..] == [0]
  {
    assert RemainingLength.Encode(4) == [4];
    assert s == Wire(SUBACK, 0, body) + [];
    FrameOfWire(SUBACK, 0, body, []);
  }

  // -------------------------------------------------------------------------
  // When the buffer is large enough
  // -------------------------------------------------------------------------

  /** The stream is made of packets that the client takes, none longer than the room
      by more than a byte, and at most the beginning of another one. */
  ghost predicate PacketsFit(s: seq<u8>, maxTopic: nat, room: nat)
    decreases |s|
  {
    var p, f := Next(s, maxTopic), FrameOf(s);
    match p.outcome
    case Waiting => |s| <= room
    case Closing(_) => false
    case Got(item) => Exact(item) && |WireOf(item)| <= room + 1 && PacketsFit(p.pending, maxTopic, room)
  }

  /** New bytes come in only when nothing complete is in the buffer, and never more
      than the room. */
  predicate Drained(maxTopic: nat, pending: seq<u8>, room: nat, segments: seq<seq<u8>>)
    decreases |segments|
  {
    segments != [] ==>
      && |segments[0]| <= room && (segments[0] == [] || Next(pending, maxTopic).outcome.Waiting?)
      && Drained(maxTopic, Next(pending + segments[0], maxTopic).pending, room, segments[1..])
  }

  lemma ItemLength(s: seq<u8>, maxTopic: nat)
    requires Next(s, maxTopic).outcome.Got?
    ensures FrameOf(s).Found?
    ensures |WireOf(Next(s, maxTopic).outcome.item)| == FrameOf(s).header + FrameOf(s).remaining
  {
    FrameIsWire(s);
  }

  lemma WaitingIsShorter(s: seq<u8>, more: seq<u8>, maxTopic: nat)
    requires Next(s, maxTopic).outcome.Waiting? && Next(s + more, maxTopic).outcome.Got?
    ensures |s| < |WireOf(Next(s + more, maxTopic).outcome.item)|
  {
    ItemLength(s + more, maxTopic);
    NeedMoreIsShorter(s, more);
  }

  /** What is in the buffer after a poll leaves room for the next one. */
  lemma PollLeavesRoom(pending: seq<u8>, x: seq<u8>, later: seq<u8>, maxTopic: nat, room: nat)
    requires |pending| <= room && |x| <= room && (x == [] || Next(pending, maxTopic).outcome.Waiting?)
    requires PacketsFit(pending + x + later, maxTopic, room)
    ensures var p := Next(pending + x, maxTopic);
            && !p.outcome.Closing? && |p.pending| <= room && PacketsFit(p.pending + later, maxTopic, room)
  {
    ClientIsFramer(maxTopic);
    var s := pending + x;
    var p, whole := Client(maxTopic)(s), Client(maxTopic)(s + later);
    if p.outcome.Waiting? {
      if whole.outcome.Got? {
        WaitingIsShorter(s, later, maxTopic);
      }
    } else if x == [] {
      assert s == pending;
    } else {
      WaitingIsShorter(pending, x, maxTopic);
      PacketDroppedWholeIff(s, maxTopic);
    }
  }

  lemma FirstSegment(pending: seq<u8>, segments: seq<seq<u8>>)
    requires segments != []
    ensures pending + Concat(segments) == pending + segments[0] + Concat(segments[1..])
  {
  }

  lemma RunUnfolds(pending: seq<u8>, segments: seq<seq<u8>>, maxTopic: nat, room: nat, p: Poll)
    requires segments != [] && |pending| <= room && p == Next(pending + segments[0], maxTopic) && !p.outcome.Closing?
    ensures Run(Client(maxTopic), pending, room, segments).end
            == Run(Client(maxTopic), p.pending, room, segments[1..]).end
  {
    assert Polled(Client(maxTopic), pending, room, Chunk.Bytes(segments[0])) == p;
  }

  /** Then no run is closed, whatever the segments: nothing is lost, and what was
      delivered are the packets of the stream. */
  lemma {:induction false} DrainedRunStaysOpen(pending: seq<u8>, segments: seq<seq<u8>>, maxTopic: nat, room: nat)
    requires |pending| <= room && PacketsFit(pending + Concat(segments), maxTopic, room)
    requires Drained(maxTopic, pending, room, segments)
    ensures Run(Client(maxTopic), pending, room, segments).end.outcome.Waiting?
    decreases |segments|
  {
    if segments != [] {
      var x, later := segments[0], Concat(segments[1..]);
      FirstSegment(pending, segments);
      PollLeavesRoom(pending, x, later, maxTopic, room);
      var p := Next(pending + x, maxTopic);
      DrainedRunStaysOpen(p.pending, segments[1..], maxTopic, room);
      RunUnfolds(pending, segments, maxTopic, room, p);
    }
  }

  /** And if nothing complete is left in the end, exactly the packets of the stream
      were delivered. */
  lemma DrainedRunDelivers(segments: seq<seq<u8>>, maxTopic: nat, room: nat)
    requires PacketsFit(Concat(segments), maxTopic, room) && Drained(maxTopic, [], room, segments)
    requires Next(Run(Client(maxTopic), [], room, segments).end.pending, maxTopic).outcome.Waiting?
    ensures var next := Client(maxTopic);
            && Shrinks(next)
            && Run(next, [], room, segments) == Parse(next, Concat(segments))
  {
    var next := Client(maxTopic);
    ClientIsFramer(maxTopic);
    assert [] + Concat(segments) == Concat(segments);
    DrainedRunStaysOpen([], segments, maxTopic, room);
    RunRefinesParser(next, [], room, segments, []);
    OpenRunIsParse(next, Run(next, [], room, segments), Concat(segments));
  }

  lemma OpenRunIsParse(next: Framer, run: Parsed, s: seq<u8>)
    requires Shrinks(next) && Stable(next) && Refines(next, run, [] + s, [])
    requires run.end.outcome.Waiting? && next(run.end.pending).outcome.Waiting?
    ensures run == Parse(next, s)
  {
    var left := run.end.pending;
    assert left + [] == left;
    var tail := Parse(next, left + []);
    assert tail == Parsed([], Poll(Waiting, left));
    assert run.items + tail.items == run.items;
    assert [] + s + [] == s;
  }
}
