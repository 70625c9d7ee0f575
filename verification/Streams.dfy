/** Cutting a byte stream into packets while it arrives in pieces.

    A framer says what stands at the front of some bytes.  If it never changes a
    verdict when more bytes follow, then it does not matter into which pieces the
    stream was cut. */
module Streams {
  import opened Bytes
  import opened Frames
  import opened ReceivePackets

  datatype Reason = FromPeer | InvalidPacket | InsufficientResources | TopicNotSupported | AssertionInGetWord

  /** A packet as it was on the wire, and what was read from it. */
  datatype Item = Item(typ: u4, flags: u4, body: seq<u8>, message: Message)

  datatype Outcome = Waiting | Got(item: Item) | Closing(reason: Reason)

  /** A verdict and the bytes that stay in the buffer. */
  datatype Poll = Poll(outcome: Outcome, pending: seq<u8>)

  type Framer = seq<u8> -> Poll

  ghost predicate Shrinks(next: Framer) {
    forall s :: next(s).outcome.Got? ==> |next(s).pending| < |s|
  }

  ghost predicate Stable(next: Framer) {
    && (forall s :: next(s).outcome.Waiting? ==> next(s).pending == s)
    && (forall s, more :: !next(s).outcome.Waiting? ==> next(s + more) == Poll(next(s).outcome, next(s).pending + more))
  }

  /** One `Receive` with what `Receiver` does up to `Complete`; `room` is the
      fill level above which there is no space for another segment. */
  function Polled(next: Framer, pending: seq<u8>, room: nat, chunk: Chunk): Poll {
    if |pending| > room then Poll(Closing(InsufficientResources), pending)
    else if chunk.SocketError? then Poll(Closing(FromPeer), pending)
    else next(pending + chunk.data)
  }

  /** What a stream of bytes contains, when it is all there from the start. */
  datatype Parsed = Parsed(items: seq<Item>, end: Poll)

  ghost function Parse(next: Framer, s: seq<u8>): Parsed
    requires Shrinks(next)
    decreases |s|
  {
    var p := next(s);
    if p.outcome.Got? then
      var later := Parse(next, p.pending);
      Parsed([p.outcome.item] + later.items, later.end)
    else Parsed([], p)
  }

  function Concat(segments: seq<seq<u8>>): seq<u8> {
    if segments == [] then [] else segments[0] + Concat(segments[1..])
  }

  /** A run of the receive loop over segments, one poll each, up to a close. */
  function Run(next: Framer, pending: seq<u8>, room: nat, segments: seq<seq<u8>>): Parsed
    decreases |segments|
  {
    if segments == [] then Parsed([], Poll(Waiting, pending))
    else
      var p := Polled(next, pending, room, Chunk.Bytes(segments[0]));
      match p.outcome
      case Closing(_) => Parsed([], p)
      case Waiting => Run(next, p.pending, room, segments[1..])
      case Got(item) =>
        var later := Run(next, p.pending, room, segments[1..]);
        Parsed([item] + later.items, later.end)
  }

  /** Polling once more prolongs the run. */
  lemma {:induction false} RunSnoc(next: Framer, pending: seq<u8>, room: nat, segments: seq<seq<u8>>, x: seq<u8>)
    requires Run(next, pending, room, segments).end.outcome.Waiting?
    ensures var run := Run(next, pending, room, segments);
            var p := Polled(next, run.end.pending, room, Chunk.Bytes(x));
            Run(next, pending, room, segments + [x]) ==
            match p.outcome
            case Closing(_) => Parsed(run.items, p)
            case Waiting => Parsed(run.items, Poll(Waiting, p.pending))
            case Got(item) => Parsed(run.items + [item], Poll(Waiting, p.pending))
    decreases |segments|
  {
    if segments == [] {
      assert [] + [x] == [x];
      assert Run(next, Polled(next, pending, room, Chunk.Bytes(x)).pending, room, [x][1..]).items == [];
    } else {
      var p := Polled(next, pending, room, Chunk.Bytes(segments[0]));
      assert (segments + [x])[1..] == segments[1..] + [x];
      RunSnoc(next, p.pending, room, segments[1..], x);
      if p.outcome.Got? {
        var later := Run(next, p.pending, room, segments[1..]);
        assert forall item :: [p.outcome.item] + (later.items + [item]) == ([p.outcome.item] + later.items) + [item];
      }
    }
  }

  /** However the socket splits the stream: what a run has delivered, followed by
      what the parser finds in the bytes the run still holds and those to come, is
      what the parser finds in the whole stream.  A run that closes because of the
      bytes closes where the parser stops, for the same reason. */
  ghost predicate Refines(next: Framer, run: Parsed, stream: seq<u8>, later: seq<u8>)
    requires Shrinks(next)
  {
    var whole := Parse(next, stream + later);
    match run.end.outcome
    case Waiting =>
      var tail := Parse(next, run.end.pending + later);
      whole == Parsed(run.items + tail.items, tail.end)
    case Closing(reason) =>
      && run.items <= whole.items
      && (reason != InsufficientResources ==> whole.items == run.items && whole.end.outcome == Closing(reason))
    case Got(_) => false
  }

  /** A packet in front of a stream that a run refines. */
  lemma Prepend(next: Framer, s: seq<u8>, x: seq<u8>, run: Parsed, later: seq<u8>)
    requires Shrinks(next) && Stable(next) && next(s).outcome.Got?
    requires Refines(next, run, next(s).pending + x, later)
    ensures Refines(next, Parsed([next(s).outcome.item] + run.items, run.end), s + x, later)
  {
    var item := next(s).outcome.item;
    assert s + x + later == s + (x + later);
    assert next(s).pending + x + later == next(s).pending + (x + later);
    if run.end.outcome.Waiting? {
      var tail := Parse(next, run.end.pending + later);
      assert [item] + (run.items + tail.items) == ([item] + run.items) + tail.items;
    }
  }

  lemma {:induction false} RunRefinesParser(next: Framer, pending: seq<u8>, room: nat, segments: seq<seq<u8>>,
                                            later: seq<u8>)
    requires Shrinks(next) && Stable(next)
    ensures Refines(next, Run(next, pending, room, segments), pending + Concat(segments), later)
    decreases |segments|
  {
    if segments == [] {
      assert pending + Concat(segments) == pending;
      var tail := Parse(next, pending + later);
      assert [] + tail.items == tail.items;
    } else if |pending| <= room {
      var s, x := pending + segments[0], Concat(segments[1..]);
      assert pending + Concat(segments) == s + x;
      var p := next(s);
      match p.outcome {
        case Waiting =>
          RunRefinesParser(next, s, room, segments[1..], later);
        case Got(_) =>
          RunRefinesParser(next, p.pending, room, segments[1..], later);
          Prepend(next, s, x, Run(next, p.pending, room, segments[1..]), later);
        case Closing(_) =>
          assert s + x + later == s + (x + later);
      }
    }
  }

  /** Two runs over the same bytes, cut differently, that are both still open and
      have nothing complete left in the buffer: same packets, same rest. */
  lemma SegmentationIrrelevant(next: Framer, pending: seq<u8>, room: nat, cut1: seq<seq<u8>>, cut2: seq<seq<u8>>)
    requires Shrinks(next) && Stable(next) && Concat(cut1) == Concat(cut2)
    requires var end := Run(next, pending, room, cut1).end; end.outcome.Waiting? && next(end.pending).outcome.Waiting?
    requires var end := Run(next, pending, room, cut2).end; end.outcome.Waiting? && next(end.pending).outcome.Waiting?
    ensures Run(next, pending, room, cut1) == Run(next, pending, room, cut2)
  {
    RunRefinesParser(next, pending, room, cut1, []);
    RunRefinesParser(next, pending, room, cut2, []);
    var run1, run2 := Run(next, pending, room, cut1), Run(next, pending, room, cut2);
    assert run1.end.pending + [] == run1.end.pending && run2.end.pending + [] == run2.end.pending;
    assert run1.items + [] == run1.items && run2.items + [] == run2.items;
  }

  // -------------------------------------------------------------------------
  // Bytes are neither lost nor duplicated
  // -------------------------------------------------------------------------

  /** Not a SUBACK for more than one topic filter. */
  predicate Exact(item: Item) {
    item.typ == SUBACK ==> |item.body| == 3
  }

  function WireOf(item: Item): seq<u8> {
    Wire(item.typ, item.flags, item.body)
  }

  function WireAll(items: seq<Item>): seq<u8> {
    if items == [] then [] else WireOf(items[0]) + WireAll(items[1..])
  }

  ghost predicate Accounts(next: Framer) {
    forall s :: next(s).outcome.Got? && Exact(next(s).outcome.item) ==>
      s == WireOf(next(s).outcome.item) + next(s).pending
  }

  lemma WireFirst(items: seq<Item>, end: seq<u8>)
    requires items != []
    ensures WireAll(items) + end == WireOf(items[0]) + (WireAll(items[1..]) + end)
  {
  }

  /** A poll that gives a packet moves its wire form from the bytes to the packets. */
  lemma PacketConserved(item: Item, pending: seq<u8>, x: seq<u8>, later: seq<Item>, end: seq<u8>)
    requires pending + x == WireAll(later) + end
    ensures WireOf(item) + pending + x == WireAll([item] + later) + end
  {
    assert ([item] + later)[1..] == later;
    WireFirst([item] + later, end);
    assert WireOf(item) + pending + x == WireOf(item) + (pending + x);
  }

  /** Over any run, the bytes taken from the socket are the wire forms of the
      packets completed so far, followed by what is in the buffer. */
  lemma {:induction false} BytesConserved(next: Framer, pending: seq<u8>, room: nat, segments: seq<seq<u8>>)
    requires Stable(next) && Accounts(next)
    requires var run := Run(next, pending, room, segments);
             run.end.outcome.Waiting? && forall item <- run.items :: Exact(item)
    ensures var run := Run(next, pending, room, segments);
            pending + Concat(segments) == WireAll(run.items) + run.end.pending
    decreases |segments|
  {
    hide WireOf;
    if segments == [] {
      assert pending + Concat(segments) == pending == [] + pending;
    } else {
      var s, x := pending + segments[0], Concat(segments[1..]);
      var p := next(s);
      assert pending + Concat(segments) == s + x;
      if p.outcome.Got? {
        var later := Run(next, p.pending, room, segments[1..]);
        var item := p.outcome.item;
        ExactParts(item, later.items);
        BytesConserved(next, p.pending, room, segments[1..]);
        PacketConserved(item, p.pending, x, later.items, later.end.pending);
      } else {
        BytesConserved(next, s, room, segments[1..]);
      }
    }
  }

  lemma ExactParts(item: Item, later: seq<Item>)
    requires forall i <- [item] + later :: Exact(i)
    ensures Exact(item) && forall i <- later :: Exact(i)
  {
    assert item in [item] + later;
    assert forall i <- later :: i in [item] + later;
  }
}
