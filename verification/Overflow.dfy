/** When the receive loop closes the connection because its buffer is full, told from
    the byte stream and the segments it comes in. */
module Overflow {
  import opened Bytes
  import opened Frames
  import opened Streams
  import opened ReceivePackets
  import opened Framing

  /** After `k` segments the run is open, and what is left is more than the room. */
  predicate FullAfter(pending: seq<u8>, segments: seq<seq<u8>>, k: nat, maxTopic: nat, room: nat)
    requires k <= |segments|
  {
    var end := Run(Client(maxTopic), pending, room, segments[..k]).end;
    end.outcome.Waiting? && |end.pending| > room
  }

  lemma FullLater(pending: seq<u8>, segments: seq<seq<u8>>, k: nat, maxTopic: nat, room: nat)
    requires k < |segments| && |pending| <= room
    ensures var p := Next(pending + segments[0], maxTopic);
            FullAfter(pending, segments, k, maxTopic, room)
            <==> k > 0 && !p.outcome.Closing? && FullAfter(p.pending, segments[1..], k - 1, maxTopic, room)
  {
    var p := Next(pending + segments[0], maxTopic);
    if k > 0 {
      var first := segments[..k];
      assert first[0] == segments[0] && first[1..] == segments[1..][..k - 1];
      if !p.outcome.Closing? {
        RunUnfolds(pending, first, maxTopic, room, p);
      }
    }
  }

  lemma NeverLacksRoom(s: seq<u8>, maxTopic: nat)
    ensures Next(s, maxTopic).outcome != Closing(InsufficientResources)
  {
  }

  /** A run closes for lack of room exactly at a segment at which more than the room
      is still in the buffer. */
  lemma {:induction false} LacksRoomIff(pending: seq<u8>, segments: seq<seq<u8>>, maxTopic: nat, room: nat)
    ensures Run(Client(maxTopic), pending, room, segments).end.outcome == Closing(InsufficientResources)
            <==> exists k :: 0 <= k < |segments| && FullAfter(pending, segments, k, maxTopic, room)
    decreases |segments|
  {
    if segments != [] && |pending| > room {
      assert FullAfter(pending, segments, 0, maxTopic, room);
    } else if segments != [] {
      var p := Next(pending + segments[0], maxTopic);
      NeverLacksRoom(pending + segments[0], maxTopic);
      if !p.outcome.Closing? {
        RunUnfolds(pending, segments, maxTopic, room, p);
        LacksRoomIff(p.pending, segments[1..], maxTopic, room);
      }
      forall k | 0 <= k < |segments|
        ensures FullAfter(pending, segments, k, maxTopic, room)
                <==> k > 0 && !p.outcome.Closing? && FullAfter(p.pending, segments[1..], k - 1, maxTopic, room)
      {
        FullLater(pending, segments, k, maxTopic, room);
      }
      if k :| 0 <= k < |segments| - 1 && FullAfter(p.pending, segments[1..], k, maxTopic, room) {
        assert !p.outcome.Closing? ==> FullAfter(pending, segments, k + 1, maxTopic, room);
      }
    }
  }

  // -------------------------------------------------------------------------
  // The bytes in the buffer
  // -------------------------------------------------------------------------

  /** The bytes of a packet that are taken: of a SUBACK for several topic filters its
      header and three more, else all. */
  function TakenOf(item: Item): int {
    |WireOf(item)| - if Exact(item) then 0 else |item.body| - 3
  }

  ghost predicate Takes(next: Framer) {
    forall s :: next(s).outcome.Got? ==> |next(s).pending| == |s| - TakenOf(next(s).outcome.item)
  }

  /** The bytes taken of the first `n` packets. */
  function Taken(items: seq<Item>, n: nat): int {
    if n == 0 || items == [] then 0 else TakenOf(items[0]) + Taken(items[1..], n - 1)
  }

  /** What has arrived with the first `k` segments. */
  function Arrived(start: seq<u8>, segments: seq<seq<u8>>, k: nat): seq<u8>
    requires k <= |segments|
  {
    start + Concat(segments[..k])
  }

  /** The packets that are complete by then. */
  ghost function Complete(next: Framer, start: seq<u8>, segments: seq<seq<u8>>, k: nat): seq<Item>
    requires Shrinks(next) && k <= |segments|
  {
    Parse(next, Arrived(start, segments, k)).items
  }

  /** How many packets `k` polls have handled: one each, if one is complete. */
  ghost function Handled(next: Framer, start: seq<u8>, segments: seq<seq<u8>>, k: nat): nat
    requires Shrinks(next) && k <= |segments|
  {
    if k == 0 then 0
    else
      var n := Handled(next, start, segments, k - 1);
      if n < |Complete(next, start, segments, k)| then n + 1 else n
  }

  /** The bytes that have arrived, without those of the packets handled. */
  ghost function Backlog(next: Framer, start: seq<u8>, segments: seq<seq<u8>>, k: nat): int
    requires Shrinks(next) && k <= |segments|
  {
    |Arrived(start, segments, k)| - Taken(Complete(next, start, segments, k), Handled(next, start, segments, k))
  }

  /** All complete packets were handled, and behind them is something to close for. */
  ghost predicate Stops(next: Framer, start: seq<u8>, segments: seq<seq<u8>>, k: nat)
    requires Shrinks(next) && k < |segments|
  {
    && Parse(next, Arrived(start, segments, k + 1)).end.outcome.Closing?
    && Handled(next, start, segments, k) == |Complete(next, start, segments, k + 1)|
  }

  /** Nothing to close for is met with the first `k` segments. */
  ghost predicate GoesOn(next: Framer, start: seq<u8>, segments: seq<seq<u8>>, k: nat, room: nat)
    requires Shrinks(next) && k <= |segments|
  {
    k == 0 || (&& GoesOn(next, start, segments, k - 1, room)
               && Backlog(next, start, segments, k - 1) <= room && !Stops(next, start, segments, k - 1))
  }

  lemma {:induction false} TakenFront(a: seq<Item>, b: seq<Item>)
    ensures Taken(a + b, |a|) == Taken(a, |a|)
  {
    if a != [] {
      assert (a + b)[1..] == a[1..] + b;
      TakenFront(a[1..], b);
    }
  }

  lemma {:induction false} TakenSnoc(a: seq<Item>, item: Item)
    ensures Taken(a + [item], |a| + 1) == Taken(a, |a|) + TakenOf(item)
  {
    if a == [] {
      assert Taken([], 0) == 0 && ([] + [item])[1..] == [];
    } else {
      assert (a + [item])[1..] == a[1..] + [item];
      TakenSnoc(a[1..], item);
    }
  }

  lemma {:induction false} ConcatSnoc(segments: seq<seq<u8>>, x: seq<u8>)
    ensures Concat(segments + [x]) == Concat(segments) + x
  {
    if segments == [] {
      assert [] + [x] == [x] && Concat([x][1..]) == [];
    } else {
      assert (segments + [x])[1..] == segments[1..] + [x];
      ConcatSnoc(segments[1..], x);
    }
  }

  lemma OneMoreArrives(start: seq<u8>, segments: seq<seq<u8>>, k: nat)
    requires k < |segments|
    ensures segments[..k + 1] == segments[..k] + [segments[k]]
    ensures Arrived(start, segments, k + 1) == Arrived(start, segments, k) + segments[k]
  {
    assert segments[..k + 1] == segments[..k] + [segments[k]];
    ConcatSnoc(segments[..k], segments[k]);
  }

  lemma {:induction false} ClosedStays(next: Framer, pending: seq<u8>, room: nat, segments: seq<seq<u8>>, x: seq<u8>)
    requires !Run(next, pending, room, segments).end.outcome.Waiting?
    ensures !Run(next, pending, room, segments + [x]).end.outcome.Waiting?
    decreases |segments|
  {
    var p := Polled(next, pending, room, Chunk.Bytes(segments[0]));
    assert (segments + [x])[1..] == segments[1..] + [x];
    if !p.outcome.Closing? {
      ClosedStays(next, p.pending, room, segments[1..], x);
    }
  }

  /** The run over the first `k` segments is told from the stream. */
  ghost predicate AsTold(next: Framer, start: seq<u8>, room: nat, segments: seq<seq<u8>>, k: nat)
    requires Shrinks(next) && k <= |segments|
  {
    var run := Run(next, start, room, segments[..k]);
    && (run.end.outcome.Waiting? <==> GoesOn(next, start, segments, k, room))
    && (run.end.outcome.Waiting? ==>
          && |run.items| == Handled(next, start, segments, k)
          && |run.end.pending| == |Arrived(start, segments, k)| - Taken(run.items, |run.items|))
  }

  /** The packets a run has handled are the first of the complete ones. */
  lemma HandledAreFirst(next: Framer, start: seq<u8>, room: nat, segments: seq<seq<u8>>, k: nat)
    requires Shrinks(next) && Stable(next) && k <= |segments|
    requires Run(next, start, room, segments[..k]).end.outcome.Waiting? && AsTold(next, start, room, segments, k)
    ensures |Run(next, start, room, segments[..k]).end.pending| == Backlog(next, start, segments, k)
  {
    var run := Run(next, start, room, segments[..k]);
    RunRefinesParser(next, start, room, segments[..k], []);
    assert Arrived(start, segments, k) + [] == Arrived(start, segments, k);
    TakenFront(run.items, Parse(next, run.end.pending + []).items);
  }

  lemma OnePoll(next: Framer, start: seq<u8>, room: nat, segments: seq<seq<u8>>, k: nat)
    requires Shrinks(next) && Stable(next) && Takes(next) && k < |segments|
    requires Run(next, start, room, segments[..k]).end.outcome.Waiting? && AsTold(next, start, room, segments, k)
    ensures AsTold(next, start, room, segments, k + 1)
  {
    var run, x := Run(next, start, room, segments[..k]), segments[k];
    var pending := run.end.pending;
    HandledAreFirst(next, start, room, segments, k);
    OneMoreArrives(start, segments, k);
    RunSnoc(next, start, room, segments[..k], x);
    var p := next(pending + x);
    CompleteThen(next, start, room, segments, k, run, p);
    if p.outcome.Got? {
      TakenSnoc(run.items, p.outcome.item);
    }
  }

  /** Which packets are complete one segment later. */
  lemma CompleteThen(next: Framer, start: seq<u8>, room: nat, segments: seq<seq<u8>>, k: nat, run: Parsed, p: Poll)
    requires Shrinks(next) && Stable(next) && k < |segments|
    requires run == Run(next, start, room, segments[..k]) && run.end.outcome.Waiting?
    requires p == next(run.end.pending + segments[k])
    ensures var whole := Parse(next, Arrived(start, segments, k + 1));
            && whole.items == Complete(next, start, segments, k + 1)
            && (|run.items| < |whole.items| <==> p.outcome.Got?)
            && (whole.end.outcome.Closing? && |run.items| == |whole.items| <==> p.outcome.Closing?)
  {
    OneMoreArrives(start, segments, k);
    RunRefinesParser(next, start, room, segments[..k], segments[k]);
  }

  lemma {:induction false} RunAsTold(next: Framer, start: seq<u8>, room: nat, segments: seq<seq<u8>>, k: nat)
    requires Shrinks(next) && Stable(next) && Takes(next) && k <= |segments|
    ensures AsTold(next, start, room, segments, k)
  {
    if k == 0 {
      assert start + [] == start;
    } else {
      RunAsTold(next, start, room, segments, k - 1);
      if Run(next, start, room, segments[..k - 1]).end.outcome.Waiting? {
        OnePoll(next, start, room, segments, k - 1);
      } else {
        OneMoreArrives(start, segments, k - 1);
        ClosedStays(next, start, room, segments[..k - 1], segments[k - 1]);
      }
    }
  }

  lemma ClientTakes(maxTopic: nat)
    ensures Takes(Client(maxTopic))
  {
    forall s | Next(s, maxTopic).outcome.Got?
      ensures |Next(s, maxTopic).pending| == |s| - TakenOf(Next(s, maxTopic).outcome.item)
    {
      FrameIsWire(s);
      DeliveredTakes(s, FrameOf(s), maxTopic);
    }
  }

  lemma DeliveredTakes(s: seq<u8>, f: Frame, maxTopic: nat)
    requires f.Found? && 2 <= f.header && f.header + f.remaining <= |s| && Acceptable(f.typ, f.flags, f.remaining)
    requires s == Wire(f.typ, f.flags, s[f.header..f.header + f.remaining]) + s[f.header + f.remaining..]
    requires Deliver(s, f, maxTopic).outcome.Got?
    ensures var p := Deliver(s, f, maxTopic); |p.pending| == |s| - TakenOf(p.outcome.item)
  {
    var body := s[f.header..f.header + f.remaining];
    WholeBodyTakenIff(f.typ, f.flags, body, maxTopic);
    assert |Wire(f.typ, f.flags, body)| == f.header + f.remaining;
  }

  /** Whatever the segments, a run closes for lack of room exactly if, with some of
      them, more bytes have arrived than the room and the packets handled take, and
      nothing to close for came before. */
  lemma OverflowIff(start: seq<u8>, segments: seq<seq<u8>>, maxTopic: nat, room: nat)
    ensures var next := Client(maxTopic);
            && Shrinks(next)
            && (Run(next, start, room, segments).end.outcome == Closing(InsufficientResources)
                <==> exists k :: && 0 <= k < |segments| && GoesOn(next, start, segments, k, room)
                                 && Backlog(next, start, segments, k) > room)
  {
    var next := Client(maxTopic);
    ClientIsFramer(maxTopic);
    ClientTakes(maxTopic);
    LacksRoomIff(start, segments, maxTopic, room);
    forall k | 0 <= k < |segments|
      ensures FullAfter(start, segments, k, maxTopic, room)
              <==> GoesOn(next, start, segments, k, room) && Backlog(next, start, segments, k) > room
    {
      RunAsTold(next, start, room, segments, k);
      if GoesOn(next, start, segments, k, room) {
        HandledAreFirst(next, start, room, segments, k);
      }
    }
  }

  // -------------------------------------------------------------------------
  // A flood
  // -------------------------------------------------------------------------

  lemma Ping(rest: seq<u8>, maxTopic: nat)
    ensures Next([0xD0, 0] + rest, maxTopic) == Poll(Got(Item(PINGRESP, 0, [], PingResp)), rest)
  {
    assert Wire(PINGRESP, 0, []) == [0xD0, 0];
    FrameOfWire(PINGRESP, 0, [], rest);
    var s := [0xD0, 0] + rest;
    assert s[2..2] == [] && s[2..] == rest;
  }

  /** So many PINGRESPs. */
  function Pings(n: nat): (s: seq<u8>)
    ensures |s| == 2 * n
  {
    if n == 0 then [] else [0xD0, 0] + Pings(n - 1)
  }

  lemma {:induction false} PingsPlus(n: nat, m: nat)
    ensures Pings(n) + Pings(m) == Pings(n + m)
  {
    if n == 0 {
      assert [] + Pings(m) == Pings(m);
    } else {
      PingsPlus(n - 1, m);
      assert Pings(n) + Pings(m) == [0xD0, 0] + (Pings(n - 1) + Pings(m));
    }
  }

  /** `m` segments with `per` of them each. */
  function Flood(per: nat, m: nat): seq<seq<u8>> {
    if m == 0 then [] else [Pings(per)] + Flood(per, m - 1)
  }

  /** One poll takes one packet of a segment, so this many are left when the last of
      `m` segments comes. */
  function LeftOver(per: nat, m: nat): nat
    requires per >= 1
  {
    if m <= 1 then 0 else LeftOver(per, m - 1) + (per - 1)
  }

  lemma {:induction false} LeftOverIsProduct(per: nat, m: nat)
    requires per >= 1 && m >= 1
    ensures LeftOver(per, m) == (per - 1) * (m - 1)
  {
    if m > 1 {
      LeftOverIsProduct(per, m - 1);
    }
  }

  /** Whether one of `m` polls finds too much, with `n` packets in front. */
  predicate TooMany(n: nat, per: nat, m: nat, room: nat)
    requires per >= 1
    decreases m
  {
    m > 0 && (2 * n > room || TooMany(n + per - 1, per, m - 1, room))
  }

  lemma {:induction false} TooManyIff(n: nat, per: nat, m: nat, room: nat)
    requires per >= 1 && m >= 1
    ensures TooMany(n, per, m, room) <==> 2 * (n + LeftOver(per, m)) > room
    decreases m
  {
    if m > 1 {
      TooManyIff(n + per - 1, per, m - 1, room);
    }
  }

  ghost predicate TakesPings(next: Framer) {
    forall n: nat :: n > 0 ==> next(Pings(n)) == Poll(Got(Item(PINGRESP, 0, [], PingResp)), Pings(n - 1))
  }

  lemma {:induction false} FloodRuns(next: Framer, n: nat, per: nat, m: nat, room: nat)
    requires TakesPings(next) && per >= 1
    ensures Run(next, Pings(n), room, Flood(per, m)).end.outcome
            == if TooMany(n, per, m, room) then Closing(InsufficientResources) else Waiting
    decreases m
  {
    if m > 0 && 2 * n <= room {
      var segments := Flood(per, m);
      assert segments[0] == Pings(per) && segments[1..] == Flood(per, m - 1);
      PingsPlus(n, per);
      assert Polled(next, Pings(n), room, Chunk.Bytes(segments[0])) == next(Pings(n + per));
      FloodRuns(next, n + per - 1, per, m - 1, room);
    }
  }

  lemma ClientTakesPings(maxTopic: nat)
    ensures TakesPings(Client(maxTopic))
  {
    forall n: nat | n > 0
      ensures Next(Pings(n), maxTopic) == Poll(Got(Item(PINGRESP, 0, [], PingResp)), Pings(n - 1))
    {
      Ping(Pings(n - 1), maxTopic);
    }
  }

  /** Without the condition a run can close, whatever the room and however short the
      segments: `m` of them are too much exactly if what the polls leave behind is. */
  lemma FloodClosesIff(per: nat, m: nat, maxTopic: nat, room: nat)
    requires per >= 1 && m >= 1
    ensures Run(Client(maxTopic), [], room, Flood(per, m)).end.outcome == Closing(InsufficientResources)
            <==> 2 * ((per - 1) * (m - 1)) > room
  {
    LeftOverIsProduct(per, m);
    TooManyIff(0, per, m, room);
    ClientTakesPings(maxTopic);
    FloodRuns(Client(maxTopic), 0, per, m, room);
  }

  /** So every room is too small for some flood. */
  lemma FloodCloses(maxTopic: nat, room: nat, frameSize: nat) returns (segments: seq<seq<u8>>)
    requires frameSize >= 4
    ensures forall s <- segments :: |s| <= frameSize
    ensures Run(Client(maxTopic), [], room, segments).end.outcome == Closing(InsufficientResources)
  {
    var m := room / 2 + 2;
    segments := Flood(2, m);
    FloodClosesIff(2, m, maxTopic, room);
    FloodSegments(2, m);
  }

  lemma {:induction false} FloodSegments(per: nat, m: nat)
    ensures forall s <- Flood(per, m) :: |s| == 2 * per
  {
    if m > 0 {
      FloodSegments(per, m - 1);
    }
  }
}
