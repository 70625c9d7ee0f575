/** The client object of mqttclient.cpp.

    Sockets, the clock and the application are the environment: a send succeeds or
    fails, ticks pass, callbacks are recorded.  Packets on the heap are values with
    a handle; `live` is the set of handles allocated and not yet deleted. */
module MqttClients {
  import opened Bytes
  import opened Frames
  import opened Ticks
  import opened RetransmissionQueue
  import opened QueueOrder
  import opened PacketIdentifiers
  import opened SendPackets
  import opened QoS2
  import opened ClientQueue
  import opened ClientStatus
  import opened SenderPass
  import opened ReceivePackets
  import opened Deliveries
  import Streams
  import Framing
  import Writer = PublishRoundTrip

  /** A packet with its body; it carries an error if the body did not fit. */
  function NewPacket(handle: nat, typ: u4, flags: u4, body: seq<u8>, maxPacketSize: nat, id: u16, serial: nat): Packet {
    Packet(handle, typ, flags, body, MAX_LENGTH_FIXED_HEADER + |body| > maxPacketSize, SEND_TRIES, 0, 0, id, serial)
  }

  /** The packet after `Send`, which spends a try if it gets as far as the socket. */
  function Tried(p: Packet): Packet {
    if Sendable(p) then p.(tries := p.tries - 1) else p
  }

  predicate Sendable(p: Packet) {
    !p.error && p.tries > 0
  }

  /** The packet as it is queued: with its QoS, and its time on the 32-bit counter. */
  function Queued(p: Packet, qos: nat, when: nat): Packet {
    p.(qos := qos, time := Wrap(when))
  }

  /** The queue, with its times, when packet `p` was sent and, above QoS 0, is to be sent
      again at tick `w`. */
  function KeptIn(q: seq<Packet>, d: seq<nat>, p: Packet, qos: nat, w: nat): (seq<Packet>, seq<nat>)
    requires |q| == |d|
  {
    if qos > 0 then (Insert(q, Queued(p, qos, w)), InsertAt(d, Slot(q, Wrap(w)), w)) else (q, d)
  }

  /** Types for which the keep-alive timer is restarted. */
  predicate Ordinary(typ: u4) {
    typ in {CONNECT, PUBLISH, PUBACK, PUBREC, PUBREL, PUBCOMP, SUBSCRIBE, UNSUBSCRIBE}
  }

  /** The client at one moment. */
  datatype Snap = Snap(
    status: Status, keepAlive: u16, timerRunning: bool, timerElapsesAt: u32, nextId: u16,
    queue: seq<Packet>, due: seq<nat>, store: seq<u16>, now: nat, nextHandle: nat, allocations: nat,
    events: seq<Event>, wire: seq<Transmission>)

  /** What `Publish`, `Subscribe` and `Unsubscribe` do with packet `p`: it is sent and,
      above QoS 0, queued; or the connection is closed. */
  ghost predicate Submits(s: Snap, s': Snap, p: Packet, qos: nat, hz: nat)
    requires |s.queue| == |s.due|
  {
    && s'.wire == s.wire + (if s.status != Disconnected && Sendable(p) then [Shown(p)] else [])
    && s.now <= s'.now && Filed(s.due, s'.due, s'.now + 5 * hz)
    && if s'.status != Disconnected then
         && (s'.status, s'.store, s'.events) == (s.status, s.store, s.events)
         && (s'.queue, s'.due) == KeptIn(s.queue, s.due, Tried(p), qos, s'.now + 5 * hz)
       else
         s'.events == s.events + if s.status != Disconnected then [OnDisconnect(SendFailed)] else []
  }

  /** `x` is the `k`th of the elements `s'`, and the others are `s`. */
  predicate IsPut<T(==)>(s: seq<T>, s': seq<T>, k: nat, x: T) {
    k < |s'| && s'[k] == x && s == s'[..k] + s'[k + 1..]
  }

  lemma InsertPuts<T>(s: seq<T>, k: nat, x: T)
    requires k <= |s|
    ensures IsPut(s, InsertAt(s, k, x), k, x)
  {
    assert s == s[..k] + s[k..];
  }

  lemma KeptIsPut(q: seq<Packet>, d: seq<nat>, p: Packet, qos: nat, w: nat) returns (k: nat)
    requires |q| == |d| && qos > 0
    ensures var kept := KeptIn(q, d, p, qos, w);
            IsPut(q, kept.0, k, Queued(p, qos, w)) && IsPut(d, kept.1, k, w)
  {
    hide Insert;
    k := Slot(q, Wrap(w));
    InsertIsAtSlot(q, Queued(p, qos, w));
    InsertPuts(q, k, Queued(p, qos, w));
    InsertPuts(d, k, w);
  }

  lemma KeptIfOpen(s: Snap, s': Snap, p: Packet, qos: nat, hz: nat)
    requires |s.queue| == |s.due| && Submits(s, s', p, qos, hz) && s'.status != Disconnected
    ensures (s'.queue, s'.due) == KeptIn(s.queue, s.due, Tried(p), qos, s'.now + 5 * hz)
  {
    hide KeptIn, Filed, Tried, Shown;
  }

  /** The packet as it is queued at a QoS, to be sent again at tick `when`. */
  predicate SentAt(x: Packet, p: Packet, qos: nat, when: nat) {
    && (x.handle, x.typ, x.flags, x.body, x.id, x.qos) == (p.handle, p.typ, p.flags, p.body, p.id, qos)
    && x.time == when % 0x1_0000_0000
  }

  lemma QueuedIsSentAt(p: Packet, qos: nat, when: nat)
    ensures SentAt(Queued(Tried(p), qos, when), p, qos, when)
  {
  }

  /** A packet that was submitted on a connection that is still open is in the queue, with
      its QoS, to be sent again after five seconds: exactly above QoS 0. */
  lemma SubmittedIsQueued(s: Snap, s': Snap, p: Packet, qos: nat, hz: nat) returns (k: nat, x: Packet)
    requires |s.queue| == |s.due| && Submits(s, s', p, qos, hz) && s'.status != Disconnected
    ensures if qos == 0 then (s'.queue, s'.due) == (s.queue, s.due)
            else
              && IsPut(s.queue, s'.queue, k, x) && IsPut(s.due, s'.due, k, s'.now + 5 * hz)
              && SentAt(x, p, qos, s'.now + 5 * hz)
  {
    KeptIfOpen(s, s', p, qos, hz);
    QueuedIsSentAt(p, qos, s'.now + 5 * hz);
    k, x := 0, Queued(Tried(p), qos, s'.now + 5 * hz);
    hide Submits, IsPut, SentAt, Queued, Tried;
    if qos > 0 {
      hide KeptIn;
      k := KeptIsPut(s.queue, s.due, Tried(p), qos, s'.now + 5 * hz);
    }
  }

  /** The transmission is a PUBLISH without DUP, for these arguments, and its bytes are read
      back as such where they can be. */
  ghost predicate AsPublished(t: Transmission, topic: seq<u8>, payload: seq<u8>, qos: nat, retain: bool) {
    && t.typ == 3 && QoSOf(t.flags) == qos && RetainOf(t.flags) == retain && !DupOf(t.flags)
    && Writer.ReadBackIff(Wire(t.typ, t.flags, t.body), topic, payload, qos, retain)
  }

  lemma PublicationIs(handle: nat, topic: seq<u8>, payload: seq<u8>, qos: nat, retain: bool, id: u16, serial: nat)
    requires CString(topic) && qos <= 2 && 5 + 2 + |topic| + 2 + |payload| < BODY_LIMIT && id == IdOf(serial)
    ensures AsPublished(Transmission(handle, PUBLISH, Writer.PublishFlags(qos, retain),
              Writer.PublishBody(topic, id, payload)), topic, payload, qos, retain)
    ensures |Writer.PublishBody(topic, id, payload)| == 2 + |topic| + 2 + |payload|
  {
    IdsDistinct(serial, serial);
    Writer.FlagsOfPublish(qos, retain);
    Writer.CallRoundTripIff(topic, payload, qos, retain, id);
  }

  /** What `Connect` does; FromApplication stands for no failure. */
  predicate Connects(s: Snap, s': Snap, failure: Reason, body: seq<u8>, keepAliveSeconds: u16, maxPacketSize: nat) {
    && s'.queue == [] && s'.due == [] && s'.store == [] && s.now <= s'.now
    && if failure != FromApplication then
         && (s'.status, s'.wire, s'.keepAlive, s'.nextId) == (Disconnected, s.wire, s.keepAlive, s.nextId)
         && s'.events == s.events + [OnDisconnect(failure)]
       else
         && s'.keepAlive == keepAliveSeconds && !s'.timerRunning
         && s'.wire == s.wire + (if MAX_LENGTH_FIXED_HEADER + |body| > maxPacketSize then []
                                 else [Transmission(NO_HANDLE, CONNECT, 0, body)])
         && if s'.status == Disconnected then s'.events == s.events + [OnDisconnect(SendFailed)]
            else s'.status == ConnectPending && s'.nextId == 1 && s'.events == s.events
  }

  predicate Disconnects(s: Snap, s': Snap, force: bool) {
    && s'.status == Disconnected && s'.queue == [] && s'.due == [] && s'.store == [] && s.now <= s'.now
    && s'.events == s.events + (if s.status != Disconnected then [OnDisconnect(FromApplication)] else [])
    && s'.wire == s.wire + if !force && s.status != Disconnected then [Transmission(NO_HANDLE, DISCONNECT, 0, [])]
                           else []
  }

  function AppOf(s: Snap): App {
    App(s.status, Keys(s.queue), s.store, s.events)
  }

  /** What `Receiver` does, if it leaves `pending` in the buffer.  On an open connection
      the packets `items` were handled; they are those of a run over `segments`, which
      the socket gave, one at each poll, up to the first poll that gave none, when
      nothing complete was left; and the callbacks, the status, the store and the queue
      are those for the packets.  Or the connection was closed behind them: for the
      verdict that ends the run, for the socket, or for one more packet. */
  ghost predicate Receives(c: Call, s: Snap, s': Snap, pending: seq<u8>, segments: seq<seq<u8>>,
                           items: seq<Streams.Item>, hz: nat) {
    && s.now <= s'.now && StaysOrdered(s.due, s.now, s'.due, s'.now + 5 * hz)
    && if s.status == Disconnected then
         s'.status == Disconnected && s'.events == s.events
       else if s'.status != Disconnected then
         && StillOpen(c, segments, items, pending, AppOf(s')) && LastGaveNone(c, segments, items)
         && c.next(pending).outcome.Waiting?
       else
         CutOff(c, segments, items, s'.events) && |items| <= |segments| <= |items| + 1
  }

  /** What `Sender` does if it reads the tick `tick`: see `Done` and `GivenUp`. */
  ghost predicate SendsDue(s: Snap, s': Snap, tick: nat, sent: seq<Transmission>, hz: nat) {
    && s.now <= tick <= s'.now && |s.queue| == |s.due| && s'.wire == s.wire + sent && (s.queue == [] ==> sent == [])
    && AllRetransmit(sent, s.queue)
    && StaysOrdered(s.due, s.now, s'.due, s'.now + 5 * hz)
    && var pass := Pass(s.queue, s.due, tick);
       if s'.status == s.status then
         s'.events == s.events && Done(pass, s'.now + 5 * hz, sent, s'.queue, s'.due)
       else
         && s'.status == Disconnected && s'.events == s.events + [OnDisconnect(SendFailed)]
         && GivenUp(pass, s'.now + 5 * hz, sent)
  }

  /** What `KeepAliveHandler` does if it reads the tick `tick`. */
  ghost predicate KeepsAlive(s: Snap, s': Snap, tick: nat, hz: nat) {
    && s.now <= tick <= s'.now && Thinned(s.due, s'.due)
    && if s.timerRunning && !After(s.timerElapsesAt, Wrap(tick)) then PingsOrCloses(s, s', hz) else Idles(s, s')
  }

  predicate Idles(s: Snap, s': Snap) {
    (s'.status, s'.timerRunning, s'.wire, s'.events) == (s.status, s.timerRunning, s.wire, s.events)
  }

  predicate PingsOrCloses(s: Snap, s': Snap, hz: nat) {
    if s.status == Connected then
      && s'.wire == s.wire + [Transmission(NO_HANDLE, PINGREQ, 0, [])]
      && if s'.status == Disconnected then s'.events == s.events + [OnDisconnect(SendFailed)]
         else
           && s'.status == WaitForPingResp && s'.timerRunning && s'.timerElapsesAt == Wrap(s'.now + 5 * hz)
           && s'.events == s.events
    else
      s'.status == Disconnected && s'.wire == s.wire && s'.events == s.events + [OnDisconnect(PingFailed)]
  }

  class MqttClient {
    const hz: nat
    const maxPacketSize: nat
    const maxTopic: nat
    const rx: ReceivePacket

    var socket: bool               // m_pSocket != 0
    var status: Status
    var keepAlive: u16
    var timerRunning: bool
    var timerElapsesAt: u32
    var nextId: u16
    var queue: seq<Packet>
    var store: seq<u16>

    // Not in the object: clock, heap, and records of what happened
    var now: nat                   // the clock, of which only Wrap(now) is seen
    var nextHandle: nat
    var live: set<nat>
    var allocations: nat           // identifiers taken since the last Connect
    var events: seq<Event>
    var wire: seq<Transmission>

    ghost var everConnected: bool
    ghost var due: seq<nat>        // scheduled times of the queue, unbounded

    constructor (hz: nat, maxPacketSize: nat, maxPacketsQueued: nat, maxTopic: nat, frameSize: nat)
      requires SizesOk(hz, maxPacketSize) && maxPacketsQueued >= 1
      ensures Valid() && fresh(rx) && fresh(rx.buffer) && status == Disconnected && due == []
    {
      this.hz, this.maxPacketSize, this.maxTopic := hz, maxPacketSize, maxTopic;
      rx := new ReceivePacket(maxPacketSize, maxPacketsQueued, frameSize);
      socket, status, queue, store := false, Disconnected, [], [];
      keepAlive, timerRunning, timerElapsesAt, nextId := *, *, *, *;   // not initialised
      now, nextHandle, live, allocations, events, wire := 0, 1, {}, 0, [], [];
      everConnected, due := false, [];
    }

    // ---------------------------------------------------------------------
    // The invariant, in parts that are each proved as a whole
    // ---------------------------------------------------------------------

    ghost predicate ConnectionOk()
      reads `socket, `status, `queue, `store, `everConnected, `nextId, `allocations
    {
      var inv := ConnectionInv(socket, status, everConnected, queue, store, nextId, allocations);
      SizesOk(hz, maxPacketSize) && inv
    }

    ghost predicate TimerOk()
      reads `everConnected, `status, `timerRunning, `keepAlive
    {
      var inv := TimerInv(status, timerRunning, keepAlive);
      everConnected ==> inv
    }

    ghost predicate QueueOk(extra: set<nat>)
      reads `queue, `due, `allocations, `live, `nextHandle
    {
      var inv := QueueInv(queue, due, allocations, live, extra, nextHandle);
      inv
    }

    ghost predicate ValidWith(extra: set<nat>)
      reads `socket, `status, `queue, `store, `everConnected, `nextId, `allocations
      reads `timerRunning, `keepAlive, `due, `live, `nextHandle
    {
      ConnectionOk() && TimerOk() && QueueOk(extra)
    }

    ghost predicate Valid()
      reads this, rx
    {
      ValidWith({}) && rx.Valid()
    }

    ghost function Shot(): Snap
      reads this
    {
      Snap(status, keepAlive, timerRunning, timerElapsesAt, nextId, queue, due, store, now, nextHandle, allocations,
        events, wire)
    }

    predicate IsConnected()
      reads this
    {
      status == Connected || status == WaitForPingResp
    }

    // ---------------------------------------------------------------------
    // Clock and heap
    // ---------------------------------------------------------------------

    method GetTicks() returns (ticks: u32)
      modifies `now
      ensures now >= old(now) && ticks == Wrap(now)
    {
      var passed: nat :| passed >= 0;
      now := now + passed;
      ticks := Wrap(now);
    }

    method Allocate(typ: u4, flags: u4, body: seq<u8>, id: u16, serial: nat) returns (p: Packet)
      requires QueueOk({})
      modifies `nextHandle, `live
      ensures p == NewPacket(old(nextHandle), typ, flags, body, maxPacketSize, id, serial)
      ensures QueueOk({p.handle})
    {
      p := NewPacket(nextHandle, typ, flags, body, maxPacketSize, id, serial);
      AllocateInv(queue, due, allocations, live, nextHandle);
      live, nextHandle := live + {nextHandle}, nextHandle + 1;
    }

    method Delete(p: Packet)
      requires QueueOk({p.handle})
      modifies `live
      ensures QueueOk({})
    {
      assert {} + {p.handle} == {p.handle};
      DeleteInv(queue, due, allocations, live, {}, nextHandle, p.handle);
      live := live - {p.handle};
    }

    // ---------------------------------------------------------------------
    // Sending
    // ---------------------------------------------------------------------

    /** `SendPacket`: hands the packet to the socket and keeps the keep-alive timer. */
    method SendPacket(p: Packet) returns (ok: bool, q: Packet)
      requires ConnectionOk() && TimerOk()
      requires Ordinary(p.typ) || p.typ == PINGREQ || p.typ == DISCONNECT
      requires p.typ == PINGREQ && status != Disconnected ==> keepAlive > 0 && status == Connected && !timerRunning
      requires p.error || |p.body| < BODY_LIMIT
      modifies `now, `status, `timerRunning, `timerElapsesAt, `wire
      ensures ConnectionOk() && TimerOk() && now >= old(now)
      ensures var handsOver := old(status) != Disconnected && Sendable(p);
              && (ok ==> handsOver)
              && q == (if handsOver then Tried(p) else p)
              && wire == old(wire) + if handsOver then [Shown(p)] else []
      ensures status == if ok && p.typ == PINGREQ then WaitForPingResp else old(status)
      ensures ok && p.typ == PINGREQ ==> timerRunning && timerElapsesAt == Wrap(now + 5 * hz)
      ensures ok && Ordinary(p.typ) && status == Connected && keepAlive > 0 ==>
                timerRunning && timerElapsesAt == Wrap(now + keepAlive * hz)
      ensures !ok || p.typ == DISCONNECT || (Ordinary(p.typ) && (status != Connected || keepAlive == 0)) ==>
                timerRunning == old(timerRunning) && timerElapsesAt == old(timerElapsesAt)
    {
      q := p;
      if status == Disconnected {
        return false, q;
      }
      assert socket;
      if !Sendable(p) {
        return false, q;
      }
      q := Tried(p);
      wire := wire + [Shown(p)];
      ok := *;
      if !ok {
        return;
      }
      if Ordinary(p.typ) {
        if status == Connected && keepAlive > 0 {
          var ticks := GetTicks();
          timerElapsesAt := Later(ticks, Seconds(keepAlive, hz), now);
          timerRunning := true;
        }
      } else if p.typ == PINGREQ {
        assert keepAlive > 0 && status == Connected;
        status := WaitForPingResp;
        assert !timerRunning;
        var ticks := GetTicks();
        timerElapsesAt := Later(ticks, 5 * hz, now);
        timerRunning := true;
      }
    }

    // ---------------------------------------------------------------------
    // The retransmission queue
    // ---------------------------------------------------------------------

    method InsertPacketIntoQueue(p: Packet, qos: nat, t: u32, ghost when: nat)
      requires QueueOk({p.handle}) && MayQueue(queue, p.(qos := qos), allocations) && t == Wrap(when)
      modifies `queue, `due
      ensures |old(queue)| == |old(due)|
      ensures (queue, due)
              == (Insert(old(queue), Queued(p, qos, when)), InsertAt(old(due), Slot(old(queue), Wrap(when)), when))
      ensures Filed(old(due), due, when)
      ensures QueueOk({})
    {
      var slot := FindSlot(t);
      InsertInv(queue, due, allocations, live, nextHandle, Queued(p, qos, when), when);
      InsertIsAtSlot(queue, Queued(p, qos, when));
      InsertFiles(due, slot, when);
      queue := queue[..slot] + [p.(qos := qos, time := t)] + queue[slot..];
      due := InsertAt(due, slot, when);
    }

    /** The loop of `InsertPacketIntoQueue`. */
    method FindSlot(t: u32) returns (slot: nat)
      ensures slot == Slot(queue, t)
    {
      slot := 0;
      while slot < |queue| && !After(queue[slot].time, t)
        invariant slot <= |queue|
        invariant Slot(queue, t) == slot + Slot(queue[slot..], t)
      {
        assert queue[slot..][1..] == queue[slot + 1..];
        slot := slot + 1;
      }
    }

    method RemovePacketFromQueue(id: u16) returns (found: bool, p: Packet)
      requires QueueOk({})
      modifies `queue, `due
      ensures var k := Find(old(queue), id);
              && (found <==> k < |old(queue)|)
              && (if found then p == old(queue)[k] && |old(due)| == |old(queue)|
                                && (queue, due) == (RemoveAt(old(queue), k), RemoveAt(old(due), k))
                  else (queue, due) == (old(queue), old(due)))
      ensures QueueOk(if found then {p.handle} else {})
      ensures found ==> MayQueue(queue, p, allocations)
      ensures Thinned(old(due), due)
    {
      var k := FindIdentifier(id);
      if k == |queue| {
        return false, NewPacket(NO_HANDLE, PUBLISH, 0, [], 0, 0, 0);
      }
      p := queue[k];
      RemoveInv(queue, due, allocations, live, {}, nextHandle, k);
      RemoveThins(due, k);
      assert {} + {p.handle} == {p.handle};
      queue, due := queue[..k] + queue[k + 1..], RemoveAt(due, k);
      return true, p;
    }

    /** The loop of `RemovePacketFromQueue`. */
    method FindIdentifier(id: u16) returns (k: nat)
      ensures k == Find(queue, id)
    {
      k := 0;
      while k < |queue| && queue[k].id != id
        invariant k <= |queue|
        invariant Find(queue, id) == k + Find(queue[k..], id)
      {
        assert queue[k..][1..] == queue[k + 1..];
        k := k + 1;
      }
    }

    method CleanupQueue(ghost extra: set<nat>)
      requires QueueOk(extra)
      modifies `queue, `due, `live
      ensures queue == [] && due == [] && QueueOk(extra)
    {
      while queue != []
        invariant QueueOk(extra)
        decreases |queue|
      {
        DropFront(extra);
      }
    }

    method DropFront(ghost extra: set<nat>)
      requires QueueOk(extra) && queue != []
      modifies `queue, `due, `live
      ensures QueueOk(extra) && |queue| == |old(queue)| - 1
    {
      var p := queue[0];
      RemoveInv(queue, due, allocations, live, extra, nextHandle, 0);
      queue, due := queue[1..], RemoveAt(due, 0);
      DeleteInv(queue, due, allocations, live, extra, nextHandle, p.handle);
      live := live - {p.handle};
    }

    // ---------------------------------------------------------------------
    // Closing
    // ---------------------------------------------------------------------

    /** `extra` is on the heap outside the queue while the connection is closed. */
    method CloseConnection(reason: Reason, ghost extra: set<nat>)
      requires ConnectionOk() && QueueOk(extra) && (status == Disconnected ==> TimerOk())
      modifies `status, `timerRunning, `queue, `due, `live, `store, `socket, `events
      ensures ValidWith(extra) && status == Disconnected && due == []
      ensures events == old(events) + if old(status) != Disconnected then [OnDisconnect(reason)] else []
    {
      if status == Disconnected {
        return;
      }
      status, timerRunning := Disconnected, false;
      CleanupQueue(extra);
      while store != []
        modifies `store
      {
        store := store[1..];
      }
      assert socket;
      socket := false;
      events := events + [OnDisconnect(reason)];
    }

    // ---------------------------------------------------------------------
    // Publishing and subscribing
    // ---------------------------------------------------------------------

    /** A packet that may be sent and then queued at QoS `qos`. */
    ghost predicate Submittable(p: Packet, qos: nat)
      reads this
    {
      && Queueable(p.typ) && (!p.error ==> |p.body| < BODY_LIMIT) && qos <= 2
      && (status != Disconnected && !p.error && qos > 0 ==> MayQueue(queue, p.(qos := qos), allocations))
    }

    /** Schedule a packet for retransmission in five seconds. */
    method Schedule(p: Packet, qos: nat)
      requires QueueOk({p.handle}) && MayQueue(queue, p.(qos := qos), allocations)
      modifies `now, `queue, `due
      ensures QueueOk({}) && now >= old(now)
      ensures var when := now + 5 * hz;
              (queue, due)
              == (Insert(old(queue), Queued(p, qos, when)), InsertAt(old(due), Slot(old(queue), Wrap(when)), when))
      ensures Filed(old(due), due, now + 5 * hz)
    {
      hide Filed, Insert, MayQueue;
      var ticks := GetTicks();
      var t := Later(ticks, 5 * hz, now);
      InsertPacketIntoQueue(p, qos, t, now + 5 * hz);
    }

    /** Send a heap packet; if that fails, delete it and close the connection. */
    method SendOrGiveUp(p: Packet) returns (ok: bool, q: Packet)
      requires ValidWith({p.handle}) && Queueable(p.typ) && (!p.error ==> |p.body| < BODY_LIMIT)
      modifies `now, `status, `timerRunning, `timerElapsesAt, `wire, `queue, `due, `live, `store, `socket, `events
      ensures ValidWith(if ok then {p.handle} else {}) && now >= old(now)
      ensures wire == old(wire) + if old(status) != Disconnected && Sendable(p) then [Shown(p)] else []
      ensures ok ==> Sendable(p) && q == Tried(p) && status == old(status) && status != Disconnected
      ensures ok ==> queue == old(queue) && due == old(due) && store == old(store) && events == old(events)
      ensures !ok ==> status == Disconnected && due == []
      ensures !ok ==> events == old(events) + if old(status) != Disconnected then [OnDisconnect(SendFailed)] else []
    {
      hide MayQueue, WellQueued;
      ok, q := SendPacket(p);
      if !ok {
        Delete(q);
        CloseConnection(SendFailed, {});
      }
    }

    /** Keep a packet that was sent for retransmission, or delete it. */
    method Keep(p: Packet, qos: nat)
      requires QueueOk({p.handle}) && (qos > 0 ==> MayQueue(queue, p.(qos := qos), allocations))
      modifies `now, `queue, `due, `live
      ensures QueueOk({}) && now >= old(now)
      ensures (queue, due) == KeptIn(old(queue), old(due), p, qos, now + 5 * hz)
      ensures Filed(old(due), due, now + 5 * hz)
    {
      if qos > 0 {
        Schedule(p, qos);
      } else {
        Delete(p);
      }
    }

    /** The common end of `Publish`, `Subscribe`, `Unsubscribe` and the handling of
        PUBREC: send the packet; then keep it for retransmission, or delete it. */
    method Submit(p: Packet, qos: nat) returns (ok: bool)
      requires ValidWith({p.handle}) && Submittable(p, qos)
      modifies `now, `status, `timerRunning, `timerElapsesAt, `wire, `queue, `due, `live, `store, `socket, `events
      ensures ValidWith({}) && now >= old(now)
      ensures wire == old(wire) + if old(status) != Disconnected && Sendable(p) then [Shown(p)] else []
      ensures if ok then Sendable(p) && status == old(status) && status != Disconnected else status == Disconnected
      ensures ok ==> store == old(store) && events == old(events)
      ensures |old(queue)| == |old(due)|
      ensures ok ==> (queue, due) == KeptIn(old(queue), old(due), Tried(p), qos, now + 5 * hz)
      ensures !ok ==> events == old(events) + if old(status) != Disconnected then [OnDisconnect(SendFailed)] else []
      ensures Filed(old(due), due, now + 5 * hz)
    {
      hide KeptIn, Filed;
      var q;
      ok, q := SendOrGiveUp(p);
      if ok {
        Keep(q, qos);
      } else {
        NothingFiled(old(due), now + 5 * hz);
      }
    }

    method TakeIdentifier() returns (id: u16, serial: nat)
      requires ConnectionOk() && QueueOk({})
      modifies `nextId, `allocations
      ensures ConnectionOk() && QueueOk({})
      ensures id == old(nextId) && serial == old(allocations) && nextId == NextId(id) && allocations == serial + 1
      ensures status != Disconnected ==> id == IdOf(serial)
      ensures forall x <- queue :: x.serial != serial
    {
      id, serial := nextId, allocations;
      CountInv(queue, due, allocations, live, {}, nextHandle);
      nextId, allocations := NextId(nextId), allocations + 1;
    }

    twostate predicate Submitted(p: Packet, qos: nat)
      requires |old(queue)| == |old(due)|
      reads this
    {
      Submits(old(Shot()), Shot(), p, qos, hz)
    }

    method SubmitNew(typ: u4, flags: u4, body: seq<u8>, qos: nat, id: u16, serial: nat)
      requires ValidWith({}) && Queueable(typ) && typ != PUBREL && qos <= 2 && RightQoS(typ, qos)
      requires serial < allocations && (status != Disconnected ==> id == IdOf(serial))
      requires forall x <- queue :: x.serial != serial
      modifies `now, `status, `timerRunning, `timerElapsesAt, `wire, `queue, `due, `live, `store, `socket, `events
      modifies `nextHandle
      ensures ValidWith({})
      ensures Submitted(NewPacket(old(nextHandle), typ, flags, body, maxPacketSize, id, serial), qos)
    {
      hide Filed, KeptIn;
      var p := Allocate(typ, flags, body, id, serial);
      var ok := Submit(p, qos);
    }

    method Publish(topic: seq<u8>, payload: seq<u8>, qos: nat, retain: bool)
      requires Valid() && CString(topic) && qos <= 2
      modifies `now, `status, `timerRunning, `timerElapsesAt, `wire, `queue, `due, `live, `store, `socket, `events
      modifies `nextHandle, `nextId, `allocations
      ensures Valid()
      ensures Submitted(NewPacket(old(nextHandle), PUBLISH, Writer.PublishFlags(qos, retain),
                          Writer.PublishBody(topic, old(nextId), payload), maxPacketSize, old(nextId),
                          old(allocations)), qos)
      ensures nextId == NextId(old(nextId))
      ensures old(status) != Disconnected && 5 + 2 + |topic| + 2 + |payload| <= maxPacketSize ==>
                |wire| == |old(wire)| + 1 && AsPublished(wire[|old(wire)|], topic, payload, qos, retain)
    {
      hide Filed, KeptIn, AsPublished;
      var id, serial := TakeIdentifier();
      if status != Disconnected && 5 + 2 + |topic| + 2 + |payload| <= maxPacketSize {
        PublicationIs(nextHandle, topic, payload, qos, retain, id, serial);
      }
      SubmitNew(PUBLISH, Writer.PublishFlags(qos, retain), Writer.PublishBody(topic, id, payload), qos, id, serial);
    }

    method Subscribe(topic: seq<u8>, qos: nat)
      requires Valid() && CString(topic) && qos <= 2
      modifies `now, `status, `timerRunning, `timerElapsesAt, `wire, `queue, `due, `live, `store, `socket, `events
      modifies `nextHandle, `nextId, `allocations
      ensures Valid()
      ensures Submitted(NewPacket(old(nextHandle), SUBSCRIBE, 2, WordBytes(old(nextId)) + StringBytes(topic) + [qos],
                          maxPacketSize, old(nextId), old(allocations)), 1)
      ensures nextId == NextId(old(nextId))
    {
      var id, serial := TakeIdentifier();
      SubmitNew(SUBSCRIBE, 2, WordBytes(id) + StringBytes(topic) + [qos], 1, id, serial);
    }

    method Unsubscribe(topic: seq<u8>)
      requires Valid() && CString(topic)
      modifies `now, `status, `timerRunning, `timerElapsesAt, `wire, `queue, `due, `live, `store, `socket, `events
      modifies `nextHandle, `nextId, `allocations
      ensures Valid()
      ensures Submitted(NewPacket(old(nextHandle), UNSUBSCRIBE, 2, WordBytes(old(nextId)) + StringBytes(topic),
                          maxPacketSize, old(nextId), old(allocations)), 1)
      ensures nextId == NextId(old(nextId))
    {
      var id, serial := TakeIdentifier();
      SubmitNew(UNSUBSCRIBE, 2, WordBytes(id) + StringBytes(topic), 1, id, serial);
    }

    // ---------------------------------------------------------------------
    // Connecting
    // ---------------------------------------------------------------------

    /** `Connect`: `failure` says how the allocation of the topic buffer, name lookup,
        TLS setup and the TCP connection ended, `body` is the CONNECT packet's. */
    method Connect(failure: Reason, body: seq<u8>, keepAliveSeconds: u16)
      requires Valid() && status == Disconnected
      requires failure in {FromApplication, InsufficientResources, DNSError, SSLSetupFailed, ConnectFailed}
      modifies this, rx
      ensures Valid()
      ensures Connects(old(Shot()), Shot(), failure, body, keepAliveSeconds, maxPacketSize)
      ensures rx.Pending() == if failure == FromApplication then [] else old(rx.Pending())
    {
      if failure != FromApplication {
        events := events + [OnDisconnect(failure)];
        return;
      }
      Open(keepAliveSeconds);
      SendConnect(body);
    }

    /** The CONNECT packet is sent, or the connection is closed again. */
    method SendConnect(body: seq<u8>)
      requires Valid() && status == ConnectPending && !timerRunning && queue == [] && due == [] && store == []
      modifies `now, `status, `timerRunning, `timerElapsesAt, `wire, `queue, `due, `live, `store, `socket, `events
      ensures Valid() && now >= old(now) && queue == [] && due == [] && store == [] && !timerRunning
      ensures wire == old(wire) + if MAX_LENGTH_FIXED_HEADER + |body| > maxPacketSize then []
                                  else [Transmission(NO_HANDLE, CONNECT, 0, body)]
      ensures if status == Disconnected then events == old(events) + [OnDisconnect(SendFailed)]
              else status == ConnectPending && events == old(events)
    {
      var ok, p := SendPacket(NewPacket(NO_HANDLE, CONNECT, 0, body, maxPacketSize, 0, 0));
      if !ok {
        CloseConnection(SendFailed, {});
      }
    }

    /** The socket is connected: set the fields up. */
    method Open(keepAliveSeconds: u16)
      requires Valid() && status == Disconnected
      modifies `socket, `everConnected, `keepAlive, `timerRunning, `nextId, `allocations, `status, rx
      ensures Valid() && status == ConnectPending && !timerRunning && keepAlive == keepAliveSeconds && nextId == 1
      ensures rx.Pending() == [] && queue == [] && due == [] && store == []
    {
      assert !socket && queue == [];
      socket, everConnected := true, true;
      keepAlive, timerRunning, nextId, allocations := keepAliveSeconds, false, 1, 0;
      rx.Reset();
      status := ConnectPending;
    }

    method Disconnect(force: bool)
      requires Valid()
      modifies `now, `status, `timerRunning, `timerElapsesAt, `wire, `queue, `due, `live, `store, `socket, `events
      ensures Valid() && Disconnects(old(Shot()), Shot(), force)
    {
      if !force {
        var ok, p := SendPacket(NewPacket(NO_HANDLE, DISCONNECT, 0, [], 128, 0, 0));
      }
      CloseConnection(FromApplication, {});
    }

    // ---------------------------------------------------------------------
    // Keep alive (section 3.1.2.10 of MQTT v3.1.1)
    // ---------------------------------------------------------------------

    /** An elapsed timer, and no other, sends a PINGREQ or, while a PINGRESP is
        awaited, closes.  `sampled` is the time of the tick read.  If the timer was set
        to elapse at `deadline` and that is not too far away, then it has elapsed exactly
        at and behind that time. */
    method KeepAliveHandler(ghost deadline: nat) returns (ghost sampled: nat)
      requires Valid() && everConnected
      modifies `now, `status, `timerRunning, `timerElapsesAt, `wire, `queue, `due, `live, `store, `socket, `events
      ensures Valid() && KeepsAlive(old(Shot()), Shot(), sampled, hz)
      ensures old(timerRunning) && old(timerElapsesAt) == Wrap(deadline) && Close(deadline, sampled) ==>
                if sampled >= deadline then PingedOrClosed() else Idled()
    {
      sampled := now;
      if !timerRunning {
        return;
      }
      var ticks := GetTicks();
      sampled := now;
      if Close(deadline, sampled) {
        AfterIsLater(deadline, sampled);
      }
      if After(timerElapsesAt, ticks) {
        return;
      }
      TimerElapsed();
    }

    twostate predicate Idled()
      reads this
    {
      Idles(old(Shot()), Shot())
    }

    twostate predicate PingedOrClosed()
      reads this
    {
      PingsOrCloses(old(Shot()), Shot(), hz)
    }

    /** The assertion of the source holds: the timer runs only while connected, and
        while a PINGRESP is awaited there is no other state to be in. */
    method TimerElapsed()
      requires Valid() && everConnected && timerRunning
      modifies `now, `status, `timerRunning, `timerElapsesAt, `wire, `queue, `due, `live, `store, `socket, `events
      ensures Valid() && now >= old(now) && Thinned(old(due), due)
      ensures PingedOrClosed()
    {
      hide QueueInv;
      timerRunning := false;
      if status == Connected {
        var ok, p := SendPacket(NewPacket(NO_HANDLE, PINGREQ, 0, [], 128, 0, 0));
        if !ok {
          CloseConnection(SendFailed, {});
        }
      } else {
        assert status == WaitForPingResp;
        CloseConnection(PingFailed, {});
      }
    }

    // ---------------------------------------------------------------------
    // Received packets
    // ---------------------------------------------------------------------

    method HandleConnAck(ackFlags: u8, code: u8)
      requires ValidWith({}) && status != Disconnected
      modifies `status, `timerRunning, `queue, `due, `live, `store, `socket, `events
      ensures ValidWith({}) && Thinned(old(due), due)
      ensures if old(status) == ConnectPending && code == 0 then
                && status == Connected && store == old(store) && queue == old(queue) && due == old(due)
                && events == old(events) + [OnConnect(ackFlags % 2 == 1)]
              else
                status == Disconnected && events == old(events) +
                  [OnDisconnect(if old(status) != ConnectPending then InvalidPacket else RefusalReason(code))]
    {
      if status != ConnectPending {
        CloseConnection(InvalidPacket, {});
      } else if code == 0 {
        status := Connected;
        events := events + [OnConnect(ackFlags % 2 == 1)];
      } else {
        CloseConnection(RefusalReason(code), {});
      }
    }

    /** Send an acknowledgement that carries an identifier; close if that fails. */
    method Acknowledge(typ: u4, id: u16) returns (ok: bool)
      requires ValidWith({}) && status != Disconnected && typ in {PUBACK, PUBREC, PUBCOMP}
      modifies `now, `status, `timerRunning, `timerElapsesAt, `wire, `queue, `due, `live, `store, `socket, `events
      ensures ValidWith({}) && now >= old(now) && Thinned(old(due), due)
      ensures wire == old(wire) + [Transmission(NO_HANDLE, typ, 0, WordBytes(id))]
      ensures if ok then
                && status == old(status) && queue == old(queue) && due == old(due)
                && store == old(store) && events == old(events)
              else status == Disconnected && events == old(events) + [OnDisconnect(SendFailed)]
    {
      var p;
      ok, p := SendPacket(NewPacket(NO_HANDLE, typ, 0, WordBytes(id), 128, 0, 0));
      if !ok {
        CloseConnection(SendFailed, {});
      }
    }

    /** PUBLISH at QoS 0 and 1: the message goes to the application, at QoS 1 once
        it is acknowledged. */
    method HandlePublish(flags: u4, topic: seq<u8>, id: u16, payload: seq<u8>)
      requires ValidWith({}) && status != Disconnected && QoSOf(flags) <= 1
      modifies `now, `status, `timerRunning, `timerElapsesAt, `wire, `queue, `due, `live, `store, `socket, `events
      ensures ValidWith({}) && now >= old(now) && Thinned(old(due), due)
      ensures wire == old(wire) + if QoSOf(flags) == 0 then [] else [Transmission(NO_HANDLE, PUBACK, 0, WordBytes(id))]
      ensures if status != Disconnected then
                && status == old(status) && store == old(store) && queue == old(queue) && due == old(due)
                && events == old(events) + [OnMessage(topic, payload, RetainOf(flags))]
              else
                QoSOf(flags) == 1 && events == old(events) + [OnDisconnect(SendFailed)]
    {
      if QoSOf(flags) == 1 {
        var ok := Acknowledge(PUBACK, id);
        if !ok {
          return;
        }
      }
      events := events + [OnMessage(topic, payload, RetainOf(flags))];
    }

    /** PUBLISH at QoS 2: answered with PUBREC, and passed on unless the identifier
        is in the store. */
    method HandlePublish2(flags: u4, topic: seq<u8>, id: u16, payload: seq<u8>)
      requires ValidWith({}) && status != Disconnected && QoSOf(flags) == 2
      modifies `now, `status, `timerRunning, `timerElapsesAt, `wire, `queue, `due, `live, `store, `socket, `events
      ensures ValidWith({}) && now >= old(now) && Thinned(old(due), due)
      ensures wire == old(wire) + [Transmission(NO_HANDLE, PUBREC, 0, WordBytes(id))]
      ensures if status != Disconnected then
                && status == old(status) && store == Remembered(old(store), id)
                && queue == old(queue) && due == old(due)
                && events == old(events) + if Fresh(old(store), id) then [OnMessage(topic, payload, RetainOf(flags))]
                                           else []
              else
                events == old(events) + [OnDisconnect(SendFailed)]
    {
      var ok := Acknowledge(PUBREC, id);
      if !ok {
        return;
      }
      if id !in store {
        store := [id] + store;
        events := events + [OnMessage(topic, payload, RetainOf(flags))];
      }
    }

    /** PUBACK, PUBCOMP, UNSUBACK, SUBACK once its return code is checked, and the
        first part of PUBREC: the packet with the identifier is done; none, or one
        of another QoS, is an error.  `serial` is that of the packet. */
    method HandleAck(id: u16, qos: nat) returns (ok: bool, serial: nat)
      requires ValidWith({}) && status != Disconnected
      modifies `status, `timerRunning, `queue, `due, `live, `store, `socket, `events
      ensures ValidWith({}) && Thinned(old(due), due)
      ensures var k := Find(old(queue), id);
              && (ok <==> k < |old(queue)| && old(queue)[k].qos == qos)
              && (ok ==> |old(due)| == |old(queue)| && (queue, due) == (RemoveAt(old(queue), k), RemoveAt(old(due), k)))
              && (ok ==> serial == old(queue)[k].serial)
      ensures ok ==> serial < allocations && id == IdOf(serial) && forall x <- queue :: x.serial != serial
      ensures if ok then status == old(status) && store == old(store) && events == old(events)
              else status == Disconnected && events == old(events) + [OnDisconnect(PacketIdentifier)]
    {
      var found, p := RemovePacketFromQueue(id);
      ok, serial := found && p.qos == qos, p.serial;
      if !ok {
        CloseConnection(PacketIdentifier, if found then {p.handle} else {});
      }
      if found {
        Delete(p);
      }
    }

    /** PUBREC: the PUBLISH is replaced by a PUBREL with the same identifier. */
    method HandlePubRec(id: u16)
      requires ValidWith({}) && status != Disconnected
      modifies `now, `status, `timerRunning, `timerElapsesAt, `wire, `queue, `due, `live, `store, `socket, `events
      modifies `nextHandle
      ensures ValidWith({}) && now >= old(now) && Filed(old(due), due, now + 5 * hz)
      ensures var k := Find(old(queue), id);
              if k < |old(queue)| && old(queue)[k].qos == 2 then
                && |old(due)| == |old(queue)|
                && Replaced(RemoveAt(old(queue), k), RemoveAt(old(due), k),
                     Release(old(nextHandle), id, old(queue)[k].serial))
              else
                status == Disconnected && wire == old(wire) && events == old(events) + [OnDisconnect(PacketIdentifier)]
    {
      hide Filed, QueueInv, ConnectionInv, TimerInv;
      var ok, serial := HandleAck(id, 2);
      ghost var d := due;
      if ok {
        SendRelease(id, serial);
        ThinnedThenFiled(old(due), d, due, now + 5 * hz);
      } else {
        ThinnedIsFiled(old(due), d, now + 5 * hz);
      }
    }

    /** The PUBREL `rel` was sent and put into the queue `q`, or sending it failed. */
    twostate predicate Replaced(q: seq<Packet>, d: seq<nat>, rel: Packet)
      requires |q| == |d|
      reads this
    {
      && wire == old(wire) + [Shown(rel)]
      && if status != Disconnected then
           && status == old(status) && store == old(store) && events == old(events)
           && (queue, due) == KeptIn(q, d, Tried(rel), 2, now + 5 * hz)
         else events == old(events) + [OnDisconnect(SendFailed)]
    }

    method SendRelease(id: u16, serial: nat)
      requires ValidWith({}) && status != Disconnected
      requires serial < allocations && id == IdOf(serial) && forall x <- queue :: x.serial != serial
      modifies `now, `status, `timerRunning, `timerElapsesAt, `wire, `queue, `due, `live, `store, `socket, `events
      modifies `nextHandle
      ensures ValidWith({}) && now >= old(now) && Filed(old(due), due, now + 5 * hz)
      ensures Replaced(old(queue), old(due), Release(old(nextHandle), id, serial))
    {
      var rel := Allocate(PUBREL, 2, WordBytes(id), id, serial);
      var ok := Submit(rel, 2);
    }

    method HandlePubRel(id: u16)
      requires ValidWith({}) && status != Disconnected
      modifies `now, `status, `timerRunning, `timerElapsesAt, `wire, `queue, `due, `live, `store, `socket, `events
      ensures ValidWith({}) && now >= old(now) && Thinned(old(due), due)
      ensures id == 0 ==>
                status == Disconnected && wire == old(wire) && events == old(events) + [OnDisconnect(InvalidPacket)]
      ensures id != 0 ==> wire == old(wire) + [Transmission(NO_HANDLE, PUBCOMP, 0, WordBytes(id))]
      ensures id != 0 ==>
                if status != Disconnected then
                  && status == old(status) && store == Forgotten(old(store), id)
                  && queue == old(queue) && due == old(due) && events == old(events)
                else events == old(events) + [OnDisconnect(SendFailed)]
    {
      if id == 0 {
        CloseConnection(InvalidPacket, {});
        return;
      }
      var ok := Acknowledge(PUBCOMP, id);
      if ok {
        ForgottenMembers(store, id);
        store := Forgotten(store, id);
      }
    }

    /** PINGRESP connects from any state, and restarts the keep-alive timer. */
    method HandlePingResp()
      requires ValidWith({}) && status != Disconnected
      modifies `now, `status, `timerRunning, `timerElapsesAt
      ensures ValidWith({}) && status == Connected && now >= old(now) && Thinned(old(due), due)
      ensures keepAlive > 0 ==> timerRunning && timerElapsesAt == Wrap(now + keepAlive * hz)
    {
      status := Connected;
      if keepAlive > 0 {
        var ticks := GetTicks();
        timerElapsesAt := Later(ticks, Seconds(keepAlive, hz), now);
        timerRunning := true;
      }
    }

    /** What handling a packet does, from the state before it: it is refused, for a reason
        that the state gives; or it is answered and has its effect; or sending the
        answer fails. */
    twostate predicate Handled(m: Message)
      reads this
    {
      match RefusalOf(old(status), old(queue), m)
      case Refused(reason) =>
        status == Disconnected && wire == old(wire) && events == old(events) + [OnDisconnect(reason)]
      case Accepted =>
        && wire == old(wire) + AnswerTo(m, old(nextHandle))
        && if status != Disconnected then
             && AppNow() == AppAfter(old(AppNow()), m) && |old(queue)| == |old(due)|
             && (!m.PubRec? ==> (queue, due) == QueueAfter(old(queue), old(due), m))
             && (m.PingResp? && keepAlive > 0 ==> timerRunning && timerElapsesAt == Wrap(now + keepAlive * hz))
           else AnswerTo(m, 0) != [] && events == old(events) + [OnDisconnect(SendFailed)]
    }

    ghost function AppNow(): App
      reads this
    {
      AppOf(Shot())
    }

    /** The switch of `Receiver`. */
    method Handle(m: Message)
      requires ValidWith({}) && status != Disconnected && (m.Publish? ==> QoSOf(m.flags) <= 2)
      modifies `now, `status, `timerRunning, `timerElapsesAt, `wire, `queue, `due, `live, `store, `socket, `events
      modifies `nextHandle
      ensures ValidWith({}) && now >= old(now) && Filed(old(due), due, now + 5 * hz)
      ensures Handled(m)
    {
      hide Filed, Thinned, QueueInv, ConnectionInv, TimerInv, RefusalOf, AppAfter, AnswerTo, Keys;
      match m {
        case Publish(_, _, _, _) => HandleMessage(m);
        case PubRec(_) => HandleReceipt(m);
        case ConnAck(_, _) => HandleOther(m);
        case PubRel(_) => HandleOther(m);
        case PingResp => HandleOther(m);
        case _ => HandleReply(m);
      }
      if !m.PubRec? {
        ThinnedIsFiled(old(due), due, now + 5 * hz);
      }
    }

    /** Its cases that concern the connection, and PUBREL. */
    method HandleOther(m: Message)
      requires ValidWith({}) && status != Disconnected && (m.ConnAck? || m.PubRel? || m.PingResp?)
      modifies `now, `status, `timerRunning, `timerElapsesAt, `wire, `queue, `due, `live, `store, `socket, `events
      ensures ValidWith({}) && now >= old(now) && Thinned(old(due), due)
      ensures Handled(m)
    {
      assert |queue| == |due|;
      hide Thinned, QueueInv, ConnectionInv, TimerInv, Keys;
      if m.ConnAck? {
        HandleConnAck(m.ackFlags, m.code);
      } else if m.PubRel? {
        HandlePubRel(m.id);
      } else {
        HandlePingResp();
      }
    }

    /** Its case for PUBLISH. */
    method HandleMessage(m: Message)
      requires ValidWith({}) && status != Disconnected && m.Publish? && QoSOf(m.flags) <= 2
      modifies `now, `status, `timerRunning, `timerElapsesAt, `wire, `queue, `due, `live, `store, `socket, `events
      ensures ValidWith({}) && now >= old(now) && Thinned(old(due), due)
      ensures Handled(m)
    {
      assert |queue| == |due|;
      hide Thinned, QueueInv, ConnectionInv, TimerInv;
      if QoSOf(m.flags) == 2 {
        HandlePublish2(m.flags, m.topic, m.id, m.payload);
      } else {
        HandlePublish(m.flags, m.topic, m.id, m.payload);
      }
    }

    /** Its cases for the last answers to the client's own packets. */
    method HandleReply(m: Message)
      requires ValidWith({}) && status != Disconnected
      requires m.PubAck? || m.PubComp? || m.SubAck? || m.UnsubAck?
      modifies `status, `timerRunning, `queue, `due, `live, `store, `socket, `events
      ensures ValidWith({}) && Thinned(old(due), due)
      ensures Handled(m)
    {
      hide Filed, Thinned, QueueInv, ConnectionInv, TimerInv, Keys, AppAfter;
      match m {
        case PubAck(id) => HandleAnswer(m, id, 1);
        case PubComp(id) => HandleAnswer(m, id, 2);
        case SubAck(id, code) =>
          if code > 2 {
            CloseConnection(SubscribeError, {});
            NothingFiled(old(due), now);
          } else {
            HandleAnswer(m, id, 1);
          }
        case UnsubAck(id) => HandleAnswer(m, id, 1);
      }
    }

    /** The answer `m` is for the packet with this identifier and QoS. */
    method HandleAnswer(m: Message, id: u16, qos: nat)
      requires ValidWith({}) && status != Disconnected && Answers(m, id, qos)
      modifies `status, `timerRunning, `queue, `due, `live, `store, `socket, `events
      ensures ValidWith({}) && Thinned(old(due), due)
      ensures Handled(m)
    {
      hide Thinned, ConnectionInv, TimerInv, RefusalOf, AnswerTo, AppAfter, Keys, RemoveAt, QueueAfter;
      AnswerTaken(status, queue, Find(queue, id), store, events, m, id, qos);
      var _, _ := HandleAck(id, qos);
      assert old(wire) + [] == old(wire);
    }

    /** Its case for PUBREC. */
    method HandleReceipt(m: Message)
      requires ValidWith({}) && status != Disconnected && m.PubRec?
      modifies `now, `status, `timerRunning, `timerElapsesAt, `wire, `queue, `due, `live, `store, `socket, `events
      modifies `nextHandle
      ensures ValidWith({}) && now >= old(now) && Filed(old(due), due, now + 5 * hz)
      ensures Handled(m)
    {
      hide Filed, QueueInv, ConnectionInv, TimerInv, Keys;
      ghost var k := Find(queue, m.id);
      HandlePubRec(m.id);
      if status != Disconnected {
        ghost var rel := Release(old(nextHandle), m.id, old(queue)[k].serial);
        KeysReplace(old(queue), k, Queued(Tried(rel), 2, now + 5 * hz));
      }
    }

    /** The body of the receive loop. */
    method PollAndHandle(chunk: Chunk) returns (outcome: Streams.Outcome)
      requires ValidWith({}) && rx.Valid() && status != Disconnected && (chunk.Bytes? ==> |chunk.data| <= rx.frameSize)
      modifies `now, `status, `timerRunning, `timerElapsesAt, `wire, `queue, `due, `live, `store, `socket, `events
      modifies `nextHandle
      modifies rx, rx.buffer
      ensures ValidWith({}) && rx.Valid() && now >= old(now) && Filed(old(due), due, now + 5 * hz)
      ensures Streams.Poll(outcome, rx.Pending())
              == Streams.Polled(Framing.Client(maxTopic), old(rx.Pending()), rx.bufferSize - rx.frameSize, chunk)
      ensures match outcome
              case Waiting => AppNow() == old(AppNow()) && wire == old(wire)
              case Closing(reason) => status == Disconnected && events == old(events) + [OnDisconnect(ReasonOf(reason))]
              case Got(item) => Handled(item.message)
    {
      hide Filed, QueueInv, AppAfter, AnswerTo, RefusalOf, Keys, Framing.Client, Streams.Polled;
      Framing.PublishQoS(rx.Pending(), rx.bufferSize - rx.frameSize, chunk, maxTopic);
      outcome := Framing.PollSocket(rx, chunk, maxTopic);
      match outcome {
        case Waiting =>
          NothingFiled(old(due), now + 5 * hz);
        case Closing(reason) =>
          CloseConnection(ReasonOf(reason), {});
          NothingFiled(old(due), now + 5 * hz);
        case Got(item) =>
          Handle(item.message);
      }
    }

    /** Where a call of `Receiver` starts. */
    ghost function CallWith(chunks: seq<Chunk>): Call
      reads this, rx, rx.buffer
      requires rx.Valid()
    {
      Call(Framing.Client(maxTopic), rx.bufferSize - rx.frameSize, rx.Pending(), AppNow(), chunks)
    }

    /** `Receiver`, while the socket gives `chunks` and then nothing more. */
    method Receiver(chunks: seq<Chunk>) returns (ghost segments: seq<seq<u8>>, ghost items: seq<Streams.Item>)
      requires Valid() && forall c <- chunks :: c.Bytes? ==> |c.data| <= rx.frameSize
      modifies `now, `status, `timerRunning, `timerElapsesAt, `wire, `queue, `due, `live, `store, `socket, `events
      modifies `nextHandle, rx, rx.buffer
      ensures Valid() && Receives(old(CallWith(chunks)), old(Shot()), Shot(), rx.Pending(), segments, items, hz)
    {
      hide CutOff, StillOpen, LastGaveNone, QueueInv, StaysOrdered, Filed, Keys, TimerInv;
      segments, items := [], [];
      ghost var c := CallWith(chunks);
      CallStarts(c);
      NothingStays(now, due, now + 5 * hz);
      var more, k := socket, 0;
      while more && socket
        invariant ValidWith({}) && rx.Valid() && now >= old(now) && (socket ==> |segments| == k)
        invariant if old(status) == Disconnected then !socket && !more && events == old(events)
                  else if socket then StillOpen(c, segments, items, rx.Pending(), AppNow())
                  else CutOff(c, segments, items, events) && |items| <= |segments| <= |items| + 1
        invariant socket ==> if more then |segments| == |items|
                             else LastGaveNone(c, segments, items) && c.next(rx.Pending()).outcome.Waiting?
        invariant StaysOrdered(old(due), old(now), due, now + 5 * hz)
        decreases socket && more, if k < |chunks| then |chunks| - k else 0, |rx.Pending()|
      {
        ghost var d, n := due, now;
        more, segments, items := ReceiveNext(if k < |chunks| then chunks[k] else Chunk.Bytes([]), c, segments, items);
        k := k + 1;
        FiledStays(d, n, due, now + 5 * hz);
        StaysStays(old(due), old(now), d, n, n + 5 * hz, due, now + 5 * hz);
      }
    }

    /** One pass of the loop. */
    method ReceiveNext(chunk: Chunk, ghost c: Call, ghost segments: seq<seq<u8>>, ghost items: seq<Streams.Item>)
      returns (more: bool, ghost segments': seq<seq<u8>>, ghost items': seq<Streams.Item>)
      requires ValidWith({}) && rx.Valid() && status != Disconnected && (chunk.Bytes? ==> |chunk.data| <= rx.frameSize)
      requires c.next == Framing.Client(maxTopic) && c.room == rx.bufferSize - rx.frameSize
      requires chunk == ChunkAt(c.chunks, |segments|) && |segments| == |items|
      requires StillOpen(c, segments, items, rx.Pending(), AppNow())
      modifies `now, `status, `timerRunning, `timerElapsesAt, `wire, `queue, `due, `live, `store, `socket, `events
      modifies `nextHandle
      modifies rx, rx.buffer
      ensures ValidWith({}) && rx.Valid() && now >= old(now) && Filed(old(due), due, now + 5 * hz)
      ensures status != Disconnected ==> |segments'| == |segments| + 1
      ensures if status != Disconnected then StillOpen(c, segments', items', rx.Pending(), AppNow())
              else CutOff(c, segments', items', events) && |items'| <= |segments'| <= |items'| + 1
      ensures status != Disconnected ==> if more then |segments'| == |items'|
                                         else && LastGaveNone(c, segments', items')
                                              && c.next(rx.Pending()).outcome.Waiting?
      ensures more && chunk == Chunk.Bytes([]) ==> |rx.Pending()| < old(|rx.Pending()|)
    {
      hide CutOff, StillOpen, LastGaveNone, Filed, QueueInv, Keys, RefusalOf, AnswerTo;
      ghost var pending, app, q := rx.Pending(), AppNow(), queue;
      ghost var p := Streams.Polled(c.next, pending, c.room, chunk);
      Framing.ClientIsFramer(maxTopic);
      var outcome := PollAndHandle(chunk);
      more := outcome.Got?;
      segments', items' := if chunk.Bytes? then segments + [chunk.data] else segments, items;
      if chunk.SocketError? {
        SocketCloses(c, segments, items, pending, app, p);
      } else {
        match outcome {
          case Waiting =>
            PollWaits(c, segments, items, pending, app, chunk.data, p);
          case Closing(_) =>
            PollCloses(c, segments, items, pending, app, chunk.data, p);
          case Got(item) =>
            if status == Disconnected {
              PacketCloses(c, segments, items, pending, app, chunk.data, p, q);
            } else {
              PollGives(c, segments, items, pending, app, chunk.data, p);
              items' := items + [item];
            }
        }
      }
    }

    // ---------------------------------------------------------------------
    // Retransmission
    // ---------------------------------------------------------------------

    /** The packet at `i` leaves the queue. */
    method TakeOut(i: nat) returns (p: Packet)
      requires QueueOk({}) && i < |queue|
      modifies `queue, `due
      ensures p == old(queue)[i] && QueueOk({p.handle}) && MayQueue(queue, p, allocations)
      ensures |old(due)| == |old(queue)|
      ensures queue == RemoveAt(old(queue), i) && due == RemoveAt(old(due), i)
      ensures Sorted(old(due)) ==> Sorted(due)
    {
      p := queue[i];
      RemoveInv(queue, due, allocations, live, {}, nextHandle, i);
      assert {} + {p.handle} == {p.handle};
      queue, due := queue[..i] + queue[i + 1..], RemoveAt(due, i);
    }

    /** The packet goes back into the queue; the element at `i` is then at `next`. */
    method PutBack(p: Packet, i: nat) returns (next: nat)
      requires QueueOk({p.handle}) && MayQueue(queue, p, allocations) && i <= |queue|
      modifies `now, `queue, `due
      ensures QueueOk({}) && now >= old(now) && next <= |queue|
      ensures |old(due)| == |old(queue)| && (queue, due, next) == PutIn(old(queue), old(due), i, p, now + 5 * hz)
    {
      var ticks := GetTicks();
      var t := Later(ticks, 5 * hz, now);
      var slot := FindSlot(t);
      QueuedAsItIs(p, now + 5 * hz);
      InsertPacketIntoQueue(p, p.qos, t, now + 5 * hz);
      next := if slot <= i then i + 1 else i;
    }

    /** The packet that was at `i` in the queue `q` goes back. */
    method Reschedule(p: Packet, i: nat, ghost q: seq<Packet>, ghost d: seq<nat>) returns (next: nat)
      requires QueueOk({p.handle}) && MayQueue(queue, p, allocations)
      requires i < |q| == |d| && (queue, due) == (RemoveAt(q, i), RemoveAt(d, i)) && p == Again(q[i]) && q[i].tries > 0
      modifies `now, `queue, `due
      ensures QueueOk({}) && now >= old(now) && next <= |queue|
      ensures (queue, due, next) == Resent(q, d, i, now + 5 * hz) && Tries(queue) < Tries(q)
    {
      hide QueueInv, RemoveAt, PutIn, Insert, InsertAt;
      next := PutBack(p, i);
      Spent(q, d, i, now + 5 * hz, queue);
    }

    /** The packet at `i` is taken out of the queue and sent again, or that fails. */
    method SendDue(i: nat) returns (ok: bool, p: Packet)
      requires ValidWith({}) && i < |queue| && status != Disconnected
      modifies `now, `status, `timerRunning, `timerElapsesAt, `wire, `queue, `due, `live, `store, `socket, `events
      ensures ValidWith(if ok then {p.handle} else {}) && now >= old(now) && |old(due)| == |old(queue)|
      ensures wire == old(wire) + Sends(old(queue)[i])
      ensures if ok then old(queue)[i].tries > 0 && status == old(status) && events == old(events)
              else status == Disconnected && due == [] && events == old(events) + [OnDisconnect(SendFailed)]
      ensures ok ==> p == Again(old(queue)[i]) && MayQueue(queue, p, allocations)
      ensures ok ==> (queue, due) == (RemoveAt(old(queue), i), RemoveAt(old(due), i))
    {
      p := TakeOut(i);
      ok, p := SendOrGiveUp(Marked(p));
    }

    /** One call of `Sender`.  It ends whatever the clock does, for each send takes a
        try.  If the queue is in order and the live times are not too far from the ticks
        it reads, it sends exactly the packets due at the sampled tick, each once and in
        order; unless a send fails, the packets not due stay as they were and in order,
        those sent are queued again, nothing is lost or added, and nothing is due.  The
        queue stays in order. */
    method Sender() returns (ghost tick: nat, ghost sent: seq<Transmission>)
      requires ValidWith({})
      modifies `now, `status, `timerRunning, `timerElapsesAt, `wire, `queue, `due, `live, `store, `socket, `events
      ensures ValidWith({}) && SendsDue(old(Shot()), Shot(), tick, sent, hz)
    {
      hide Done, GivenUp, StaysOrdered, AllRetransmit;
      var ticks := GetTicks();
      tick := now;
      ghost var pass := Pass(queue, due, now);
      sent := SendAll(ticks, pass);
      if status == old(status) {
        DoneStaysOrdered(old(now), pass, now + 5 * hz, sent, queue, due);
      } else {
        NothingStays(old(now), old(due), now + 5 * hz);
      }
    }

    /** The loop of `Sender`. */
    method SendAll(ticks: u32, ghost pass: Pass) returns (ghost sent: seq<Transmission>)
      requires ValidWith({}) && pass == Pass(queue, due, pass.tick) && pass.tick <= now && ticks == Wrap(pass.tick)
      modifies `now, `status, `timerRunning, `timerElapsesAt, `wire, `queue, `due, `live, `store, `socket, `events
      ensures ValidWith({}) && now >= old(now) && wire == old(wire) + sent && (old(queue) == [] ==> sent == [])
      ensures AllRetransmit(sent, old(queue))
      ensures if status == old(status) then events == old(events) && Done(pass, now + 5 * hz, sent, queue, due)
              else && GivenUp(pass, now + 5 * hz, sent) && due == []
                   && status == Disconnected && events == old(events) + [OnDisconnect(SendFailed)]
    {
      hide Resent, Tries, GivenUp, Done, AllRetransmit;
      sent := [];
      var ok := true;
      var i: nat := 0;
      ghost var trace := Trace([Loop(queue, due, 0, [])], []);
      assert pass.Starts();
      while ok && i < |queue| && !After(queue[i].time, ticks)
        invariant ValidWith({}) && old(now) <= now && i <= |queue| && wire == old(wire) + sent
        invariant old(queue) == [] ==> queue == [] && sent == []
        invariant !ok ==> AllRetransmit(sent, pass.queue)
        invariant if ok then
                    && status == old(status) && events == old(events)
                    && Traced(pass, trace, now + 5 * hz) && trace.Last() == Loop(queue, due, i, sent)
                  else
                    && GivenUp(pass, now + 5 * hz, sent) && due == []
                    && status == Disconnected != old(status) && events == old(events) + [OnDisconnect(SendFailed)]
        decreases ok, Tries(queue)
      {
        ghost var one;
        ok, i, trace, one := SendTraced(i, pass, trace, sent);
        assert old(wire) + (sent + one) == old(wire) + sent + one;
        sent := sent + one;
      }
      if ok {
        LoopEnds(pass, trace, now + 5 * hz, Loop(queue, due, i, sent));
        LoopRetransmits(pass, trace, now + 5 * hz, |trace.ts|);
      }
    }

    /** One pass through the loop, which prolongs its trace. */
    method SendTraced(i: nat, ghost pass: Pass, ghost trace: Trace, ghost sent: seq<Transmission>)
      returns (ok: bool, next: nat, ghost trace': Trace, ghost one: seq<Transmission>)
      requires ValidWith({}) && status != Disconnected && pass.tick <= now && pass.Starts()
      requires i < |queue| == |due| && !After(queue[i].time, Wrap(pass.tick))
      requires Traced(pass, trace, now + 5 * hz) && trace.Last() == Loop(queue, due, i, sent)
      modifies `now, `status, `timerRunning, `timerElapsesAt, `wire, `queue, `due, `live, `store, `socket, `events
      ensures ValidWith({}) && now >= old(now) && wire == old(wire) + one && next <= |queue|
      ensures if ok then
                && Tries(queue) < Tries(old(queue)) && status == old(status) && events == old(events)
                && Traced(pass, trace', now + 5 * hz) && trace'.Last() == Loop(queue, due, next, sent + one)
              else
                && GivenUp(pass, now + 5 * hz, sent + one) && due == [] && AllRetransmit(sent + one, pass.queue)
                && status == Disconnected && events == old(events) + [OnDisconnect(SendFailed)]
    {
      hide Resent, Tries, GivenUp, Traced, QueueInv, AllRetransmit;
      ghost var l, before := Loop(queue, due, i, sent), now + 5 * hz;
      trace' := trace;
      one := Sends(queue[i]);
      ok, next := SendNext(i);
      if ok {
        ghost var l' := Loop(queue, due, next, sent + one);
        TraceNext(pass, trace, before, now + 5 * hz, l');
        trace' := Trace(trace.ls + [l'], trace.ts + [now + 5 * hz]);
      } else {
        TraceOn(pass, trace, before, now + 5 * hz);
        LoopFails(pass, trace, now + 5 * hz, l);
        LastRetransmits(pass, trace, now + 5 * hz, l);
      }
    }

    /** The packet at `i` is sent again and goes back into the queue, or that fails. */
    method SendNext(i: nat) returns (ok: bool, next: nat)
      requires ValidWith({}) && status != Disconnected && i < |queue|
      modifies `now, `status, `timerRunning, `timerElapsesAt, `wire, `queue, `due, `live, `store, `socket, `events
      ensures ValidWith({}) && now >= old(now) && |old(due)| == |old(queue)| && next <= |queue|
      ensures wire == old(wire) + Sends(old(queue)[i])
      ensures if ok then old(queue)[i].tries > 0 && status == old(status) && events == old(events)
              else due == [] && status == Disconnected && events == old(events) + [OnDisconnect(SendFailed)]
      ensures ok ==> (queue, due, next) == Resent(old(queue), old(due), i, now + 5 * hz)
      ensures ok ==> Tries(queue) < Tries(old(queue))
    {
      ghost var q, d := queue, due;
      hide Resent, Tries, RemoveAt, Marked, Again;
      var p;
      next := 0;
      ok, p := SendDue(i);
      if ok {
        next := Reschedule(p, i, q, d);
      }
    }
  }

  lemma QueuedAsItIs(p: Packet, when: nat)
    ensures p.(qos := p.qos) == p && Queued(p, p.qos, when) == p.(time := Wrap(when))
  {
  }

  /** The PUBREL for an identifier. */
  function Release(handle: nat, id: u16, serial: nat): Packet {
    NewPacket(handle, PUBREL, 2, WordBytes(id), 128, id, serial)
  }

  /** `ticks + n` on the 32-bit counter. */
  method Later(ticks: u32, n: nat, ghost now: nat) returns (t: u32)
    requires ticks == Wrap(now)
    ensures t == Wrap(now + n)
  {
    WrapPlus(now, n);
    t := (ticks + n) % WORD;
  }

  lemma WrapPlus(now: nat, n: nat)
    ensures (Wrap(now) + n) % WORD == Wrap(now + n)
  {
    assert now + n == Wrap(now) + n + now / WORD * WORD;
    ModPlus(Wrap(now) + n, now / WORD);
  }
}
