/** Any run of the client: calls of the application and passes of its task, in any order. */
module ClientRuns {
  import opened Bytes
  import opened Ticks
  import opened RetransmissionQueue
  import opened PacketIdentifiers
  import opened QueueOrder
  import opened SendPackets
  import opened ClientStatus
  import opened SenderPass
  import opened ReceivePackets
  import opened Deliveries
  import opened MqttClients
  import Frames
  import Framing
  import Streams
  import Writer = PublishRoundTrip

  datatype Action =
    | Publish(topic: seq<u8>, payload: seq<u8>, qos: nat, retain: bool)
    | Subscribe(topic: seq<u8>, qos: nat)
    | Unsubscribe(topic: seq<u8>)
    | Connect(failure: Reason, body: seq<u8>, keepAliveSeconds: u16)
    | Disconnect(force: bool)
    | TaskPass(chunks: seq<Chunk>)     // of the loop in `Run`

  /** What the functions ask of their callers and of the socket. */
  predicate Proper(a: Action, frameSize: nat) {
    match a
    case Publish(topic, _, qos, _) => CString(topic) && qos <= 2
    case Subscribe(topic, qos) => CString(topic) && qos <= 2
    case Unsubscribe(topic) => CString(topic)
    case Connect(failure, _, _) =>
      failure in {FromApplication, Reason.InsufficientResources, DNSError, SSLSetupFailed, ConnectFailed}
    case Disconnect(_) => true
    case TaskPass(chunks) => forall c <- chunks :: c.Bytes? ==> |c.data| <= frameSize
  }

  // -------------------------------------------------------------------------
  // What an action does
  // -------------------------------------------------------------------------

  /** The client and the bytes in its receive buffer. */
  datatype Moment = Moment(snap: Snap, pending: seq<u8>)

  /** What does not change: the tick rate and the sizes. */
  datatype Config = Config(hz: nat, maxPacketSize: nat, maxTopic: nat, frameSize: nat, room: nat)

  /** A pass of the task: the moments behind `Receiver` and behind `Sender`; what the
      first has received; the tick that the second has read, and what it has sent; and
      the tick that the keep-alive handler has read. */
  datatype TaskCall = TaskCall(mid: Moment, aft: Moment, segments: seq<seq<u8>>, items: seq<Streams.Item>,
                               tick: nat, sent: seq<Transmission>, sampled: nat)

  ghost predicate Passed(chunks: seq<Chunk>, m: Moment, m': Moment, call: TaskCall, cfg: Config) {
    var mid, aft := call.mid, call.aft;
    var c := Call(Framing.Client(cfg.maxTopic), cfg.room, m.pending, AppOf(m.snap), chunks);
    && Receives(c, m.snap, mid.snap, mid.pending, call.segments, call.items, cfg.hz)
    && SendsDue(mid.snap, aft.snap, call.tick, call.sent, cfg.hz)
    && KeepsAlive(aft.snap, m'.snap, call.sampled, cfg.hz)
    && mid.pending == aft.pending == m'.pending
  }

  /** The packet that a call of `Publish`, `Subscribe` or `Unsubscribe` makes. */
  function PacketOf(a: Action, s: Snap, cfg: Config): Packet
    requires Proper(a, cfg.frameSize) && (a.Publish? || a.Subscribe? || a.Unsubscribe?)
  {
    var id := s.nextId;
    match a
    case Publish(topic, payload, qos, retain) =>
      NewPacket(s.nextHandle, Frames.PUBLISH, Writer.PublishFlags(qos, retain), Writer.PublishBody(topic, id, payload),
        cfg.maxPacketSize, id, s.allocations)
    case Subscribe(topic, qos) =>
      NewPacket(s.nextHandle, Frames.SUBSCRIBE, 2, WordBytes(id) + StringBytes(topic) + [qos],
        cfg.maxPacketSize, id, s.allocations)
    case Unsubscribe(topic) =>
      NewPacket(s.nextHandle, Frames.UNSUBSCRIBE, 2, WordBytes(id) + StringBytes(topic),
        cfg.maxPacketSize, id, s.allocations)
  }

  /** The QoS at which it is queued. */
  function QueuedAt(a: Action): nat {
    match a
    case Publish(_, _, qos, _) => qos
    case _ => 1
  }

  /** What an action does from one moment to the next; `calls` are the passes in it. */
  ghost predicate Did(a: Action, m: Moment, m': Moment, calls: seq<TaskCall>, cfg: Config)
    requires Proper(a, cfg.frameSize)
  {
    var s, s' := m.snap, m'.snap;
    && |s.queue| == |s.due|
    && match a
       case TaskPass(chunks) =>
         if s.status != Disconnected then |calls| == 1 && Passed(chunks, m, m', calls[0], cfg)
         else calls == [] && m' == m
       case Connect(failure, body, keepAliveSeconds) =>
         && calls == []
         && if s.status != Disconnected then m' == m
            else
              && Connects(s, s', failure, body, keepAliveSeconds, cfg.maxPacketSize)
              && m'.pending == if failure == FromApplication then [] else m.pending
       case Disconnect(force) =>
         calls == [] && m'.pending == m.pending && Disconnects(s, s', force)
       case _ =>
         && calls == [] && m'.pending == m.pending && s'.nextId == NextId(s.nextId)
         && Submits(s, s', PacketOf(a, s, cfg), QueuedAt(a), cfg.hz)
  }

  /** Each action led from its moment to the next one. */
  ghost predicate Chain(actions: seq<Action>, moments: seq<Moment>, calls: seq<seq<TaskCall>>, cfg: Config) {
    && |moments| == |actions| + 1 == |calls| + 1
    && (forall i :: 0 <= i < |actions| ==> Proper(actions[i], cfg.frameSize))
    && forall i :: 0 <= i < |actions| ==> Did(actions[i], moments[i], moments[i + 1], calls[i], cfg)
  }

  // -------------------------------------------------------------------------
  // The queue along a run
  // -------------------------------------------------------------------------

  /** What was due was sent, each packet once and in order, and is queued again; or some
      of it, up to a failed send. */
  ghost predicate AsPromised(call: TaskCall, hz: nat) {
    var mid, aft := call.mid.snap, call.aft.snap;
    var pass := Pass(mid.queue, mid.due, call.tick);
    if aft.status == mid.status then SentAll(pass, aft.now + 5 * hz, call.sent, aft.queue, aft.due)
    else aft.status == Disconnected && SentSome(pass, call.sent)
  }

  /** From one moment to the other no live time was too far from the ticks read. */
  ghost predicate Near(s: Snap, s': Snap, hz: nat) {
    InWindow(s.due, s.now, s'.now + 5 * hz)
  }

  ghost predicate AllNear(moments: seq<Moment>, hz: nat) {
    forall i :: 0 < i < |moments| ==> Near(moments[i - 1].snap, moments[i].snap, hz)
  }

  lemma ThinnedStays(d0: seq<nat>, n0: nat, d1: seq<nat>, n1: nat, w1: nat, d: seq<nat>, w: nat)
    requires StaysOrdered(d0, n0, d1, w1) && Thinned(d1, d) && n0 <= n1 < w && w1 <= w
    ensures StaysOrdered(d0, n0, d, w)
  {
    ThinnedIsFiled(d1, d, w);
    FiledStays(d1, n1, d, w);
    StaysStays(d0, n0, d1, n1, w1, d, w);
  }

  /** A call of `Sender` behind a `Receiver` that has kept the order. */
  lemma KeepsPromise(s: Snap, call: TaskCall, hz: nat, w: nat)
    requires var mid, aft := call.mid.snap, call.aft.snap;
             && StaysOrdered(s.due, s.now, mid.due, mid.now + 5 * hz) && s.now <= mid.now
             && SendsDue(mid, aft, call.tick, call.sent, hz) && aft.now + 5 * hz <= w
    requires Sorted(s.due) && InWindow(s.due, s.now, w)
    ensures AsPromised(call, hz)
  {
    var mid, aft := call.mid.snap, call.aft.snap;
    assert InWindow(s.due, s.now, mid.now + 5 * hz);
    WindowMoves(s.due, s.now, mid.due, mid.now, mid.now + 5 * hz, w);
    assert Pass(mid.queue, mid.due, call.tick).Close(aft.now + 5 * hz);
  }

  lemma PassOrdered(chunks: seq<Chunk>, m: Moment, m': Moment, call: TaskCall, cfg: Config)
    requires Passed(chunks, m, m', call, cfg) && cfg.hz > 0
    ensures StaysOrdered(m.snap.due, m.snap.now, m'.snap.due, m'.snap.now + 5 * cfg.hz)
    ensures Sorted(m.snap.due) && Near(m.snap, m'.snap, cfg.hz) ==> AsPromised(call, cfg.hz)
  {
    hide StaysOrdered, Thinned, Done, GivenUp, StillOpen, CutOff, LastGaveNone, Idles, PingsOrCloses;
    var s, mid, aft, s', hz := m.snap, call.mid.snap, call.aft.snap, m'.snap, cfg.hz;
    StaysStays(s.due, s.now, mid.due, mid.now, mid.now + 5 * hz, aft.due, aft.now + 5 * hz);
    ThinnedStays(s.due, s.now, aft.due, aft.now, aft.now + 5 * hz, s'.due, s'.now + 5 * hz);
    if Sorted(s.due) && Near(s, s', hz) {
      KeepsPromise(s, call, hz, s'.now + 5 * hz);
    }
  }

  /** Every action keeps the order, and every call of `Sender` in it does what it should. */
  lemma ActionOrdered(a: Action, m: Moment, m': Moment, calls: seq<TaskCall>, cfg: Config)
    requires Proper(a, cfg.frameSize) && Did(a, m, m', calls, cfg) && cfg.hz > 0
    ensures StaysOrdered(m.snap.due, m.snap.now, m'.snap.due, m'.snap.now + 5 * cfg.hz)
    ensures Sorted(m.snap.due) && Near(m.snap, m'.snap, cfg.hz) ==> forall c <- calls :: AsPromised(c, cfg.hz)
  {
    hide StaysOrdered, Passed, Filed, AsPromised, PacketOf, KeptIn;
    var s, s', w := m.snap, m'.snap, m'.snap.now + 5 * cfg.hz;
    NothingStays(s.now, s.due, w);
    match a
    case TaskPass(chunks) =>
      if s.status != Disconnected {
        PassOrdered(chunks, m, m', calls[0], cfg);
      }
    case Connect(_, _, _) =>
    case Disconnect(_) =>
    case _ =>
      FiledStays(s.due, s.now, s'.due, w);
  }

  lemma OrderGoesOn(s: Snap, s': Snap, hz: nat)
    requires StaysOrdered(s.due, s.now, s'.due, s'.now + 5 * hz) && Sorted(s.due) && Near(s, s', hz)
    ensures Sorted(s'.due)
  {
  }

  /** Along any run from a queue in order, if from action to action no live time is too
      far from the ticks read, the queue is in order at every moment. */
  lemma {:induction false} OrderedAlong(actions: seq<Action>, moments: seq<Moment>, calls: seq<seq<TaskCall>>,
                                        cfg: Config, i: nat)
    requires Chain(actions, moments, calls, cfg) && cfg.hz > 0 && AllNear(moments, cfg.hz)
    requires Sorted(moments[0].snap.due) && i < |moments|
    ensures Sorted(moments[i].snap.due)
  {
    hide StaysOrdered, Did, Near;
    if i > 0 {
      OrderedAlong(actions, moments, calls, cfg, i - 1);
      assert Did(actions[i - 1], moments[i - 1], moments[i], calls[i - 1], cfg);
      ActionOrdered(actions[i - 1], moments[i - 1], moments[i], calls[i - 1], cfg);
      OrderGoesOn(moments[i - 1].snap, moments[i].snap, cfg.hz);
    }
  }

  /** So every call of `Sender` along the run has done what it should. */
  lemma PromisesKept(actions: seq<Action>, moments: seq<Moment>, calls: seq<seq<TaskCall>>, cfg: Config)
    requires Chain(actions, moments, calls, cfg) && cfg.hz > 0 && AllNear(moments, cfg.hz)
    requires Sorted(moments[0].snap.due)
    ensures forall m <- moments :: Sorted(m.snap.due)
    ensures forall i :: 0 <= i < |calls| ==> forall c <- calls[i] :: AsPromised(c, cfg.hz)
  {
    hide Did, Near, AsPromised;
    forall i | 0 <= i < |moments|
      ensures Sorted(moments[i].snap.due)
    {
      OrderedAlong(actions, moments, calls, cfg, i);
    }
    forall i | 0 <= i < |calls|
      ensures forall c <- calls[i] :: AsPromised(c, cfg.hz)
    {
      OrderedAlong(actions, moments, calls, cfg, i);
      assert Did(actions[i], moments[i], moments[i + 1], calls[i], cfg);
      assert Near(moments[i].snap, moments[i + 1].snap, cfg.hz);
      ActionOrdered(actions[i], moments[i], moments[i + 1], calls[i], cfg);
    }
  }

  // -------------------------------------------------------------------------
  // The client does it
  // -------------------------------------------------------------------------

  ghost function Sizes(client: MqttClient): Config
    reads client, client.rx
    requires client.rx.Valid()
  {
    var rx := client.rx;
    Config(client.hz, client.maxPacketSize, client.maxTopic, rx.frameSize, rx.bufferSize - rx.frameSize)
  }

  ghost function Here(client: MqttClient): Moment
    reads client, client.rx, client.rx.buffer
    requires client.rx.Valid()
  {
    Moment(client.Shot(), client.rx.Pending())
  }

  method Receive(client: MqttClient, chunks: seq<Chunk>)
    returns (ghost segments: seq<seq<u8>>, ghost items: seq<Streams.Item>, ghost m': Moment)
    requires client.Valid() && client.everConnected
    requires forall c <- chunks :: c.Bytes? ==> |c.data| <= client.rx.frameSize
    modifies client, client.rx, client.rx.buffer
    ensures client.Valid() && client.everConnected && m' == Here(client)
    ensures var m, cfg := old(Here(client)), Sizes(client);
            cfg == old(Sizes(client)) &&
            Receives(Call(Framing.Client(cfg.maxTopic), cfg.room, m.pending, AppOf(m.snap), chunks), m.snap, m'.snap,
              m'.pending, segments, items, cfg.hz)
  {
    hide Receives;
    segments, items := client.Receiver(chunks);
    m' := Here(client);
  }

  method Send(client: MqttClient) returns (ghost tick: nat, ghost sent: seq<Transmission>, ghost m': Moment)
    requires client.Valid() && client.everConnected
    modifies client
    ensures client.Valid() && client.everConnected && m' == Here(client) && Sizes(client) == old(Sizes(client))
    ensures var m := old(Here(client));
            m'.pending == m.pending && SendsDue(m.snap, m'.snap, tick, sent, client.hz)
  {
    hide SendsDue;
    tick, sent := client.Sender();
    m' := Here(client);
  }

  method KeepAlive(client: MqttClient) returns (ghost sampled: nat)
    requires client.Valid() && client.everConnected
    modifies client
    ensures client.Valid() && Sizes(client) == old(Sizes(client))
    ensures var m, m' := old(Here(client)), Here(client);
            m'.pending == m.pending && KeepsAlive(m.snap, m'.snap, sampled, client.hz)
  {
    hide KeepsAlive;
    sampled := client.KeepAliveHandler(0);
  }

  /** The body of the loop in `Run`. */
  method PassOfTask(client: MqttClient, chunks: seq<Chunk>) returns (ghost call: TaskCall)
    requires client.Valid() && client.status != Disconnected
    requires forall c <- chunks :: c.Bytes? ==> |c.data| <= client.rx.frameSize
    modifies client, client.rx, client.rx.buffer
    ensures client.Valid() && Sizes(client) == old(Sizes(client))
    ensures Passed(chunks, old(Here(client)), Here(client), call, Sizes(client))
  {
    hide Receives, SendsDue, KeepsAlive;
    ghost var segments, items, mid := Receive(client, chunks);
    ghost var tick, sent, aft := Send(client);
    ghost var sampled := KeepAlive(client);
    call := TaskCall(mid, aft, segments, items, tick, sent, sampled);
  }

  /** One call of the application, or one pass of the task. */
  method Act(client: MqttClient, a: Action) returns (ghost calls: seq<TaskCall>)
    requires client.Valid() && Proper(a, client.rx.frameSize)
    modifies client, client.rx, client.rx.buffer
    ensures client.Valid() && Sizes(client) == old(Sizes(client))
    ensures Did(a, old(Here(client)), Here(client), calls, Sizes(client))
  {
    calls := [];
    match a {
      case Publish(topic, payload, qos, retain) => client.Publish(topic, payload, qos, retain);
      case Subscribe(topic, qos) => client.Subscribe(topic, qos);
      case Unsubscribe(topic) => client.Unsubscribe(topic);
      case Connect(failure, body, keepAliveSeconds) =>
        if client.status == Disconnected {
          client.Connect(failure, body, keepAliveSeconds);
        }
      case Disconnect(force) => client.Disconnect(force);
      case TaskPass(chunks) =>
        if client.status != Disconnected {
          ghost var call := PassOfTask(client, chunks);
          calls := [call];
        }
    }
  }

  /** Any run: each action does what `Did` says, from moment to moment, and so, if the
      queue was in order and all moments are near, `PromisesKept` is about this run. */
  method Operate(client: MqttClient, actions: seq<Action>)
    returns (ghost moments: seq<Moment>, ghost calls: seq<seq<TaskCall>>)
    requires client.Valid() && forall a <- actions :: Proper(a, client.rx.frameSize)
    modifies client, client.rx, client.rx.buffer
    ensures client.Valid() && Chain(actions, moments, calls, Sizes(client))
    ensures moments[0] == old(Here(client)) && moments[|actions|] == Here(client)
    ensures old(Sorted(client.due)) && AllNear(moments, client.hz) ==>
              && Sorted(client.due)
              && forall i :: 0 <= i < |calls| ==> forall c <- calls[i] :: AsPromised(c, client.hz)
  {
    moments, calls := [Here(client)], [];
    ghost var cfg := Sizes(client);
    for i := 0 to |actions|
      invariant client.Valid() && Sizes(client) == cfg && Chain(actions[..i], moments, calls, cfg)
      invariant moments[0] == old(Here(client)) && moments[i] == Here(client)
    {
      ghost var more := Act(client, actions[i]);
      ChainSnoc(actions, i, moments, calls, Here(client), more, cfg);
      moments, calls := moments + [Here(client)], calls + [more];
    }
    assert actions[..|actions|] == actions;
    if old(Sorted(client.due)) && AllNear(moments, client.hz) {
      PromisesKept(actions, moments, calls, cfg);
    }
  }

  lemma ChainSnoc(actions: seq<Action>, i: nat, moments: seq<Moment>, calls: seq<seq<TaskCall>>,
                  m: Moment, more: seq<TaskCall>, cfg: Config)
    requires i < |actions| && Chain(actions[..i], moments, calls, cfg) && Proper(actions[i], cfg.frameSize)
    requires Did(actions[i], moments[i], m, more, cfg)
    ensures Chain(actions[..i + 1], moments + [m], calls + [more], cfg)
  {
    hide Did;
    var as', ms, cs := actions[..i + 1], moments + [m], calls + [more];
    forall k | 0 <= k < i + 1
      ensures Proper(as'[k], cfg.frameSize) && Did(as'[k], ms[k], ms[k + 1], cs[k], cfg)
    {
      if k < i {
        assert actions[..i][k] == as'[k] && Did(actions[..i][k], moments[k], moments[k + 1], calls[k], cfg);
      }
    }
  }
}
