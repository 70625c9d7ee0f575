/** What the application gets to see of the packets a client receives. */
module Deliveries {
  import opened Bytes
  import opened Frames
  import opened Streams
  import opened ReceivePackets
  import opened RetransmissionQueue
  import opened ClientStatus
  import opened SenderPass
  import Framing
  import Q = QoS2

  datatype Reason =
    | FromApplication
    | UnacceptableProtocolVersion
    | IdentifierRejected
    | ServerUnavailable
    | BadUsernameOrPassword
    | NotAuthorized
    | DNSError
    | ConnectFailed
    | FromPeer
    | InvalidPacket
    | PacketIdentifier
    | SubscribeError
    | SendFailed
    | PingFailed
    | NotSupported
    | InsufficientResources
    | SSLSetupFailed
    | Unknown

  datatype Event =
    | OnConnect(sessionPresent: bool)
    | OnDisconnect(reason: Reason)
    | OnMessage(topic: seq<u8>, payload: seq<u8>, retain: bool)

  // -------------------------------------------------------------------------
  // One packet that does not close the connection
  // -------------------------------------------------------------------------

  function EventsOf(store: seq<u16>, m: Message): seq<Event> {
    match m
    case ConnAck(ackFlags, _) => [OnConnect(ackFlags % 2 == 1)]
    case Publish(flags, topic, id, payload) =>
      if QoSOf(flags) == 2 && !Q.Fresh(store, id) then [] else [OnMessage(topic, payload, RetainOf(flags))]
    case _ => []
  }

  function StoreAfter(store: seq<u16>, m: Message): seq<u16> {
    match m
    case Publish(flags, _, id, _) => if QoSOf(flags) == 2 then Q.Remembered(store, id) else store
    case PubRel(id) => Q.Forgotten(store, id)
    case _ => store
  }

  function StatusAfter(status: Status, m: Message): Status {
    if m.ConnAck? || m.PingResp? then Connected else status
  }

  /** The packets of the queue by identifier and QoS. */
  function Keys(q: seq<Packet>): multiset<(u16, nat)> {
    if q == [] then multiset{} else multiset{(q[0].id, q[0].qos)} + Keys(q[1..])
  }

  /** The last answer to a packet takes it out of the queue. */
  function KeysAfter(keys: multiset<(u16, nat)>, m: Message): multiset<(u16, nat)> {
    match m
    case PubAck(id) => keys - multiset{(id, 1)}
    case PubComp(id) => keys - multiset{(id, 2)}
    case SubAck(id, _) => keys - multiset{(id, 1)}
    case UnsubAck(id) => keys - multiset{(id, 1)}
    case _ => keys
  }

  lemma {:induction false} KeysAppend(a: seq<Packet>, b: seq<Packet>)
    ensures Keys(a + b) == Keys(a) + Keys(b)
  {
    if a == [] {
      assert a + b == b;
    } else {
      assert (a + b)[1..] == a[1..] + b;
      KeysAppend(a[1..], b);
    }
  }

  lemma KeysAround(a: seq<Packet>, p: Packet, b: seq<Packet>)
    ensures Keys(a + [p] + b) == Keys(a + b) + multiset{(p.id, p.qos)}
  {
    KeysAppend(a + [p], b);
    KeysAppend(a, [p]);
    KeysAppend(a, b);
  }

  lemma OneLess<T>(all: multiset<T>, rest: multiset<T>, x: T)
    requires all == rest + multiset{x}
    ensures rest == all - multiset{x}
  {
  }

  lemma KeysRemove(q: seq<Packet>, k: nat)
    requires k < |q|
    ensures Keys(q) == Keys(RemoveAt(q, k)) + multiset{(q[k].id, q[k].qos)}
  {
    hide Keys;
    CutAt(q, k);
    KeysAround(q[..k], q[k], q[k + 1..]);
  }

  lemma CutAt<T>(s: seq<T>, k: nat)
    requires k < |s|
    ensures s == s[..k] + [s[k]] + s[k + 1..] && RemoveAt(s, k) == s[..k] + s[k + 1..]
  {
  }

  lemma KeysInsertAt(q: seq<Packet>, k: nat, p: Packet)
    requires k <= |q|
    ensures Keys(InsertAt(q, k, p)) == Keys(q) + multiset{(p.id, p.qos)}
  {
    hide Keys;
    var a, b := q[..k], q[k..];
    assert q == a + b;
    KeysAround(a, p, b);
  }

  lemma KeysInsert(q: seq<Packet>, p: Packet)
    ensures Keys(Insert(q, p)) == Keys(q) + multiset{(p.id, p.qos)}
  {
    hide Insert, InsertAt, Keys;
    InsertIsAtSlot(q, p);
    KeysInsertAt(q, Slot(q, p.time), p);
  }

  /** A packet is replaced by another one with the same identifier and QoS. */
  lemma KeysReplace(q: seq<Packet>, k: nat, p: Packet)
    requires k < |q| && p.id == q[k].id && p.qos == q[k].qos
    ensures Keys(Insert(RemoveAt(q, k), p)) == Keys(q)
  {
    KeysRemove(q, k);
    KeysInsert(RemoveAt(q, k), p);
  }

  /** The acknowledgements at QoS 1 and 2 (section 4.3 of MQTT v3.1.1); a PUBREL is
      a packet of its own, at `handle`. */
  function AnswerTo(m: Message, handle: nat): seq<Transmission> {
    match m
    case Publish(flags, _, id, _) =>
      if QoSOf(flags) == 0 then []
      else [Transmission(0, if QoSOf(flags) == 1 then PUBACK else PUBREC, 0, WordBytes(id))]
    case PubRec(id) => [Transmission(handle, PUBREL, 2, WordBytes(id))]
    case PubRel(id) => [Transmission(0, PUBCOMP, 0, WordBytes(id))]
    case _ => []
  }

  // -------------------------------------------------------------------------
  // One packet that does
  // -------------------------------------------------------------------------

  /** Why a packet is refused, if it is. */
  datatype Refusal = Accepted | Refused(reason: Reason)

  /** The reason for a CONNACK return code: 1 to 5 as they are, others unknown. */
  function RefusalReason(code: u8): Reason {
    match code
    case 1 => UnacceptableProtocolVersion
    case 2 => IdentifierRejected
    case 3 => ServerUnavailable
    case 4 => BadUsernameOrPassword
    case 5 => NotAuthorized
    case _ => Unknown
  }

  /** The reason to close for a reason to stop the receive loop; where the code has an
      assertion that fails, going on closes for the payload that is too short. */
  function ReasonOf(reason: Streams.Reason): Reason {
    match reason
    case FromPeer => Reason.FromPeer
    case InvalidPacket => Reason.InvalidPacket
    case InsufficientResources => Reason.InsufficientResources
    case TopicNotSupported => Reason.NotSupported
    case AssertionInGetWord => Reason.InvalidPacket
  }

  /** An answer must be for the first packet with its identifier, at the right QoS. */
  function AnswerRefused(q: seq<Packet>, id: u16, qos: nat): Refusal {
    var k := Find(q, id);
    if k < |q| && q[k].qos == qos then Accepted else Refused(PacketIdentifier)
  }

  /** What the client refuses, before it sends anything. */
  function RefusalOf(status: Status, q: seq<Packet>, m: Message): Refusal {
    match m
    case ConnAck(_, code) =>
      if status != ConnectPending then Refused(Reason.InvalidPacket)
      else if code == 0 then Accepted
      else Refused(RefusalReason(code))
    case Publish(_, _, _, _) => Accepted
    case PubAck(id) => AnswerRefused(q, id, 1)
    case PubRec(id) => AnswerRefused(q, id, 2)
    case PubRel(id) => if id == 0 then Refused(Reason.InvalidPacket) else Accepted
    case PubComp(id) => AnswerRefused(q, id, 2)
    case SubAck(id, code) => if code > 2 then Refused(SubscribeError) else AnswerRefused(q, id, 1)
    case UnsubAck(id) => AnswerRefused(q, id, 1)
    case PingResp => Accepted
  }

  /** The last answer to a packet of the client with this identifier and QoS. */
  predicate Answers(m: Message, id: u16, qos: nat) {
    match m
    case PubAck(x) => x == id && qos == 1
    case PubComp(x) => x == id && qos == 2
    case SubAck(x, code) => x == id && qos == 1 && code <= 2
    case UnsubAck(x) => x == id && qos == 1
    case _ => false
  }

  lemma AnswerChangesKeys(app: App, m: Message, id: u16, qos: nat)
    requires Answers(m, id, qos)
    ensures AppAfter(app, m) == app.(keys := app.keys - multiset{(id, qos)})
  {
    assert app.events + [] == app.events;
  }

  /** If it is for the `k`th packet, then that one goes; otherwise it is refused. */
  lemma AnswerTaken(status: Status, q: seq<Packet>, k: nat, store: seq<u16>, events: seq<Event>,
                    m: Message, id: u16, qos: nat)
    requires Answers(m, id, qos) && k == Find(q, id)
    ensures RefusalOf(status, q, m)
            == if k < |q| && q[k].qos == qos then Accepted else Refused(PacketIdentifier)
    ensures forall handle :: AnswerTo(m, handle) == []
    ensures k < |q| && q[k].qos == qos ==>
              AppAfter(App(status, Keys(q), store, events), m) == App(status, Keys(RemoveAt(q, k)), store, events)
    ensures forall d: seq<nat> :: |q| == |d| ==> QueueAfter(q, d, m) == Taken(q, d, id)
  {
    hide AppAfter, Keys, RemoveAt;
    if k < |q| && q[k].qos == qos {
      KeysRemove(q, k);
      OneLess(Keys(q), Keys(RemoveAt(q, k)), (id, qos));
      AnswerChangesKeys(App(status, Keys(q), store, events), m, id, qos);
    }
  }

  /** The queue, with its times, behind a packet that puts nothing into it. */
  function QueueAfter(q: seq<Packet>, d: seq<nat>, m: Message): (seq<Packet>, seq<nat>)
    requires |q| == |d| && !m.PubRec?
  {
    match m
    case PubAck(id) => Taken(q, d, id)
    case PubComp(id) => Taken(q, d, id)
    case SubAck(id, _) => Taken(q, d, id)
    case UnsubAck(id) => Taken(q, d, id)
    case _ => (q, d)
  }

  /** The first packet with the identifier is taken out. */
  function Taken(q: seq<Packet>, d: seq<nat>, id: u16): (seq<Packet>, seq<nat>)
    requires |q| == |d|
  {
    var k := Find(q, id);
    if k < |q| then (RemoveAt(q, k), RemoveAt(d, k)) else (q, d)
  }

  /** A packet closes the connection only if it is refused, or if sending the answer to it
      fails; the reason is then this. */
  predicate MayClose(status: Status, q: seq<Packet>, m: Message) {
    RefusalOf(status, q, m).Refused? || AnswerTo(m, 0) != []
  }

  function ReasonFor(status: Status, q: seq<Packet>, m: Message): Reason {
    match RefusalOf(status, q, m)
    case Accepted => SendFailed
    case Refused(reason) => reason
  }

  // -------------------------------------------------------------------------
  // Any number of packets
  // -------------------------------------------------------------------------

  function StatusIn(status: Status, items: seq<Item>): Status {
    if items == [] then status
    else StatusAfter(StatusIn(status, items[..|items| - 1]), items[|items| - 1].message)
  }

  function KeysIn(keys: multiset<(u16, nat)>, items: seq<Item>): multiset<(u16, nat)> {
    if items == [] then keys
    else KeysAfter(KeysIn(keys, items[..|items| - 1]), items[|items| - 1].message)
  }

  function Store(store: seq<u16>, items: seq<Item>): seq<u16> {
    if items == [] then store
    else StoreAfter(Store(store, items[..|items| - 1]), items[|items| - 1].message)
  }

  function Events(store: seq<u16>, items: seq<Item>): seq<Event> {
    if items == [] then []
    else
      var n := |items| - 1;
      Events(store, items[..n]) + EventsOf(Store(store, items[..n]), items[n].message)
  }

  lemma OneMoreItem(store: seq<u16>, items: seq<Item>, item: Item)
    ensures Store(store, items + [item]) == StoreAfter(Store(store, items), item.message)
    ensures Events(store, items + [item]) == Events(store, items) + EventsOf(Store(store, items), item.message)
  {
    assert (items + [item])[..|items|] == items;
  }

  /** What packets change: the status, the queue by identifier and QoS, the store, and
      the callbacks made. */
  datatype App = App(status: Status, keys: multiset<(u16, nat)>, store: seq<u16>, events: seq<Event>)

  function AppAfter(app: App, m: Message): App {
    App(StatusAfter(app.status, m), KeysAfter(app.keys, m), StoreAfter(app.store, m),
      app.events + EventsOf(app.store, m))
  }

  function AppIn(app: App, items: seq<Item>): App {
    App(StatusIn(app.status, items), KeysIn(app.keys, items), Store(app.store, items),
      app.events + Events(app.store, items))
  }

  lemma AppSnoc(app: App, items: seq<Item>, item: Item)
    ensures AppIn(app, items + [item]) == AppAfter(AppIn(app, items), item.message)
  {
    assert (items + [item])[..|items|] == items;
    OneMoreItem(app.store, items, item);
  }

  // -------------------------------------------------------------------------
  // The receive loop
  // -------------------------------------------------------------------------

  /** What the socket gives at the `k`th call: nothing more once `chunks` is used up. */
  function ChunkAt(chunks: seq<Chunk>, k: nat): Chunk {
    if k < |chunks| then chunks[k] else Chunk.Bytes([])
  }

  /** The segments are what the socket has given so far. */
  predicate Fed(chunks: seq<Chunk>, segments: seq<seq<u8>>) {
    forall k :: 0 <= k < |segments| ==> ChunkAt(chunks, k) == Chunk.Bytes(segments[k])
  }

  /** A run over the segments has come to `pending`, after the packets `items`. */
  predicate Received(next: Framer, start: seq<u8>, room: nat, segments: seq<seq<u8>>, items: seq<Item>,
                     pending: seq<u8>) {
    Run(next, start, room, segments) == Parsed(items, Poll(Waiting, pending))
  }

  /** Where a call of `Receiver` starts, and what the socket gives to it. */
  datatype Call = Call(next: Framer, room: nat, start: seq<u8>, app: App, chunks: seq<Chunk>)

  /** The connection is open: over the segments the run has found the packets `items`,
      and the status, the queue, the store and the callbacks are those for the packets. */
  predicate StillOpen(c: Call, segments: seq<seq<u8>>, items: seq<Item>, pending: seq<u8>, app: App) {
    && Fed(c.chunks, segments)
    && Received(c.next, c.start, c.room, segments, items, pending)
    && app == AppIn(c.app, items)
  }

  /** Every poll but the last gave a packet, and that one gave none. */
  predicate LastGaveNone(c: Call, segments: seq<seq<u8>>, items: seq<Item>) {
    && |segments| == |items| + 1
    && Run(c.next, c.start, c.room, segments[..|items|]).items == Run(c.next, c.start, c.room, segments).items == items
  }

  /** After the packets `items` the run has closed, for this reason. */
  predicate ClosedByRun(c: Call, segments: seq<seq<u8>>, items: seq<Item>, reason: Reason) {
    var run := Run(c.next, c.start, c.room, segments);
    run.items == items && run.end.outcome.Closing? && reason == ReasonOf(run.end.outcome.reason)
  }

  /** Or the next call of the socket, if it came to that, has failed. */
  predicate ClosedBySocket(c: Call, segments: seq<seq<u8>>, items: seq<Item>, reason: Reason) {
    var run := Run(c.next, c.start, c.room, segments);
    && run.items == items && run.end.outcome.Waiting? && ChunkAt(c.chunks, |segments|).SocketError?
    && reason == if |run.end.pending| > c.room then Reason.InsufficientResources else Reason.FromPeer
  }

  /** Or one more packet has closed the connection, on a queue with these packets. */
  predicate ClosedByPacket(c: Call, segments: seq<seq<u8>>, items: seq<Item>, q: seq<Packet>, reason: Reason) {
    var run, app := Run(c.next, c.start, c.room, segments), AppIn(c.app, items);
    && run.end.outcome.Waiting? && |run.items| == |items| + 1 && run.items[..|items|] == items
    && Keys(q) == app.keys
    && var m := run.items[|items|].message;
       MayClose(app.status, q, m) && reason == ReasonFor(app.status, q, m)
  }

  /** The connection was closed after the packets `items` were handled. */
  ghost predicate CutOff(c: Call, segments: seq<seq<u8>>, items: seq<Item>, events: seq<Event>) {
    && Fed(c.chunks, segments)
    && exists reason ::
         && events == AppIn(c.app, items).events + [OnDisconnect(reason)]
         && (|| ClosedByRun(c, segments, items, reason)
             || ClosedBySocket(c, segments, items, reason)
             || exists q :: ClosedByPacket(c, segments, items, q, reason))
  }

  lemma CallStarts(c: Call)
    ensures StillOpen(c, [], [], c.start, c.app)
  {
    assert c.app.events + [] == c.app.events;
  }

  /** The socket gives the segment `x`, and the verdict is `p`. */
  predicate PollIs(c: Call, segments: seq<seq<u8>>, pending: seq<u8>, x: seq<u8>, p: Poll) {
    ChunkAt(c.chunks, |segments|) == Chunk.Bytes(x) && p == Polled(c.next, pending, c.room, Chunk.Bytes(x))
  }

  lemma OneMoreFed(c: Call, segments: seq<seq<u8>>, x: seq<u8>)
    requires Fed(c.chunks, segments) && ChunkAt(c.chunks, |segments|) == Chunk.Bytes(x)
    ensures Fed(c.chunks, segments + [x])
  {
  }

  /** A poll that gives nothing. */
  lemma PollWaits(c: Call, segments: seq<seq<u8>>, items: seq<Item>, pending: seq<u8>, app: App, x: seq<u8>, p: Poll)
    requires Shrinks(c.next) && Stable(c.next) && PollIs(c, segments, pending, x, p) && p.outcome.Waiting?
    requires StillOpen(c, segments, items, pending, app)
    ensures StillOpen(c, segments + [x], items, p.pending, app) && c.next(p.pending).outcome.Waiting?
    ensures |segments| == |items| ==> LastGaveNone(c, segments + [x], items)
  {
    OneMoreFed(c, segments, x);
    RunSnoc(c.next, c.start, c.room, segments, x);
    assert (segments + [x])[..|segments|] == segments;
  }

  /** A poll that gives a packet. */
  lemma PollGives(c: Call, segments: seq<seq<u8>>, items: seq<Item>, pending: seq<u8>, app: App, x: seq<u8>, p: Poll)
    requires Shrinks(c.next) && PollIs(c, segments, pending, x, p) && p.outcome.Got?
    requires StillOpen(c, segments, items, pending, app)
    ensures StillOpen(c, segments + [x], items + [p.outcome.item], p.pending, AppAfter(app, p.outcome.item.message))
    ensures x == [] ==> |p.pending| < |pending|
  {
    OneMoreFed(c, segments, x);
    RunSnoc(c.next, c.start, c.room, segments, x);
    AppSnoc(c.app, items, p.outcome.item);
    assert pending + [] == pending;
  }

  /** A poll that closes the connection. */
  lemma PollCloses(c: Call, segments: seq<seq<u8>>, items: seq<Item>, pending: seq<u8>, app: App, x: seq<u8>, p: Poll)
    requires PollIs(c, segments, pending, x, p) && p.outcome.Closing?
    requires StillOpen(c, segments, items, pending, app)
    ensures CutOff(c, segments + [x], items, app.events + [OnDisconnect(ReasonOf(p.outcome.reason))])
  {
    OneMoreFed(c, segments, x);
    RunSnoc(c.next, c.start, c.room, segments, x);
    assert ClosedByRun(c, segments + [x], items, ReasonOf(p.outcome.reason));
  }

  /** A poll that gives a packet which closes the connection. */
  lemma PacketCloses(c: Call, segments: seq<seq<u8>>, items: seq<Item>, pending: seq<u8>, app: App, x: seq<u8>, p: Poll,
                     q: seq<Packet>)
    requires PollIs(c, segments, pending, x, p) && p.outcome.Got? && StillOpen(c, segments, items, pending, app)
    requires Keys(q) == app.keys && MayClose(app.status, q, p.outcome.item.message)
    ensures var reason := ReasonFor(app.status, q, p.outcome.item.message);
            CutOff(c, segments + [x], items, app.events + [OnDisconnect(reason)])
  {
    var item := p.outcome.item;
    OneMoreFed(c, segments, x);
    RunSnoc(c.next, c.start, c.room, segments, x);
    assert (items + [item])[..|items|] == items;
    assert ClosedByPacket(c, segments + [x], items, q, ReasonFor(app.status, q, item.message));
  }

  /** A failed call of the socket. */
  lemma SocketCloses(c: Call, segments: seq<seq<u8>>, items: seq<Item>, pending: seq<u8>, app: App, p: Poll)
    requires ChunkAt(c.chunks, |segments|).SocketError? && p == Polled(c.next, pending, c.room, SocketError)
    requires StillOpen(c, segments, items, pending, app)
    ensures p.outcome.Closing? && CutOff(c, segments, items, app.events + [OnDisconnect(ReasonOf(p.outcome.reason))])
  {
    assert ClosedBySocket(c, segments, items, ReasonOf(p.outcome.reason));
  }

  // -------------------------------------------------------------------------
  // The application sees the byte stream, not its segments
  // -------------------------------------------------------------------------

  /** Whatever the segments, a run that is still open and has nothing complete left
      in its buffer has made exactly the callbacks for the packets of the stream. */
  lemma ApplicationSeesTheStream(next: Framer, room: nat, segments: seq<seq<u8>>, store: seq<u16>)
    requires Shrinks(next) && Stable(next)
    requires var end := Run(next, [], room, segments).end; end.outcome.Waiting? && next(end.pending).outcome.Waiting?
    ensures var run, whole := Run(next, [], room, segments), Parse(next, Concat(segments));
            Events(store, run.items) == Events(store, whole.items) && run.end.pending == whole.end.pending
  {
    RunRefinesParser(next, [], room, segments, []);
    var run := Run(next, [], room, segments);
    assert [] + Concat(segments) + [] == Concat(segments) && run.end.pending + [] == run.end.pending;
    assert run.items + [] == run.items;
  }

  lemma ClientSeesTheStream(maxTopic: nat, room: nat, segments: seq<seq<u8>>, store: seq<u16>)
    requires var next := Framing.Client(maxTopic);
             var end := Run(next, [], room, segments).end;
             end.outcome.Waiting? && next(end.pending).outcome.Waiting?
    ensures var next := Framing.Client(maxTopic);
            && Shrinks(next)
            && Events(store, Run(next, [], room, segments).items) == Events(store, Parse(next, Concat(segments)).items)
  {
    Framing.ClientIsFramer(maxTopic);
    ApplicationSeesTheStream(Framing.Client(maxTopic), room, segments, store);
  }

  // -------------------------------------------------------------------------
  // Messages at QoS 2 are passed on once per exchange
  // -------------------------------------------------------------------------

  /** The QoS 2 traffic of one packet. */
  function TraceOf(m: Message): seq<Q.Incoming> {
    match m
    case Publish(flags, _, id, _) => if QoSOf(flags) == 2 then [Q.Publish(id)] else []
    case PubRel(id) => [Q.PubRel(id)]
    case _ => []
  }

  /** The QoS 2 traffic among some packets. */
  function Trace(items: seq<Item>): seq<Q.Incoming> {
    if items == [] then []
    else Trace(items[..|items| - 1]) + TraceOf(items[|items| - 1].message)
  }

  predicate Plain(m: Message) {
    m.Publish? && QoSOf(m.flags) != 2
  }

  function Plains(items: seq<Item>): nat {
    if items == [] then 0
    else Plains(items[..|items| - 1]) + if Plain(items[|items| - 1].message) then 1 else 0
  }

  function Messages(events: seq<Event>): nat {
    if events == [] then 0
    else Messages(events[..|events| - 1]) + if events[|events| - 1].OnMessage? then 1 else 0
  }

  lemma OneMessage(e: Event)
    ensures Messages([]) == 0 && Messages([e]) == if e.OnMessage? then 1 else 0
  {
    assert [e][..0] == [];
  }

  lemma ReceiveSnoc(trace: seq<Q.Incoming>, x: Q.Incoming)
    ensures var (store, calls) := Q.Receive(trace);
            Q.Receive(trace + [x])
            == match x
               case Publish(id) => (Q.Remembered(store, id), if Q.Fresh(store, id) then calls + [id] else calls)
               case PubRel(id) => (Q.Forgotten(store, id), calls)
  {
    assert (trace + [x])[..|trace|] == trace;
  }

  /** What a packet of the QoS 2 traffic does. */
  lemma TrafficTaken(store: seq<u16>, m: Message, trace: seq<Q.Incoming>)
    requires TraceOf(m) != [] && Q.Receive(trace).0 == store
    ensures var (store', calls') := Q.Receive(trace + TraceOf(m));
            && StoreAfter(store, m) == store'
            && |calls'| == |Q.Receive(trace).1| + Messages(EventsOf(store, m))
  {
    hide Q.Receive, Messages;
    ReceiveSnoc(trace, TraceOf(m)[0]);
    OneMessage(if m.Publish? then OnMessage(m.topic, m.payload, RetainOf(m.flags)) else OnConnect(false));
  }

  /** And what another packet does. */
  lemma OtherTaken(store: seq<u16>, m: Message)
    requires TraceOf(m) == []
    ensures StoreAfter(store, m) == store && Messages(EventsOf(store, m)) == if Plain(m) then 1 else 0
  {
    hide Messages;
    OneMessage(if EventsOf(store, m) == [] then OnConnect(false) else EventsOf(store, m)[0]);
  }

  lemma {:induction false} MessagesPlus(events: seq<Event>, more: seq<Event>)
    ensures Messages(events + more) == Messages(events) + Messages(more)
  {
    if more == [] {
      assert events + more == events;
    } else {
      assert (events + more)[..|events + more| - 1] == events + more[..|more| - 1];
      MessagesPlus(events, more[..|more| - 1]);
    }
  }

  /** The store is that of the QoS 2 receiver on the QoS 2 traffic, and the messages
      passed on are the receiver's and the packets at QoS 0 and 1. */
  lemma {:induction false} StoreIsTheReceivers(items: seq<Item>)
    ensures var (store, calls) := Q.Receive(Trace(items));
            && Store([], items) == store
            && Messages(Events([], items)) == |calls| + Plains(items)
    decreases |items|
  {
    if items != [] {
      var n := |items| - 1;
      var store, m, trace := Store([], items[..n]), items[n].message, Trace(items[..n]);
      StoreIsTheReceivers(items[..n]);
      MessagesPlus(Events([], items[..n]), EventsOf(store, m));
      if TraceOf(m) != [] {
        TrafficTaken(store, m, trace);
      } else {
        OtherTaken(store, m);
        assert trace + [] == trace;
      }
    }
  }
}
