/** Two clients that talk at QoS 2: the sender with its retransmission queue, the
    receiver with its store and its callbacks, and the packets between them.

    The steps are what the methods of the client do to these.  Every run is a run of
    the protocol, whose stages are those of the queue; so every publication reaches
    the application of the receiver at most once, as it was published. */
module QoS2System {
  import opened Bytes
  import opened Frames
  import opened RetransmissionQueue
  import opened PacketIdentifiers
  import opened SendPackets
  import opened SenderPass
  import opened Deliveries
  import opened MqttClients
  import opened QoS2Refinement
  import Writer = PublishRoundTrip
  import P = QoS2Protocol
  import Q = QoS2

  /** The sizes both sides are configured with. */
  datatype Sizes = Sizes(maxTopic: nat, maxPacket: nat)

  datatype System = System(
    senderOpen: bool,
    queue: seq<Packet>,
    allocations: nat,                 // identifiers taken on this connection
    published: map<u16, Event>,       // the callback that each publication is for
    acknowledged: set<u16>,
    receiverOpen: bool,
    store: seq<u16>,
    events: seq<Event>,
    delivered: seq<u16>,              // the identifiers of `events`
    forward: seq<Transmission>,
    backward: seq<Transmission>)

  datatype Step =
    | Publishes(topic: seq<u8>, payload: seq<u8>, retain: bool, handle: nat, when: nat)
    | QueuesOther(p: Packet)          // Publish at QoS 1, Subscribe, Unsubscribe
    | TakesIdentifier                 // Publish at QoS 0
    | OtherDone(id: u16)              // PUBACK, SUBACK, UNSUBACK
    | Resends(k: nat, time: u32)
    | ReceiverTakes(handle: nat)
    | ReceiverCannotAnswer
    | SenderTakes(handle: nat, when: nat)
    | SenderCannotRelease
    | SenderCloses
    | ReceiverCloses

  // -------------------------------------------------------------------------
  // Packets in the channels
  // -------------------------------------------------------------------------

  predicate Legible(t: Transmission, z: Sizes) {
    Acceptable(t.typ, t.flags, |t.body|) && Read(t.typ, t.flags, t.body, z.maxTopic).Message?
  }

  /** What the other side reads. */
  function MessageOf(t: Transmission, z: Sizes): Message
    requires Legible(t, z)
  {
    Read(t.typ, t.flags, t.body, z.maxTopic).message
  }

  function IncomingOf(t: Transmission, z: Sizes): Q.Incoming {
    if !Legible(t, z) then Q.PubRel(0)
    else
      match MessageOf(t, z)
      case Publish(_, _, id, _) => Q.Publish(id)
      case PubRel(id) => Q.PubRel(id)
      case _ => Q.PubRel(0)
  }

  function AnswerOf(t: Transmission, z: Sizes): P.Answer {
    if !Legible(t, z) then P.Comp(0)
    else
      match MessageOf(t, z)
      case PubRec(id) => P.Rec(id)
      case PubComp(id) => P.Comp(id)
      case _ => P.Comp(0)
  }

  function Incomings(ts: seq<Transmission>, z: Sizes): (r: seq<Q.Incoming>)
    ensures |r| == |ts|
  {
    seq(|ts|, i requires 0 <= i < |ts| => IncomingOf(ts[i], z))
  }

  function Answers(ts: seq<Transmission>, z: Sizes): (r: seq<P.Answer>)
    ensures |r| == |ts|
  {
    seq(|ts|, i requires 0 <= i < |ts| => AnswerOf(ts[i], z))
  }

  // -------------------------------------------------------------------------
  // Steps
  // -------------------------------------------------------------------------

  predicate Initial(s: System) {
    s == System(true, [], 0, map[], {}, true, [], [], [], [], [])
  }

  function PublishPacket(s: System, step: Step, z: Sizes): Packet
    requires step.Publishes?
  {
    var id := IdOf(s.allocations);
    NewPacket(step.handle, PUBLISH, Writer.PublishFlags(2, step.retain),
      Writer.PublishBody(step.topic, id, step.payload), z.maxPacket, id, s.allocations)
  }

  /** Identifiers are not used twice, and topics are such that the receiver can take. */
  predicate Enabled(s: System, step: Step, z: Sizes) {
    match step
    case Publishes(topic, payload, _, _, _) =>
      && s.senderOpen && s.allocations < PERIOD && Writer.Readable(topic, z.maxTopic)
      && Sendable(PublishPacket(s, step, z))
    case QueuesOther(p) =>
      s.senderOpen && s.allocations < PERIOD && p.qos == 1 && p.serial == s.allocations && p.id == IdOf(s.allocations)
    case TakesIdentifier => s.allocations < PERIOD
    case OtherDone(_) => s.senderOpen
    case Resends(k, _) => s.senderOpen && k < |s.queue| && s.queue[k].tries > 0
    case ReceiverTakes(_) => s.receiverOpen && s.forward != []
    case ReceiverCannotAnswer => s.receiverOpen && s.forward != []
    case SenderTakes(_, _) => s.senderOpen && s.backward != []
    case SenderCannotRelease =>
      s.senderOpen && s.backward != [] && Legible(s.backward[0], z) && MessageOf(s.backward[0], z).PubRec?
    case SenderCloses => s.senderOpen
    case ReceiverCloses => s.receiverOpen
  }

  function SenderClosed(s: System): System {
    s.(senderOpen := false, queue := [])
  }

  function ReceiverClosed(s: System): System {
    s.(receiverOpen := false, store := [])
  }

  /** HandleAck: the packet with the identifier and QoS leaves the queue, or the
      connection is closed. */
  function Acknowledged(s: System, id: u16, qos: nat): System {
    var k := Find(s.queue, id);
    if k < |s.queue| && s.queue[k].qos == qos then s.(queue := RemoveAt(s.queue, k)) else SenderClosed(s)
  }

  /** HandlePubRec, if the PUBREL is sent. */
  function Released(s: System, id: u16, handle: nat, when: nat): System {
    var k := Find(s.queue, id);
    if k < |s.queue| && s.queue[k].qos == 2 then
      var rel := Release(handle, id, s.queue[k].serial);
      s.(queue := Insert(RemoveAt(s.queue, k), Queued(Tried(rel), 2, when)), forward := s.forward + [Shown(rel)])
    else SenderClosed(s)
  }

  /** Handle at the receiver, if the answer is sent. */
  function Handled(s: System, m: Message, handle: nat): System {
    var events := EventsOf(s.store, m);
    s.(store := StoreAfter(s.store, m), events := s.events + events,
       delivered := s.delivered + (if events != [] && m.Publish? then [m.id] else []),
       backward := s.backward + AnswerTo(m, handle))
  }

  function Apply(s: System, step: Step, z: Sizes): System
    requires Enabled(s, step, z)
  {
    match step
    case Publishes(topic, payload, retain, _, when) =>
      var p := PublishPacket(s, step, z);
      s.(queue := Insert(s.queue, Queued(Tried(p), 2, when)), allocations := s.allocations + 1,
         published := s.published[p.id := OnMessage(topic, payload, retain)], forward := s.forward + [Shown(p)])
    case QueuesOther(p) => s.(queue := Insert(s.queue, p), allocations := s.allocations + 1)
    case TakesIdentifier => s.(allocations := s.allocations + 1)
    case OtherDone(id) => Acknowledged(s, id, 1)
    case Resends(k, time) =>
      var p := s.queue[k];
      s.(queue := Insert(RemoveAt(s.queue, k), Again(p).(time := time)),
         forward := s.forward + if p.qos == 2 then [Shown(Marked(p))] else [])
    case ReceiverTakes(handle) =>
      var t, s' := s.forward[0], s.(forward := s.forward[1..]);
      if Legible(t, z) then Handled(s', MessageOf(t, z), handle) else ReceiverClosed(s')
    case ReceiverCannotAnswer => ReceiverClosed(s.(forward := s.forward[1..]))
    case SenderTakes(handle, when) =>
      var t, s' := s.backward[0], s.(backward := s.backward[1..]);
      if !Legible(t, z) then SenderClosed(s')
      else
        (match MessageOf(t, z)
         case PubRec(id) => Released(s'.(acknowledged := s.acknowledged + {id}), id, handle, when)
         case PubComp(id) => Acknowledged(s', id, 2)
         case _ => SenderClosed(s'))
    case SenderCannotRelease =>
      SenderClosed(s.(backward := s.backward[1..],
                      acknowledged := s.acknowledged + {MessageOf(s.backward[0], z).id}))
    case SenderCloses => SenderClosed(s)
    case ReceiverCloses => ReceiverClosed(s)
  }

  ghost predicate Run(s: System, steps: seq<Step>, s': System, z: Sizes)
    decreases |steps|
  {
    if steps == [] then s == s' else Enabled(s, steps[0], z) && Run(Apply(s, steps[0], z), steps[1..], s', z)
  }

  ghost predicate Reachable(s: System, z: Sizes) {
    exists s0, steps :: Initial(s0) && Run(s0, steps, s, z)
  }

  /** The state of the protocol. */
  function View(s: System, z: Sizes): P.State {
    P.State(s.senderOpen, Stages(s.queue), s.published.Keys, s.acknowledged,
      s.receiverOpen, s.store, s.delivered, Incomings(s.forward, z), Answers(s.backward, z))
  }

  // -------------------------------------------------------------------------
  // The invariant
  // -------------------------------------------------------------------------

  /** The packet is the publication with the identifier, as it was published, or
      releases it. */
  predicate Carries(t: Transmission, id: u16, published: map<u16, Event>, z: Sizes) {
    Legible(t, z) &&
    match MessageOf(t, z)
    case Publish(flags, topic, i, payload) =>
      t.typ == PUBLISH && QoSOf(flags) == 2 && i == id && id in published
      && published[id] == OnMessage(topic, payload, RetainOf(flags))
    case PubRel(i) => t.typ == PUBREL && i == id
    case _ => false
  }

  predicate IsAnswer(t: Transmission, z: Sizes) {
    Legible(t, z) && (MessageOf(t, z).PubRec? || MessageOf(t, z).PubComp?)
  }

  /** A queued packet has an identifier of its own, and at QoS 2 carries a publication. */
  predicate QueuedWell(p: Packet, allocations: nat, published: map<u16, Event>, z: Sizes) {
    && p.serial < allocations && p.id == IdOf(p.serial)
    && (p.qos == 2 ==> Carries(Shown(p), p.id, published, z))
  }

  ghost predicate Allocated(id: u16, allocations: nat) {
    exists n: nat :: n < allocations && id == IdOf(n)
  }

  ghost predicate QueueInv(q: seq<Packet>, allocations: nat, published: map<u16, Event>, z: Sizes) {
    Distinct(q, SerialOf) && forall p <- q :: QueuedWell(p, allocations, published, z)
  }

  ghost predicate SenderInv(s: System, z: Sizes) {
    && s.allocations <= PERIOD && QueueInv(s.queue, s.allocations, s.published, z)
    && (forall id <- s.published :: Allocated(id, s.allocations))
    && (!s.senderOpen ==> s.queue == [])
  }

  ghost predicate ChannelInv(s: System, z: Sizes) {
    && (forall t <- s.forward :: Carries(t, IncomingOf(t, z).id, s.published, z))
    && (forall t <- s.backward :: IsAnswer(t, z))
  }

  /** The callbacks are those of the publications delivered. */
  ghost predicate EventsInv(s: System) {
    |s.events| == |s.delivered| &&
    forall i :: 0 <= i < |s.events| ==> s.delivered[i] in s.published && s.events[i] == s.published[s.delivered[i]]
  }

  ghost predicate Inv(s: System, z: Sizes) {
    SenderInv(s, z) && ChannelInv(s, z) && EventsInv(s)
  }

  // -------------------------------------------------------------------------
  // What is carried
  // -------------------------------------------------------------------------

  lemma CarriesSeen(t: Transmission, id: u16, published: map<u16, Event>, z: Sizes)
    requires Carries(t, id, published, z)
    ensures IncomingOf(t, z) == Seen(t, id)
  {
  }

  lemma CarriesMore(t: Transmission, id: u16, published: map<u16, Event>, more: map<u16, Event>, z: Sizes)
    requires Carries(t, id, published, z)
    requires forall i <- published :: i in more && more[i] == published[i]
    ensures Carries(t, id, more, z)
  {
  }

  /** A mark as a duplicate changes nothing else. */
  lemma CarriesMarked(p: Packet, id: u16, published: map<u16, Event>, z: Sizes)
    requires Carries(Shown(p), id, published, z)
    ensures Carries(Shown(Marked(p)), id, published, z)
  {
    MarkKeepsFlags(p.flags);
  }

  lemma MarkKeepsFlags(f: u4)
    ensures QoSOf(WithDup(f)) == QoSOf(f) && RetainOf(WithDup(f)) == RetainOf(f)
  {
  }

  lemma PublishCarries(s: System, step: Step, z: Sizes)
    requires step.Publishes? && Enabled(s, step, z)
    ensures var p := PublishPacket(s, step, z);
            Carries(Shown(p), p.id, s.published[p.id := OnMessage(step.topic, step.payload, step.retain)], z)
  {
    var id, flags := IdOf(s.allocations), Writer.PublishFlags(2, step.retain);
    IdsDistinct(s.allocations, s.allocations);
    assert QoSOf(flags) == 2 && RetainOf(flags) == step.retain;
    Writer.BodyReadBack(flags, step.topic, id, step.payload, z.maxTopic);
  }

  lemma WordBack(id: u16)
    ensures WordAt(WordBytes(id)) == id
  {
    WordRoundTrip(id, []);
    assert WordBytes(id) + [] == WordBytes(id);
  }

  lemma ReleaseCarries(handle: nat, id: u16, serial: nat, published: map<u16, Event>, z: Sizes)
    ensures Carries(Shown(Release(handle, id, serial)), id, published, z)
  {
    WordBack(id);
  }

  /** The answer to a publication or its release. */
  lemma AnswerCarries(m: Message, handle: nat, z: Sizes)
    requires if m.Publish? then QoSOf(m.flags) == 2 else m.PubRel?
    ensures |AnswerTo(m, handle)| == 1
    ensures var t := AnswerTo(m, handle)[0];
            IsAnswer(t, z) && AnswerOf(t, z) == if m.Publish? then P.Rec(m.id) else P.Comp(m.id)
  {
    WordBack(m.id);
  }

  // -------------------------------------------------------------------------
  // Identifiers
  // -------------------------------------------------------------------------

  lemma QueueIdsDistinct(s: System, z: Sizes)
    requires SenderInv(s, z)
    ensures Distinct(s.queue, IdentifierOf)
  {
    forall i, j | 0 <= i < j < |s.queue|
      ensures IdentifierOf(s.queue[i]) != IdentifierOf(s.queue[j])
    {
      var p, r := s.queue[i], s.queue[j];
      assert p in s.queue && r in s.queue && QueuedWell(p, s.allocations, s.published, z);
      assert QueuedWell(r, s.allocations, s.published, z) && SerialOf(p) != SerialOf(r);
      IdsDistinct(p.serial, r.serial);
    }
  }

  /** A new identifier is in use nowhere. */
  lemma NewIdIsNew(s: System, z: Sizes)
    requires SenderInv(s, z) && s.allocations < PERIOD
    ensures var id := IdOf(s.allocations);
            id != 0 && id !in s.published && forall p <- s.queue :: p.id != id && p.serial != s.allocations
  {
    var id := IdOf(s.allocations);
    IdsDistinct(s.allocations, s.allocations);
    if id in s.published {
      assert Allocated(id, s.allocations);
      var n: nat :| n < s.allocations && id == IdOf(n);
      IdsDistinct(n, s.allocations);
    }
    forall p <- s.queue
      ensures p.id != id && p.serial != s.allocations
    {
      assert QueuedWell(p, s.allocations, s.published, z);
      IdsDistinct(p.serial, s.allocations);
    }
  }

  // -------------------------------------------------------------------------
  // The queue keeps its invariant
  // -------------------------------------------------------------------------

  lemma InsertKeeps(q: seq<Packet>, p: Packet, allocations: nat, published: map<u16, Event>, z: Sizes)
    requires QueueInv(q, allocations, published, z) && QueuedWell(p, allocations, published, z)
    requires forall x <- q :: x.serial != p.serial
    ensures QueueInv(Insert(q, p), allocations, published, z)
  {
    var k := Slot(q, p.time);
    InsertIsAtSlot(q, p);
    InsertMembers(q, k, p);
    assert forall x <- q :: SerialOf(x) != SerialOf(p);
    DistinctInsert(q, k, p, SerialOf);
  }

  lemma RemoveKeeps(q: seq<Packet>, k: nat, allocations: nat, published: map<u16, Event>, z: Sizes)
    requires QueueInv(q, allocations, published, z) && k < |q|
    ensures QueueInv(RemoveAt(q, k), allocations, published, z) && QueuedWell(q[k], allocations, published, z)
    ensures forall x <- RemoveAt(q, k) :: x.serial != q[k].serial
  {
    DistinctRemove(q, k, SerialOf);
    assert forall x <- RemoveAt(q, k) :: SerialOf(x) != SerialOf(q[k]);
    assert q[k] in q;
    assert q == q[..k] + [q[k]] + q[k + 1..];
  }

  lemma MoreKeeps(q: seq<Packet>, allocations: nat, published: map<u16, Event>, more: map<u16, Event>, z: Sizes)
    requires QueueInv(q, allocations, published, z)
    requires forall i <- published :: i in more && more[i] == published[i]
    ensures QueueInv(q, allocations + 1, more, z)
  {
    forall p <- q
      ensures QueuedWell(p, allocations + 1, more, z)
    {
      assert QueuedWell(p, allocations, published, z);
      if p.qos == 2 {
        CarriesMore(Shown(p), p.id, published, more, z);
      }
    }
  }

  // -------------------------------------------------------------------------
  // Every step is one of the protocol, or none
  // -------------------------------------------------------------------------

  lemma IncomingsPlus(ts: seq<Transmission>, t: Transmission, z: Sizes)
    ensures Incomings(ts + [t], z) == Incomings(ts, z) + [IncomingOf(t, z)]
  {
  }

  lemma AnswersPlus(ts: seq<Transmission>, t: Transmission, z: Sizes)
    ensures Answers(ts + [t], z) == Answers(ts, z) + [AnswerOf(t, z)]
  {
  }

  lemma ChannelTails(ts: seq<Transmission>, z: Sizes)
    requires ts != []
    ensures Incomings(ts[1..], z) == Incomings(ts, z)[1..] && Answers(ts[1..], z) == Answers(ts, z)[1..]
    ensures forall t <- ts[1..] :: t in ts
  {
  }

  /** At most one step of the protocol. */
  ghost predicate Matches(v: P.State, steps: seq<P.Step>, v': P.State) {
    if steps == [] then v' == v else |steps| == 1 && P.Enabled(v, steps[0]) && v' == P.Apply(v, steps[0])
  }

  lemma PublishesSimulates(s: System, step: Step, z: Sizes)
    requires Inv(s, z) && Enabled(s, step, z) && step.Publishes?
    ensures Inv(Apply(s, step, z), z)
    ensures Matches(View(s, z), [P.Publishes(IdOf(s.allocations))], View(Apply(s, step, z), z))
  {
    var p, s' := PublishPacket(s, step, z), Apply(s, step, z);
    var queued := Queued(Tried(p), 2, step.when);
    NewIdIsNew(s, z);
    QueueIdsDistinct(s, z);
    PublishCarries(s, step, z);
    CarriesSeen(Shown(p), p.id, s'.published, z);
    IncomingsPlus(s.forward, Shown(p), z);
    PublishRefines(View(s, z), s.queue, queued);
    MoreKeeps(s.queue, s.allocations, s.published, s'.published, z);
    assert Shown(queued) == Shown(p) && queued.id == p.id;
    InsertKeeps(s.queue, queued, s'.allocations, s'.published, z);
    AllocatedMore(s, s', z);
    ForwardMore(s, s', z);
    assert View(s', z).published == View(s, z).published + {p.id};
  }

  lemma AllocatedMore(s: System, s': System, z: Sizes)
    requires SenderInv(s, z) && s'.allocations == s.allocations + 1
    requires s'.published.Keys <= s.published.Keys + {IdOf(s.allocations)}
    ensures forall id <- s'.published :: Allocated(id, s'.allocations)
  {
    forall id <- s'.published
      ensures Allocated(id, s'.allocations)
    {
      if id in s.published {
        assert Allocated(id, s.allocations);
        var n: nat :| n < s.allocations && id == IdOf(n);
        assert n < s'.allocations;
      } else {
        assert s.allocations < s'.allocations;
      }
    }
  }

  /** One more packet in the channel, and one more publication. */
  lemma ForwardMore(s: System, s': System, z: Sizes)
    requires ChannelInv(s, z) && s'.backward == s.backward
    requires forall i <- s.published :: i in s'.published && s'.published[i] == s.published[i]
    requires forall t <- s'.forward :: t in s.forward || Carries(t, IncomingOf(t, z).id, s'.published, z)
    ensures ChannelInv(s', z)
  {
    forall t <- s'.forward
      ensures Carries(t, IncomingOf(t, z).id, s'.published, z)
    {
      if t in s.forward {
        CarriesMore(t, IncomingOf(t, z).id, s.published, s'.published, z);
      }
    }
  }

  lemma QueuesOtherSimulates(s: System, step: Step, z: Sizes)
    requires Inv(s, z) && Enabled(s, step, z) && (step.QueuesOther? || step.TakesIdentifier?)
    ensures Inv(Apply(s, step, z), z)
    ensures Matches(View(s, z), [], View(Apply(s, step, z), z))
  {
    var s' := Apply(s, step, z);
    NewIdIsNew(s, z);
    QueueIdsDistinct(s, z);
    MoreKeeps(s.queue, s.allocations, s.published, s.published, z);
    AllocatedMore(s, s', z);
    if step.QueuesOther? {
      OtherComes(s.queue, step.p);
      InsertKeeps(s.queue, step.p, s'.allocations, s.published, z);
    }
  }

  lemma ClosingKeepsInv(s: System, z: Sizes)
    requires Inv(s, z)
    ensures Inv(SenderClosed(s), z) && View(SenderClosed(s), z) == P.SenderClosed(View(s, z))
    ensures Inv(ReceiverClosed(s), z) && View(ReceiverClosed(s), z) == P.ReceiverClosed(View(s, z))
  {
  }

  lemma OtherDoneSimulates(s: System, id: u16, z: Sizes)
    requires Inv(s, z) && s.senderOpen
    ensures Inv(Acknowledged(s, id, 1), z)
    ensures var k := Find(s.queue, id);
            Matches(View(s, z), if k < |s.queue| && s.queue[k].qos == 1 then [] else [P.SenderCloses],
              View(Acknowledged(s, id, 1), z))
  {
    var k := Find(s.queue, id);
    QueueIdsDistinct(s, z);
    ClosingKeepsInv(s, z);
    if k < |s.queue| && s.queue[k].qos == 1 {
      RemoveKeeps(s.queue, k, s.allocations, s.published, z);
      OtherGoes(s.queue, k);
    }
  }

  lemma ResendsSimulates(s: System, step: Step, z: Sizes)
    requires Inv(s, z) && Enabled(s, step, z) && step.Resends?
    ensures Inv(Apply(s, step, z), z)
    ensures var p := s.queue[step.k];
            Matches(View(s, z), if p.qos == 2 then [P.Retransmits(p.id)] else [], View(Apply(s, step, z), z))
  {
    var k, p, s' := step.k, s.queue[step.k], Apply(s, step, z);
    var again := Again(p).(time := step.time);
    QueueIdsDistinct(s, z);
    RemoveKeeps(s.queue, k, s.allocations, s.published, z);
    assert again.id == p.id && again.serial == p.serial && again.qos == p.qos && Shown(again) == Shown(Marked(p));
    if p.qos == 2 {
      CarriesMarked(p, p.id, s.published, z);
      CarriesSeen(Shown(Marked(p)), p.id, s.published, z);
      IncomingsPlus(s.forward, Shown(Marked(p)), z);
      ResendRefines(View(s, z), s.queue, k, step.time);
    } else {
      OtherGoes(s.queue, k);
      OtherComes(RemoveAt(s.queue, k), again);
      assert s.forward + [] == s.forward;
    }
    InsertKeeps(RemoveAt(s.queue, k), again, s.allocations, s.published, z);
    ForwardMore(s, s', z);
  }

  /** Taking the front packet out of a channel. */
  lemma TailsKeepInv(s: System, z: Sizes)
    requires Inv(s, z)
    ensures s.forward != [] ==> Inv(s.(forward := s.forward[1..]), z)
    ensures s.backward != [] ==> Inv(s.(backward := s.backward[1..]), z)
  {
    if s.forward != [] {
      ChannelTails(s.forward, z);
    }
    if s.backward != [] {
      ChannelTails(s.backward, z);
    }
  }

  lemma HandledKeepsInv(s: System, m: Message, handle: nat, z: Sizes)
    requires Inv(s, z) && if m.Publish? then QoSOf(m.flags) == 2 else m.PubRel?
    requires m.Publish? ==> m.id in s.published && s.published[m.id] == OnMessage(m.topic, m.payload, RetainOf(m.flags))
    ensures Inv(Handled(s, m, handle), z)
  {
    AnswerCarries(m, handle, z);
  }

  lemma ReceiverTakesSimulates(s: System, handle: nat, z: Sizes)
    requires Inv(s, z) && Enabled(s, ReceiverTakes(handle), z)
    ensures Inv(Apply(s, ReceiverTakes(handle), z), z)
    ensures Matches(View(s, z), [P.ReceiverTakes], View(Apply(s, ReceiverTakes(handle), z), z))
  {
    var t, s1 := s.forward[0], s.(forward := s.forward[1..]);
    assert t in s.forward;
    assert Carries(t, IncomingOf(t, z).id, s.published, z);
    var m := MessageOf(t, z);
    TailsKeepInv(s, z);
    ChannelTails(s.forward, z);
    HandledKeepsInv(s1, m, handle, z);
    AnswerCarries(m, handle, z);
    AnswersPlus(s.backward, AnswerTo(m, handle)[0], z);
    assert AnswerTo(m, handle) == [AnswerTo(m, handle)[0]];
    assert s.delivered + [] == s.delivered;
    assert View(s, z).forward[0] == IncomingOf(t, z);
    ReceiverRefines(View(s, z), m, handle);
  }

  /** The answers that the sender takes. */
  lemma SenderTakesRec(s: System, s1: System, id: u16, handle: nat, when: nat, z: Sizes)
    requires Inv(s1, z) && s1.senderOpen && s1.forward == s.forward && s1 == s.(backward := s1.backward)
    ensures var s' := Released(s1.(acknowledged := s.acknowledged + {id}), id, handle, when);
            Inv(s', z) && View(s', z) == P.OnRec(View(s1, z), id)
  {
    var k := Find(s1.queue, id);
    QueueIdsDistinct(s1, z);
    PubRecRefines(View(s1, z), s1.queue, id, handle, when);
    var s2 := s1.(acknowledged := s.acknowledged + {id});
    assert Inv(s2, z);
    ClosingKeepsInv(s2, z);
    if k < |s1.queue| && s1.queue[k].qos == 2 {
      var serial := s1.queue[k].serial;
      var rel := Release(handle, id, serial);
      var queued := Queued(Tried(rel), 2, when);
      RemoveKeeps(s1.queue, k, s1.allocations, s1.published, z);
      ReleaseCarries(handle, id, serial, s1.published, z);
      CarriesSeen(Shown(rel), id, s1.published, z);
      IncomingsPlus(s1.forward, Shown(rel), z);
      assert Shown(queued) == Shown(rel) && queued.serial == serial && queued.id == id;
      InsertKeeps(RemoveAt(s1.queue, k), queued, s1.allocations, s1.published, z);
      ForwardMore(s2, Released(s2, id, handle, when), z);
    }
  }

  lemma SenderTakesComp(s: System, id: u16, z: Sizes)
    requires Inv(s, z) && s.senderOpen
    ensures Inv(Acknowledged(s, id, 2), z) && View(Acknowledged(s, id, 2), z) == P.OnComp(View(s, z), id)
  {
    var k := Find(s.queue, id);
    QueueIdsDistinct(s, z);
    PubCompRefines(View(s, z), s.queue, id);
    ClosingKeepsInv(s, z);
    if k < |s.queue| && s.queue[k].qos == 2 {
      RemoveKeeps(s.queue, k, s.allocations, s.published, z);
    }
  }

  lemma SenderTakesSimulates(s: System, handle: nat, when: nat, z: Sizes)
    requires Inv(s, z) && Enabled(s, SenderTakes(handle, when), z)
    ensures Inv(Apply(s, SenderTakes(handle, when), z), z)
    ensures Matches(View(s, z), [P.SenderTakes], View(Apply(s, SenderTakes(handle, when), z), z))
  {
    var t, s1 := s.backward[0], s.(backward := s.backward[1..]);
    assert t in s.backward;
    assert IsAnswer(t, z);
    TailsKeepInv(s, z);
    ChannelTails(s.backward, z);
    assert View(s, z).backward[0] == AnswerOf(t, z);
    assert View(s1, z) == View(s, z).(backward := View(s, z).backward[1..]);
    if MessageOf(t, z).PubRec? {
      SenderTakesRec(s, s1, MessageOf(t, z).id, handle, when, z);
    } else {
      SenderTakesComp(s1, MessageOf(t, z).id, z);
    }
  }

  lemma ClosesSimulates(s: System, step: Step, z: Sizes)
    requires Inv(s, z) && Enabled(s, step, z)
    requires step.ReceiverCannotAnswer? || step.SenderCannotRelease? || step.SenderCloses? || step.ReceiverCloses?
    ensures Inv(Apply(s, step, z), z)
    ensures Matches(View(s, z), [ClosingStep(step)], View(Apply(s, step, z), z))
  {
    TailsKeepInv(s, z);
    ClosingKeepsInv(s, z);
    match step {
      case ReceiverCannotAnswer =>
        ChannelTails(s.forward, z);
        ClosingKeepsInv(s.(forward := s.forward[1..]), z);
      case SenderCannotRelease =>
        var t := s.backward[0];
        ChannelTails(s.backward, z);
        assert View(s, z).backward[0] == AnswerOf(t, z);
        var s1 := s.(backward := s.backward[1..]);
        var s2 := s1.(acknowledged := s.acknowledged + {MessageOf(t, z).id});
        assert Inv(s2, z);
        ClosingKeepsInv(s2, z);
      case _ =>
    }
  }

  function ClosingStep(step: Step): P.Step {
    match step
    case ReceiverCannotAnswer => P.ReceiverCannotAnswer
    case SenderCannotRelease => P.SenderCannotRelease
    case ReceiverCloses => P.ReceiverCloses
    case _ => P.SenderCloses
  }

  /** The step of the protocol for a step, if there is one. */
  function ProtocolSteps(s: System, step: Step): seq<P.Step> {
    match step
    case Publishes(_, _, _, _, _) => [P.Publishes(IdOf(s.allocations))]
    case QueuesOther(_) => []
    case TakesIdentifier => []
    case OtherDone(id) =>
      var k := Find(s.queue, id);
      if k < |s.queue| && s.queue[k].qos == 1 then [] else [P.SenderCloses]
    case Resends(k, _) => if k < |s.queue| && s.queue[k].qos == 2 then [P.Retransmits(s.queue[k].id)] else []
    case ReceiverTakes(_) => [P.ReceiverTakes]
    case SenderTakes(_, _) => [P.SenderTakes]
    case _ => [ClosingStep(step)]
  }

  /** Every step keeps the invariant and is the step of the protocol, or none. */
  lemma StepSimulates(s: System, step: Step, z: Sizes)
    requires Inv(s, z) && Enabled(s, step, z)
    ensures Inv(Apply(s, step, z), z)
    ensures Matches(View(s, z), ProtocolSteps(s, step), View(Apply(s, step, z), z))
  {
    match step {
      case Publishes(_, _, _, _, _) => PublishesSimulates(s, step, z);
      case QueuesOther(_) => QueuesOtherSimulates(s, step, z);
      case TakesIdentifier => QueuesOtherSimulates(s, step, z);
      case OtherDone(id) => OtherDoneSimulates(s, id, z);
      case Resends(_, _) => ResendsSimulates(s, step, z);
      case ReceiverTakes(handle) => ReceiverTakesSimulates(s, handle, z);
      case SenderTakes(handle, when) => SenderTakesSimulates(s, handle, when, z);
      case _ => ClosesSimulates(s, step, z);
    }
  }

  // -------------------------------------------------------------------------
  // Every run is a run of the protocol
  // -------------------------------------------------------------------------

  lemma {:induction false} ProtocolRunSnoc(v: P.State, steps: seq<P.Step>, v': P.State, step: P.Step)
    requires P.Run(v, steps, v') && P.Enabled(v', step)
    ensures P.Run(v, steps + [step], P.Apply(v', step))
    decreases |steps|
  {
    if steps == [] {
      assert [] + [step] == [step] && [step][1..] == [];
    } else {
      assert (steps + [step])[1..] == steps[1..] + [step];
      ProtocolRunSnoc(P.Apply(v, steps[0]), steps[1..], v', step);
    }
  }

  lemma MatchedIsReachable(v: P.State, steps: seq<P.Step>, v': P.State)
    requires P.Reachable(v) && Matches(v, steps, v')
    ensures P.Reachable(v')
  {
    if steps != [] {
      var v0, before :| P.Initial(v0) && P.Run(v0, before, v);
      ProtocolRunSnoc(v0, before, v, steps[0]);
    }
  }

  lemma {:induction false} RunSimulates(s: System, steps: seq<Step>, s': System, z: Sizes)
    requires Inv(s, z) && P.Reachable(View(s, z)) && Run(s, steps, s', z)
    ensures Inv(s', z) && P.Reachable(View(s', z))
    decreases |steps|
  {
    if steps != [] {
      StepSimulates(s, steps[0], z);
      MatchedIsReachable(View(s, z), ProtocolSteps(s, steps[0]), View(Apply(s, steps[0], z), z));
      RunSimulates(Apply(s, steps[0], z), steps[1..], s', z);
    }
  }

  lemma ReachableSimulates(s: System, z: Sizes)
    requires Reachable(s, z)
    ensures Inv(s, z) && P.Reachable(View(s, z))
  {
    var s0, steps :| Initial(s0) && Run(s0, steps, s, z);
    assert P.Initial(View(s0, z));
    assert P.Run(View(s0, z), [], View(s0, z));
    RunSimulates(s0, steps, s, z);
  }

  // -------------------------------------------------------------------------
  // The promise
  // -------------------------------------------------------------------------

  /** Whatever is retransmitted, lost by a close or answered late: the callbacks of the
      receiver are publications as they were published, no publication is among them
      twice, and one whose PUBREC is on its way or was received is among them. */
  lemma PublicationsReachTheApplicationOnce(s: System, z: Sizes)
    requires Reachable(s, z)
    ensures |s.events| == |s.delivered|
    ensures forall i :: 0 <= i < |s.events| ==>
              s.delivered[i] in s.published && s.events[i] == s.published[s.delivered[i]]
    ensures forall i, j :: 0 <= i < j < |s.delivered| ==> s.delivered[i] != s.delivered[j]
    ensures forall id :: id in s.acknowledged || P.Rec(id) in Answers(s.backward, z) ==> id in s.delivered
  {
    ReachableSimulates(s, z);
    var v := View(s, z);
    forall i, j | 0 <= i < j < |s.delivered|
      ensures s.delivered[i] != s.delivered[j]
    {
      P.ExactlyOnce(v, s.delivered[i]);
      if s.delivered[i] == s.delivered[j] {
        Twice(s.delivered, i, j);
      }
    }
    forall id | id in s.acknowledged || P.Rec(id) in Answers(s.backward, z)
      ensures id in s.delivered
    {
      P.ExactlyOnce(v, id);
    }
  }

  lemma Twice(s: seq<u16>, i: nat, j: nat)
    requires i < j < |s| && s[i] == s[j]
    ensures Q.Count(s, s[i]) >= 2
  {
    assert s == s[..i] + [s[i]] + s[i + 1..j] + [s[j]] + s[j + 1..];
  }
}
