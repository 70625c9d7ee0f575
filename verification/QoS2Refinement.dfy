/** The handlers of the client do what the steps of the QoS 2 protocol say.

    The stages of the protocol are the QoS 2 packets in the retransmission queue,
    by identifier.  Identifiers are unique in the queue while its packets stem from
    allocations within one period (QueuedIdsUnique). */
module QoS2Refinement {
  import opened Bytes
  import opened Frames
  import opened RetransmissionQueue
  import opened PacketIdentifiers
  import opened SenderPass
  import opened Deliveries
  import opened MqttClients
  import P = QoS2Protocol
  import Q = QoS2

  function StageOf(p: Packet): P.Stage {
    if p.typ == PUBREL then P.AwaitComp else P.AwaitRec
  }

  function Stages(q: seq<Packet>): map<u16, P.Stage> {
    if q == [] then map[]
    else
      var rest := Stages(q[1..]);
      if q[0].qos == 2 then rest[q[0].id := StageOf(q[0])] else rest
  }

  /** What a packet of the queue is to the receiver. */
  function Seen(t: Transmission, id: u16): Q.Incoming {
    if t.typ == PUBREL then Q.PubRel(id) else Q.Publish(id)
  }

  lemma {:induction false} StageOfMember(q: seq<Packet>, p: Packet)
    requires Distinct(q, IdentifierOf) && p in q && p.qos == 2
    ensures p.id in Stages(q) && Stages(q)[p.id] == StageOf(p)
  {
    var i :| 0 <= i < |q| && q[i] == p;
    if i > 0 {
      assert q[1..][i - 1] == p && IdentifierOf(q[0]) != IdentifierOf(q[i]);
      assert forall j :: 0 <= j < |q| - 1 ==> q[1..][j] == q[j + 1];
      StageOfMember(q[1..], p);
    }
  }

  lemma {:induction false} StageHasMember(q: seq<Packet>, id: u16)
    requires id in Stages(q)
    ensures exists p <- q :: p.qos == 2 && p.id == id
  {
    if q[0].qos == 2 && q[0].id == id {
      assert q[0] in q;
    } else {
      StageHasMember(q[1..], id);
    }
  }

  /** The QoS 2 packets of `q` are in `r`, up to what does not matter here. */
  ghost predicate Within(q: seq<Packet>, r: seq<Packet>) {
    forall p <- q | p.qos == 2 :: exists x <- r :: x.qos == 2 && x.id == p.id && StageOf(x) == StageOf(p)
  }

  lemma StagesWithin(q: seq<Packet>, r: seq<Packet>, id: u16)
    requires Distinct(q, IdentifierOf) && Distinct(r, IdentifierOf) && Within(q, r) && id in Stages(q)
    ensures id in Stages(r) && Stages(r)[id] == Stages(q)[id]
  {
    StageHasMember(q, id);
    var p :| p in q && p.qos == 2 && p.id == id;
    StageOfMember(q, p);
    var x :| x in r && x.qos == 2 && x.id == p.id && StageOf(x) == StageOf(p);
    StageOfMember(r, x);
  }

  lemma SameStages(q: seq<Packet>, r: seq<Packet>)
    requires Distinct(q, IdentifierOf) && Distinct(r, IdentifierOf) && Within(q, r) && Within(r, q)
    ensures Stages(q) == Stages(r)
  {
    forall id: u16
      ensures id in Stages(q) <==> id in Stages(r)
      ensures id in Stages(q) ==> Stages(q)[id] == Stages(r)[id]
    {
      if id in Stages(q) { StagesWithin(q, r, id); }
      if id in Stages(r) { StagesWithin(r, q, id); }
    }
  }

  lemma StagesInsert(q: seq<Packet>, p: Packet)
    requires Distinct(q, IdentifierOf) && forall x <- q :: x.id != p.id
    ensures Distinct(Insert(q, p), IdentifierOf)
    ensures Stages(Insert(q, p)) == if p.qos == 2 then Stages(q)[p.id := StageOf(p)] else Stages(q)
  {
    var k := Slot(q, p.time);
    InsertIsAtSlot(q, p);
    assert forall x <- q :: IdentifierOf(x) != IdentifierOf(p);
    DistinctInsert(q, k, p, IdentifierOf);
    assert Distinct([p] + q, IdentifierOf) by {
      assert InsertAt(q, 0, p) == [p] + q;
      DistinctInsert(q, 0, p, IdentifierOf);
    }
    InsertMembers(q, k, p);
    assert Within(Insert(q, p), [p] + q) && Within([p] + q, Insert(q, p));
    SameStages(Insert(q, p), [p] + q);
    assert ([p] + q)[1..] == q;
  }

  lemma MembersRemove(q: seq<Packet>, k: nat)
    requires Distinct(q, IdentifierOf) && k < |q|
    ensures Distinct(RemoveAt(q, k), IdentifierOf)
    ensures forall x <- RemoveAt(q, k) :: x in q && x.id != q[k].id
    ensures forall x <- q :: x == q[k] || x in RemoveAt(q, k)
  {
    DistinctRemove(q, k, IdentifierOf);
    assert forall x <- RemoveAt(q, k) :: IdentifierOf(x) != IdentifierOf(q[k]);
    assert q == q[..k] + [q[k]] + q[k + 1..];
  }

  lemma StagesRemove(q: seq<Packet>, k: nat)
    requires Distinct(q, IdentifierOf) && k < |q|
    ensures Distinct(RemoveAt(q, k), IdentifierOf) && forall x <- RemoveAt(q, k) :: x.id != q[k].id
    ensures Stages(RemoveAt(q, k)) == Stages(q) - {q[k].id}
    ensures q[k].qos == 2 ==> q[k].id in Stages(q) && Stages(q)[q[k].id] == StageOf(q[k])
    ensures q[k].qos != 2 ==> q[k].id !in Stages(q)
  {
    MembersRemove(q, k);
    var r := RemoveAt(q, k);
    forall id: u16
      ensures id in Stages(r) <==> id in Stages(q) && id != q[k].id
      ensures id in Stages(r) ==> Stages(r)[id] == Stages(q)[id]
    {
      StageRemoved(q, r, q[k], id);
    }
    if q[k].qos == 2 {
      StageOfMember(q, q[k]);
    } else if q[k].id in Stages(q) {
      StageHasMember(q, q[k].id);
    }
  }

  lemma StageRemoved(q: seq<Packet>, r: seq<Packet>, gone: Packet, id: u16)
    requires Distinct(q, IdentifierOf) && Distinct(r, IdentifierOf)
    requires forall x <- r :: x in q && x.id != gone.id
    requires forall x <- q :: x == gone || x in r
    ensures id in Stages(r) <==> id in Stages(q) && id != gone.id
    ensures id in Stages(r) ==> Stages(r)[id] == Stages(q)[id]
  {
    if id in Stages(r) {
      StageHasMember(r, id);
      var p :| p in r && p.qos == 2 && p.id == id;
      StageOfMember(r, p);
      StageOfMember(q, p);
    } else if id in Stages(q) && id != gone.id {
      StageHasMember(q, id);
      var p :| p in q && p.qos == 2 && p.id == id;
      StageOfMember(r, p);
    }
  }

  // -------------------------------------------------------------------------
  // The sender
  // -------------------------------------------------------------------------

  /** `Publish` at QoS 2. */
  lemma PublishRefines(s: P.State, q: seq<Packet>, p: Packet)
    requires s.senderOpen && s.stages == Stages(q) && Distinct(q, IdentifierOf)
    requires p.qos == 2 && p.typ == PUBLISH && p.id != 0 && p.id !in s.published && forall x <- q :: x.id != p.id
    ensures P.Enabled(s, P.Publishes(p.id))
    ensures var s' := P.Apply(s, P.Publishes(p.id));
            s'.stages == Stages(Insert(q, p)) && s'.forward == s.forward + [Seen(Shown(p), p.id)]
  {
    StagesInsert(q, p);
  }

  lemma StagesReplace(q: seq<Packet>, k: nat, p: Packet)
    requires Distinct(q, IdentifierOf) && k < |q| && q[k].qos == 2 && p.qos == 2 && p.id == q[k].id
    requires StageOf(p) == StageOf(q[k])
    ensures Stages(Insert(RemoveAt(q, k), p)) == Stages(q)
    ensures p.id in Stages(q) && Stages(q)[p.id] == StageOf(p)
  {
    StagesRemove(q, k);
    StagesInsert(RemoveAt(q, k), p);
    assert (Stages(q) - {p.id})[p.id := StageOf(p)] == Stages(q);
  }

  lemma SeenByStage(p: Packet)
    ensures Seen(Shown(Marked(p)), p.id) == if StageOf(p).AwaitRec? then Q.Publish(p.id) else Q.PubRel(p.id)
  {
  }

  lemma RetransmitStep(s: P.State, id: u16)
    requires s.senderOpen && id in s.stages
    ensures P.Enabled(s, P.Retransmits(id))
    ensures var s' := P.Apply(s, P.Retransmits(id));
            && s'.stages == s.stages
            && s'.forward == s.forward + [if s.stages[id].AwaitRec? then Q.Publish(id) else Q.PubRel(id)]
  {
  }

  /** A packet sent again by `Sender`. */
  lemma ResendRefines(s: P.State, q: seq<Packet>, k: nat, when: u32)
    requires s.senderOpen && s.stages == Stages(q) && Distinct(q, IdentifierOf) && k < |q| && q[k].qos == 2
    ensures var p := q[k];
            && P.Enabled(s, P.Retransmits(p.id))
            && var s' := P.Apply(s, P.Retransmits(p.id));
               && s'.stages == Stages(Insert(RemoveAt(q, k), Again(p).(time := when)))
               && s'.forward == s.forward + [Seen(Shown(Marked(p)), p.id)]
  {
    var again := Again(q[k]).(time := when);
    assert again.id == q[k].id && again.qos == 2 && StageOf(again) == StageOf(q[k]);
    StagesReplace(q, k, again);
    SeenByStage(q[k]);
    RetransmitStep(s, q[k].id);
  }

  /** PUBREC: what HandlePubRec does to the queue. */
  lemma PubRecRefines(s: P.State, q: seq<Packet>, id: u16, handle: nat, when: nat)
    requires s.senderOpen && s.stages == Stages(q) && Distinct(q, IdentifierOf)
    ensures var k, s' := Find(q, id), P.OnRec(s, id);
            if k < |q| && q[k].qos == 2 then
              var rel := Release(handle, id, q[k].serial);
              && s'.senderOpen && s'.stages == Stages(Insert(RemoveAt(q, k), Queued(Tried(rel), 2, when)))
              && s'.forward == s.forward + [Seen(Shown(rel), id)]
            else !s'.senderOpen && s'.stages == Stages([]) && s'.forward == s.forward
  {
    var k := Find(q, id);
    if k < |q| {
      StagesRemove(q, k);
      if q[k].qos == 2 {
        var rel := Release(handle, id, q[k].serial);
        StagesInsert(RemoveAt(q, k), Queued(Tried(rel), 2, when));
        assert (Stages(q) - {id})[id := P.AwaitComp] == Stages(q)[id := P.AwaitComp];
      }
    } else if id in Stages(q) {
      StageHasMember(q, id);
    }
  }

  /** PUBCOMP: what HandleAck at QoS 2 does to the queue. */
  lemma PubCompRefines(s: P.State, q: seq<Packet>, id: u16)
    requires s.senderOpen && s.stages == Stages(q) && Distinct(q, IdentifierOf)
    ensures var k, s' := Find(q, id), P.OnComp(s, id);
            if k < |q| && q[k].qos == 2 then s'.senderOpen && s'.stages == Stages(RemoveAt(q, k))
            else !s'.senderOpen && s'.stages == Stages([])
  {
    var k := Find(q, id);
    if k < |q| {
      StagesRemove(q, k);
    } else if id in Stages(q) {
      StageHasMember(q, id);
    }
  }

  /** Packets at QoS 1 come and go without a step of the protocol. */
  lemma OtherComes(q: seq<Packet>, p: Packet)
    requires Distinct(q, IdentifierOf) && p.qos != 2 && forall x <- q :: x.id != p.id
    ensures Distinct(Insert(q, p), IdentifierOf) && Stages(Insert(q, p)) == Stages(q)
  {
    StagesInsert(q, p);
  }

  lemma OtherGoes(q: seq<Packet>, k: nat)
    requires Distinct(q, IdentifierOf) && k < |q| && q[k].qos != 2
    ensures Distinct(RemoveAt(q, k), IdentifierOf) && Stages(RemoveAt(q, k)) == Stages(q)
    ensures forall x <- RemoveAt(q, k) :: x.id != q[k].id
  {
    StagesRemove(q, k);
    assert Stages(q) - {q[k].id} == Stages(q);
  }

  // -------------------------------------------------------------------------
  // The receiver
  // -------------------------------------------------------------------------

  function Answering(t: Transmission, id: u16): P.Answer {
    if t.typ == PUBREC then P.Rec(id) else P.Comp(id)
  }

  /** A PUBLISH at QoS 2 or a PUBREL that is answered: what Handle does. */
  lemma ReceiverRefines(s: P.State, m: Message, handle: nat)
    requires P.Enabled(s, P.ReceiverTakes)
    requires if m.Publish? then QoSOf(m.flags) == 2 && s.forward[0] == Q.Publish(m.id)
             else m.PubRel? && s.forward[0] == Q.PubRel(m.id)
    ensures var s' := P.Apply(s, P.ReceiverTakes);
            && s'.store == StoreAfter(s.store, m)
            && s'.delivered == s.delivered + (if EventsOf(s.store, m) != [] then [m.id] else [])
            && |AnswerTo(m, handle)| == 1 && s'.backward == s.backward + [Answering(AnswerTo(m, handle)[0], m.id)]
  {
    assert s.delivered + [] == s.delivered;
  }
}
