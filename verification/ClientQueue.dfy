/** What the client keeps true of its retransmission queue. */
module ClientQueue {
  import opened Bytes
  import opened Frames
  import opened Ticks
  import opened RetransmissionQueue
  import opened PacketIdentifiers
  import opened SendPackets

  /** The handle of a packet on the stack. */
  const NO_HANDLE := 0

  /** Types that are queued for retransmission. */
  predicate Queueable(typ: u4) {
    typ in {PUBLISH, PUBREL, SUBSCRIBE, UNSUBSCRIBE}
  }

  /** The QoS under which a packet of this type is queued. */
  predicate RightQoS(typ: u4, qos: nat) {
    && (typ == PUBREL ==> qos == 2)
    && (typ == SUBSCRIBE || typ == UNSUBSCRIBE ==> qos == 1)
  }

  /** The packet waits for an acknowledgement and carries the identifier of its
      allocation, one of the first `count`. */
  predicate WellQueued(p: Packet, count: nat) {
    && Queueable(p.typ) && !p.error && |p.body| < BODY_LIMIT
    && (p.qos == 1 || p.qos == 2) && RightQoS(p.typ, p.qos)
    && p.serial < count && p.id == IdOf(p.serial)
  }

  /** The heap packets `live` are those in the queue and `extra`, each once; the
      queue shows the unbounded times `due`. */
  ghost predicate QueueInv(q: seq<Packet>, due: seq<nat>, count: nat,
                           live: set<nat>, extra: set<nat>, nextHandle: nat) {
    && Distinct(q, HandleOf) && Distinct(q, SerialOf)
    && live == Handles(q) + extra && Handles(q) !! extra
    && NO_HANDLE < nextHandle && (forall h <- live :: NO_HANDLE < h < nextHandle)
    && (forall p <- q :: WellQueued(p, count))
    && Shows(q, due)
  }

  /** A packet outside the queue may go into it. */
  ghost predicate MayQueue(q: seq<Packet>, p: Packet, count: nat) {
    WellQueued(p, count) && forall x <- q :: x.serial != p.serial
  }

  lemma InsertInv(q: seq<Packet>, due: seq<nat>, count: nat, live: set<nat>, nextHandle: nat,
                  p: Packet, when: nat)
    requires QueueInv(q, due, count, live, {p.handle}, nextHandle)
    requires MayQueue(q, p, count) && p.time == Wrap(when)
    ensures var k := Slot(q, p.time);
            && QueueInv(Insert(q, p), InsertAt(due, k, when), count, live, {}, nextHandle)
            && (Sorted(due) && AllClose(due, when) ==> Sorted(InsertAt(due, k, when)))
  {
    var k := Slot(q, p.time);
    InsertIsAtSlot(q, p);
    if Sorted(due) && AllClose(due, when) {
      InsertRefines(q, due, p, when);
    }
    InsertMembers(q, k, p);
    assert forall x <- q :: x.handle in Handles(q);
    DistinctInsert(q, k, p, HandleOf);
    DistinctInsert(q, k, p, SerialOf);
    ShowsInsert(q, due, k, p, when);
  }

  lemma SortedRemove(due: seq<nat>, k: nat)
    requires Sorted(due) && k < |due|
    ensures Sorted(RemoveAt(due, k))
  {
    var r := RemoveAt(due, k);
    assert forall i :: 0 <= i < |r| ==> r[i] == if i < k then due[i] else due[i + 1];
  }

  lemma ShowsRemove(q: seq<Packet>, due: seq<nat>, k: nat)
    requires Shows(q, due) && k < |q|
    ensures Shows(RemoveAt(q, k), RemoveAt(due, k))
  {
  }

  lemma RemoveInv(q: seq<Packet>, due: seq<nat>, count: nat, live: set<nat>, extra: set<nat>, nextHandle: nat,
                  k: nat)
    requires QueueInv(q, due, count, live, extra, nextHandle) && k < |q|
    ensures |due| == |q|
    ensures QueueInv(RemoveAt(q, k), RemoveAt(due, k), count, live, extra + {q[k].handle}, nextHandle)
    ensures q[k].handle !in extra && MayQueue(RemoveAt(q, k), q[k], count)
    ensures Sorted(due) ==> Sorted(RemoveAt(due, k))
  {
    RemoveMembers(q, k);
    DistinctRemove(q, k, HandleOf);
    DistinctRemove(q, k, SerialOf);
    ShowsRemove(q, due, k);
    if Sorted(due) {
      SortedRemove(due, k);
    }
    assert forall x <- RemoveAt(q, k) :: SerialOf(x) != SerialOf(q[k]);
  }

  /** Allocating a packet. */
  lemma AllocateInv(q: seq<Packet>, due: seq<nat>, count: nat, live: set<nat>, nextHandle: nat)
    requires QueueInv(q, due, count, live, {}, nextHandle) && nextHandle > NO_HANDLE
    ensures QueueInv(q, due, count, live + {nextHandle}, {nextHandle}, nextHandle + 1)
  {
    assert live == Handles(q);
    assert nextHandle !in live;
  }

  /** A further identifier is allocated. */
  lemma CountInv(q: seq<Packet>, due: seq<nat>, count: nat, live: set<nat>, extra: set<nat>, nextHandle: nat)
    requires QueueInv(q, due, count, live, extra, nextHandle)
    ensures QueueInv(q, due, count + 1, live, extra, nextHandle)
    ensures forall x <- q :: x.serial != count
  {
    assert forall p <- q :: WellQueued(p, count);
    assert forall p <- q :: WellQueued(p, count + 1);
  }

  /** Deleting a packet that is not queued. */
  lemma DeleteInv(q: seq<Packet>, due: seq<nat>, count: nat, live: set<nat>, extra: set<nat>, nextHandle: nat,
                  h: nat)
    requires QueueInv(q, due, count, live, extra + {h}, nextHandle) && h !in extra
    ensures h in live && QueueInv(q, due, count, live - {h}, extra, nextHandle)
  {
  }
}
