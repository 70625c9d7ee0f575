/** The retransmission queue of mqttclient.cpp: packets sorted by scheduled time. */
module RetransmissionQueue {
  import opened Bytes
  import opened Frames
  import opened Ticks

  /** A CMQTTSendPacket as the client sees it.  `handle` stands for its address;
      `serial` is not in the object: the number of the allocation its packet
      identifier stems from. */
  datatype Packet = Packet(
    handle: nat, typ: u4, flags: u4, body: seq<u8>, error: bool, tries: nat,
    time: u32, qos: nat, id: u16, serial: nat)

  // -------------------------------------------------------------------------
  // Where a packet is inserted
  // -------------------------------------------------------------------------

  /** The loop of `InsertPacketIntoQueue`: the first element scheduled after `t`. */
  function Slot(q: seq<Packet>, t: u32): (k: nat)
    ensures k <= |q|
  {
    if q == [] || After(q[0].time, t) then 0 else 1 + Slot(q[1..], t)
  }

  function InsertAt<T>(s: seq<T>, k: nat, x: T): (r: seq<T>)
    requires k <= |s|
    ensures |r| == |s| + 1
  {
    s[..k] + [x] + s[k..]
  }

  /** The queue after `InsertPacketIntoQueue`. */
  function Insert(q: seq<Packet>, p: Packet): (r: seq<Packet>)
    ensures |r| == |q| + 1
  {
    if q == [] || After(q[0].time, p.time) then [p] + q else [q[0]] + Insert(q[1..], p)
  }

  lemma {:induction false} InsertIsAtSlot(q: seq<Packet>, p: Packet)
    ensures Insert(q, p) == InsertAt(q, Slot(q, p.time), p)
  {
    if q == [] || After(q[0].time, p.time) {
      assert q[..0] == [] && q[0..] == q;
    } else {
      InsertIsAtSlot(q[1..], p);
      var k := Slot(q[1..], p.time);
      assert q[..k + 1] == [q[0]] + q[1..][..k] && q[k + 1..] == q[1..][k..];
    }
  }

  /** The same on unbounded times. */
  function TrueSlot(due: seq<nat>, t: nat): (k: nat)
    ensures k <= |due|
  {
    if due == [] || due[0] > t then 0 else 1 + TrueSlot(due[1..], t)
  }

  ghost predicate Sorted(due: seq<nat>) {
    forall i, j :: 0 <= i < j < |due| ==> due[i] <= due[j]
  }

  /** The queue shows the times `due`, wrapped. */
  ghost predicate Shows(q: seq<Packet>, due: seq<nat>) {
    |q| == |due| && forall i :: 0 <= i < |q| ==> q[i].time == Wrap(due[i])
  }

  ghost predicate AllClose(due: seq<nat>, t: nat) {
    forall d <- due :: Close(d, t)
  }

  lemma {:induction false} SlotRefines(q: seq<Packet>, due: seq<nat>, t: nat)
    requires Shows(q, due) && AllClose(due, t)
    ensures Slot(q, Wrap(t)) == TrueSlot(due, t)
  {
    if due != [] {
      AfterIsLater(due[0], t);
      SlotRefines(q[1..], due[1..], t);
    }
  }

  lemma {:induction false} TrueSlotSplits(due: seq<nat>, t: nat)
    requires Sorted(due)
    ensures var k := TrueSlot(due, t);
            && (forall i :: 0 <= i < k ==> due[i] <= t)
            && (forall i :: k <= i < |due| ==> due[i] > t)
  {
    if due != [] && due[0] <= t {
      TrueSlotSplits(due[1..], t);
      assert forall i :: 1 <= i < |due| ==> due[i] == due[1..][i - 1];
    }
  }

  lemma InsertSorted(due: seq<nat>, k: nat, t: nat)
    requires Sorted(due) && k <= |due|
    requires (forall i :: 0 <= i < k ==> due[i] <= t) && (forall i :: k <= i < |due| ==> due[i] > t)
    ensures Sorted(InsertAt(due, k, t))
  {
    var r := InsertAt(due, k, t);
    forall i, j | 0 <= i < j < |r|
      ensures r[i] <= r[j]
    {
      var x, y := if i <= k then i else i - 1, if j <= k then j else j - 1;
      assert i != k ==> r[i] == due[x];
      assert j != k ==> r[j] == due[y];
    }
  }

  lemma ShowsInsert(q: seq<Packet>, due: seq<nat>, k: nat, p: Packet, t: nat)
    requires Shows(q, due) && k <= |q| && p.time == Wrap(t)
    ensures Shows(InsertAt(q, k, p), InsertAt(due, k, t))
  {
  }

  /** If all live times lie within half the counter range of the new one, then the
      32-bit queue does what a queue sorted by unbounded time does: the packet goes
      behind everything scheduled no later and before everything scheduled later,
      nothing else moves, and the queue stays sorted. */
  lemma InsertRefines(q: seq<Packet>, due: seq<nat>, p: Packet, t: nat)
    requires Shows(q, due) && Sorted(due) && AllClose(due, t) && p.time == Wrap(t)
    ensures var k := Slot(q, p.time);
            && (forall i :: 0 <= i < k ==> due[i] <= t)
            && (forall i :: k <= i < |due| ==> due[i] > t)
            && Insert(q, p) == q[..k] + [p] + q[k..]
            && Shows(Insert(q, p), InsertAt(due, k, t))
            && Sorted(InsertAt(due, k, t))
            && multiset(Insert(q, p)) == multiset(q) + multiset{p}
  {
    InsertIsAtSlot(q, p);
    SlotRefines(q, due, t);
    TrueSlotSplits(due, t);
    var k := Slot(q, p.time);
    InsertSorted(due, k, t);
    ShowsInsert(q, due, k, p, t);
    assert q == q[..k] + q[k..];
  }

  // -------------------------------------------------------------------------
  // Finding and removing by packet identifier
  // -------------------------------------------------------------------------

  /** The loop of `RemovePacketFromQueue`: the first packet with the identifier. */
  function Find(q: seq<Packet>, id: u16): (k: nat)
    ensures k <= |q|
    ensures k < |q| ==> q[k].id == id
    ensures forall i :: 0 <= i < k ==> q[i].id != id
  {
    if q == [] || q[0].id == id then 0 else 1 + Find(q[1..], id)
  }

  function RemoveAt<T>(s: seq<T>, k: nat): (r: seq<T>)
    requires k < |s|
    ensures |r| == |s| - 1
  {
    s[..k] + s[k + 1..]
  }

  ghost predicate Distinct(q: seq<Packet>, key: Packet -> int) {
    forall i, j :: 0 <= i < j < |q| ==> key(q[i]) != key(q[j])
  }

  const HandleOf: Packet -> int := (p: Packet) => p.handle
  const SerialOf: Packet -> int := (p: Packet) => p.serial
  const IdentifierOf: Packet -> int := (p: Packet) => p.id

  function Handles(q: seq<Packet>): set<nat> {
    set p <- q :: p.handle
  }

  lemma DistinctInsert(q: seq<Packet>, k: nat, p: Packet, key: Packet -> int)
    requires Distinct(q, key) && k <= |q| && forall x <- q :: key(x) != key(p)
    ensures Distinct(InsertAt(q, k, p), key)
  {
    var r := InsertAt(q, k, p);
    assert forall i :: 0 <= i < |r| ==> r[i] == if i < k then q[i] else if i == k then p else q[i - 1];
  }

  lemma DistinctRemove(q: seq<Packet>, k: nat, key: Packet -> int)
    requires Distinct(q, key) && k < |q|
    ensures Distinct(RemoveAt(q, k), key)
    ensures forall x <- RemoveAt(q, k) :: key(x) != key(q[k])
  {
    var r := RemoveAt(q, k);
    assert forall i :: 0 <= i < |r| ==> r[i] == if i < k then q[i] else q[i + 1];
  }

  lemma InsertMembers(q: seq<Packet>, k: nat, p: Packet)
    requires k <= |q|
    ensures forall x :: x in InsertAt(q, k, p) <==> x == p || x in q
    ensures Handles(InsertAt(q, k, p)) == Handles(q) + {p.handle}
  {
    assert q == q[..k] + q[k..];
    assert forall x :: x in InsertAt(q, k, p) <==> x == p || x in q;
  }

  lemma RemoveMembers(q: seq<Packet>, k: nat)
    requires k < |q| && Distinct(q, HandleOf)
    ensures forall x <- RemoveAt(q, k) :: x in q
    ensures Handles(RemoveAt(q, k)) == Handles(q) - {q[k].handle} && q[k].handle in Handles(q)
  {
    var r := RemoveAt(q, k);
    DistinctRemove(q, k, HandleOf);
    assert q == q[..k] + [q[k]] + q[k + 1..];
    assert forall x :: x in q <==> x == q[k] || x in r;
    assert forall x <- r :: HandleOf(x) != HandleOf(q[k]);
  }
}
