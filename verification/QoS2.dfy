/** Delivery at QoS 2 (section 4.3.3 of MQTT v3.1.1): the sender's stages, the
    receiver's identifier store, and the two of them joined by FIFO channels. */
module QoS2 {
  import opened Bytes

  // -------------------------------------------------------------------------
  // The receiver's store of packet identifiers
  // -------------------------------------------------------------------------

  ghost predicate NoDuplicates(store: seq<u16>) {
    forall i, j :: 0 <= i < j < |store| ==> store[i] != store[j]
  }

  /** Handling a PUBLISH: whether it goes to `OnMessage`, and the store then. */
  function Fresh(store: seq<u16>, id: u16): bool {
    id !in store
  }

  function Remembered(store: seq<u16>, id: u16): seq<u16> {
    if id in store then store else [id] + store
  }

  /** Handling a PUBREL: the first occurrence is removed. */
  function Forgotten(store: seq<u16>, id: u16): (r: seq<u16>) {
    if store == [] then []
    else if store[0] == id then store[1..]
    else [store[0]] + Forgotten(store[1..], id)
  }

  lemma {:induction false} ForgottenMembers(store: seq<u16>, id: u16)
    requires NoDuplicates(store)
    ensures NoDuplicates(Forgotten(store, id))
    ensures forall x: u16 :: x in Forgotten(store, id) <==> x in store && x != id
  {
    if store != [] {
      var rest := store[1..];
      assert store == [store[0]] + rest;
      assert forall i, j :: 0 <= i < j < |rest| ==> rest[i] == store[i + 1] && rest[j] == store[j + 1];
      assert forall i :: 0 <= i < |rest| ==> rest[i] == store[i + 1];
      ForgottenMembers(rest, id);
      assert store[0] !in rest;
    }
  }

  // -------------------------------------------------------------------------
  // The receiver on arbitrary traffic
  // -------------------------------------------------------------------------

  datatype Incoming = Publish(id: u16) | PubRel(id: u16)

  /** The store and the `OnMessage` calls after some incoming packets. */
  function Receive(trace: seq<Incoming>): (r: (seq<u16>, seq<u16>)) {
    if trace == [] then ([], [])
    else
      var (store, calls) := Receive(trace[..|trace| - 1]);
      match trace[|trace| - 1]
      case Publish(id) => (Remembered(store, id), if Fresh(store, id) then calls + [id] else calls)
      case PubRel(id) => (Forgotten(store, id), calls)
  }

  function Count<T(==)>(s: seq<T>, x: T): nat {
    multiset(s)[x]
  }

  /** A PUBLISH with no earlier one for its identifier since the last PUBREL. */
  predicate OpensExchange(trace: seq<Incoming>, k: nat)
    requires k < |trace|
  {
    trace[k].Publish? && !Pending(trace[..k], trace[k].id)
  }

  /** The last packet for the identifier was a PUBLISH. */
  predicate Pending(trace: seq<Incoming>, id: u16) {
    trace != [] &&
    var last := trace[|trace| - 1];
    if last.id == id then last.Publish? else Pending(trace[..|trace| - 1], id)
  }

  function Openings(trace: seq<Incoming>, id: u16): nat {
    if trace == [] then 0
    else
      var n := |trace| - 1;
      Openings(trace[..n], id) + if trace[n].id == id && OpensExchange(trace, n) then 1 else 0
  }

  /** Whatever arrives, the store holds no identifier twice and exactly those with
      an exchange open, and `OnMessage` is called once per exchange. */
  lemma {:induction false} ReceiverOnAnyTrace(trace: seq<Incoming>, id: u16)
    ensures var (store, calls) := Receive(trace);
            && NoDuplicates(store)
            && (id in store <==> Pending(trace, id))
            && Count(calls, id) == Openings(trace, id)
    decreases |trace|
  {
    if trace != [] {
      var n := |trace| - 1;
      var (store, calls) := Receive(trace[..n]);
      ReceiverOnAnyTrace(trace[..n], id);
      ReceiverOnAnyTrace(trace[..n], trace[n].id);
      if trace[n].PubRel? {
        ForgottenMembers(store, trace[n].id);
      }
    }
  }
}
