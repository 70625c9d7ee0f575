/** Packet identifiers (section 2.3.1 of MQTT v3.1.1): a 16-bit counter that skips 0. */
module PacketIdentifiers {
  import opened Bytes
  import opened RetransmissionQueue

  /** Identifiers repeat after this many allocations. */
  const PERIOD := 0xFFFF

  /** The increment of `Publish`, `Subscribe` and `Unsubscribe`. */
  function NextId(id: u16): u16 {
    var next := if id == 0xFFFF then 0 else id + 1;
    if next == 0 then next + 1 else next
  }

  /** The identifier of allocation number `n` on a connection. */
  function IdOf(n: nat): u16 {
    if n == 0 then 1 else NextId(IdOf(n - 1))
  }

  lemma {:induction false} IdClosedForm(n: nat)
    ensures IdOf(n) == 1 + n % PERIOD
  {
    if n > 0 {
      IdClosedForm(n - 1);
      Successor(n);
    }
  }

  lemma Successor(n: nat)
    requires n > 0
    ensures n % PERIOD == if (n - 1) % PERIOD == PERIOD - 1 then 0 else (n - 1) % PERIOD + 1
  {
    var q, r := (n - 1) / PERIOD, (n - 1) % PERIOD;
    assert n == q * PERIOD + r + 1;
    if r == PERIOD - 1 {
      Remainder(n, q + 1, 0);
    } else {
      Remainder(n, q, r + 1);
    }
  }

  lemma Remainder(x: int, q: int, r: int)
    requires x == q * PERIOD + r && 0 <= r < PERIOD
    ensures x % PERIOD == r
  {
  }

  /** Never 0, and two allocations share an identifier exactly when they are a
      multiple of 65535 apart; so 65535 in a row are pairwise distinct. */
  lemma IdsDistinct(m: nat, n: nat)
    ensures IdOf(m) != 0
    ensures IdOf(m) == IdOf(n) <==> (m - n) % PERIOD == 0
    ensures m != n && -PERIOD < m - n < PERIOD ==> IdOf(m) != IdOf(n)
  {
    IdClosedForm(m);
    IdClosedForm(n);
    RemaindersDiffer(m, n);
    if m > n {
      if m - n < PERIOD { Remainder(m - n, 0, m - n); }
    } else if m < n < m + PERIOD {
      Remainder(m - n, -1, m - n + PERIOD);
    }
  }

  lemma RemaindersDiffer(m: nat, n: nat)
    ensures m % PERIOD == n % PERIOD <==> (m - n) % PERIOD == 0
  {
    var a, b, d := m % PERIOD, n % PERIOD, m / PERIOD - n / PERIOD;
    assert m - n == d * PERIOD + (a - b);
    if a >= b {
      Remainder(m - n, d, a - b);
    } else {
      Remainder(m - n, d - 1, a - b + PERIOD);
    }
  }

  /** All queued packets stem from allocations within one period. */
  ghost predicate InOnePeriod(q: seq<Packet>) {
    forall p, r | p in q && r in q :: p.serial - r.serial < PERIOD
  }

  /** If each queued packet carries the identifier of an allocation of its own and
      these lie within one period, then identifiers are unique in the queue, and
      removing the first match removes the only one. */
  lemma QueuedIdsUnique(q: seq<Packet>)
    requires Distinct(q, SerialOf) && InOnePeriod(q) && forall p <- q :: p.id == IdOf(p.serial)
    ensures Distinct(q, IdentifierOf)
    ensures forall id: u16 | Find(q, id) < |q| :: forall p <- RemoveAt(q, Find(q, id)) :: p.id != id
  {
    forall i, j | 0 <= i < j < |q|
      ensures IdentifierOf(q[i]) != IdentifierOf(q[j])
    {
      assert q[i] in q && q[j] in q && SerialOf(q[i]) != SerialOf(q[j]);
      IdsDistinct(q[i].serial, q[j].serial);
    }
    forall id: u16 | Find(q, id) < |q|
      ensures forall p <- RemoveAt(q, Find(q, id)) :: p.id != id
    {
      DistinctRemove(q, Find(q, id), IdentifierOf);
      assert forall p <- RemoveAt(q, Find(q, id)) :: IdentifierOf(p) != IdentifierOf(q[Find(q, id)]);
    }
  }
}
