/** The packet values of the client stand for objects of the class SendPacket. */
module PacketObjects {
  import opened Bytes
  import opened Frames
  import opened RetransmissionQueue
  import opened SenderPass
  import opened SendPackets
  import opened MqttClients

  /** The object is in the state that the value says. */
  ghost predicate Represents(o: SendPacket, p: Packet)
    reads o, o.buffer
  {
    && o.Valid() && o.typ == p.typ && o.flags == p.flags && o.sendTries == p.tries
    && o.error == p.error && (!p.error ==> o.Body() == p.body)
  }

  /** What a transmission of the client is on the wire. */
  function OnWire(t: Transmission): seq<u8> {
    Wire(t.typ, t.flags, t.body)
  }

  /** `Send` on the object is `Tried` on the value, and hands over what is `Shown`. */
  method Send(o: SendPacket, ghost p: Packet, accepted: bool) returns (ok: bool)
    requires Represents(o, p) && |o.Body()| < BODY_LIMIT
    modifies o`sendTries, o`handed, o.buffer
    ensures Represents(o, Tried(p)) && o.Body() == old(o.Body()) && ok == (Sendable(p) && accepted)
    ensures o.handed == old(o.handed) + if Sendable(p) then [OnWire(Shown(p))] else []
    ensures old(o.SameEveryTime()) ==> o.SameEveryTime()
  {
    ok := o.Send(accepted);
  }

  /** Marking the object as a duplicate is `Marked` on the value; what was sent
      before is then still the same but for that mark. */
  method Mark(o: SendPacket, ghost p: Packet)
    requires Represents(o, p)
    modifies o`flags
    ensures Represents(o, Marked(p)) && o.Body() == old(o.Body())
    ensures old(o.SameEveryTime()) ==> o.SameEveryTime()
  {
    if o.typ == PUBLISH {
      o.SetFlags(WithDup(o.flags));
    }
  }

  /** The packet when it was marked and sent `n` times. */
  function Repeated(p: Packet, n: nat): Packet {
    if n == 0 then p else Tried(Marked(Repeated(p, n - 1)))
  }

  /** What is handed to the socket meanwhile. */
  function HandedOver(p: Packet, n: nat): seq<seq<u8>> {
    if n == 0 then []
    else
      var q := Marked(Repeated(p, n - 1));
      HandedOver(p, n - 1) + if Sendable(q) then [OnWire(Shown(q))] else []
  }

  /** Each send takes a try while there is one. */
  lemma {:induction false} TriesTaken(p: Packet, n: nat)
    ensures var sends := if p.error then 0 else if n < p.tries then n else p.tries;
            && Repeated(p, n).error == p.error && Repeated(p, n).tries == p.tries - sends
            && |HandedOver(p, n)| == sends
  {
    if n > 0 {
      TriesTaken(p, n - 1);
    }
  }

  /** The bytes `w` are those of the packet `p` with its flags as they were built, but for
      the DUP bit of a PUBLISH, which is 8 in the first byte, and set. */
  predicate SentOnceMore(w: seq<u8>, p: Packet) {
    var first := Wire(p.typ, p.flags, p.body);
    && |w| == |first| && w[1..] == first[1..]
    && w[0] as int == first[0] as int + if p.typ == PUBLISH && !DupOf(p.flags) then 8 else 0
  }

  /** Every retransmission is like that. */
  lemma {:induction false} HandedOverIsMarked(p: Packet, n: nat)
    ensures forall w <- HandedOver(p, n) :: SentOnceMore(w, p)
    ensures Repeated(p, n).typ == p.typ && Repeated(p, n).body == p.body
    ensures Repeated(p, n).flags
            == if n > 0 && p.typ == PUBLISH && !DupOf(p.flags) then p.flags as int + 8 else p.flags as int
  {
    if n > 0 {
      HandedOverIsMarked(p, n - 1);
      MarkedBytes(Repeated(p, n - 1), p);
    }
  }

  lemma MarkedBytes(q: Packet, p: Packet)
    requires q.typ == p.typ && q.body == p.body
    requires q.flags == p.flags || (p.typ == PUBLISH && !DupOf(p.flags) && q.flags as int == p.flags as int + 8)
    ensures SentOnceMore(OnWire(Shown(Marked(q))), p)
    ensures Marked(q).flags as int
            == p.flags as int + if p.typ == PUBLISH && !DupOf(p.flags) then 8 else 0
  {
    MarkingSetsDup(p.flags);
    MarkingSetsDup(q.flags);
    FlagsAreBits(p.flags);
    FlagsAreBits(q.flags);
  }

  /** However often `Sender` sends a packet: each time the same bytes but for the DUP
      bit, once for each call while a try is left, and not at all after an error. */
  method Retransmit(o: SendPacket, ghost p: Packet, accepted: seq<bool>)
    requires Represents(o, p) && |o.Body()| < BODY_LIMIT && o.SameEveryTime()
    modifies o`flags, o`sendTries, o`handed, o.buffer
    ensures Represents(o, Repeated(p, |accepted|)) && o.SameEveryTime() && o.Body() == old(o.Body())
    ensures o.handed == old(o.handed) + HandedOver(p, |accepted|) && |o.handed| <= 5
    ensures forall w <- HandedOver(p, |accepted|) :: SentOnceMore(w, p)
    ensures var n := |o.handed| - |old(o.handed)|;
            n == if p.error then 0 else if |accepted| < p.tries then |accepted| else p.tries
  {
    for i := 0 to |accepted|
      invariant Represents(o, Repeated(p, i)) && o.SameEveryTime() && o.Body() == old(o.Body())
      invariant o.handed == old(o.handed) + HandedOver(p, i)
    {
      ghost var q := Repeated(p, i);
      Mark(o, q);
      var _ := Send(o, Marked(q), accepted[i]);
    }
    TriesTaken(p, |accepted|);
    HandedOverIsMarked(p, |accepted|);
  }
}
