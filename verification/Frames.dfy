/** One MQTT packet on the wire and what the client reads from it. */
module Frames {
  import opened Bytes
  import RL = RemainingLength

  // Packet types (section 2.2.1 of MQTT v3.1.1)
  const CONNECT := 1
  const CONNACK := 2
  const PUBLISH := 3
  const PUBACK := 4
  const PUBREC := 5
  const PUBREL := 6
  const PUBCOMP := 7
  const SUBSCRIBE := 8
  const SUBACK := 9
  const UNSUBSCRIBE := 10
  const UNSUBACK := 11
  const PINGREQ := 12
  const PINGRESP := 13
  const DISCONNECT := 14

  const FLAG_RETAIN := 1
  const FLAG_DUP := 8

  type u4 = x: int | 0 <= x < 0x10

  function QoSOf(flags: u4): nat {
    flags / 2 % 4
  }

  function RetainOf(flags: u4): bool {
    flags % 2 == 1
  }

  function DupOf(flags: u4): bool {
    flags / 8 % 2 == 1
  }

  /** Bitwise or with MQTT_FLAG_DUP. */
  function WithDup(flags: u4): u4 {
    if DupOf(flags) then flags else flags + FLAG_DUP
  }

  /** The four flag bits of a PUBLISH (section 3.3.1 of MQTT v3.1.1): DUP, two bits for
      the QoS, and RETAIN. */
  lemma FlagsAreBits(f: u4)
    ensures f == (if DupOf(f) then 8 else 0) + 2 * QoSOf(f) + (if RetainOf(f) then 1 else 0)
    ensures QoSOf(f) <= 3
  {
  }

  lemma MarkingSetsDup(f: u4)
    ensures DupOf(WithDup(f)) && QoSOf(WithDup(f)) == QoSOf(f) && RetainOf(WithDup(f)) == RetainOf(f)
    ensures !DupOf(f) ==> WithDup(f) == f + 8
  {
  }

  // -------------------------------------------------------------------------
  // Finding a packet at the front of the buffer
  // -------------------------------------------------------------------------

  datatype Frame =
    | NeedMore
    | Malformed
    | Found(typ: u4, flags: u4, header: nat, remaining: nat)

  /** The checks of the switch in `Receive`. */
  predicate Acceptable(typ: u4, flags: u4, remaining: nat) {
    if typ == CONNACK || typ == PUBACK || typ == PUBREC || typ == PUBCOMP || typ == UNSUBACK then
      flags == 0 && remaining == 2
    else if typ == PUBREL then
      flags == 2 && remaining == 2
    else if typ == PUBLISH then
      QoSOf(flags) <= 2 && remaining >= if QoSOf(flags) == 0 then 3 else 5
    else if typ == SUBACK then
      flags == 0 && remaining >= 3
    else if typ == PINGRESP then
      flags == 0 && remaining == 0
    else
      false
  }

  /** What `Receive` makes of the bytes received so far. */
  function FrameOf(s: seq<u8>): (f: Frame)
    ensures f.Found? ==> 2 <= f.header && f.header + f.remaining <= |s| && Acceptable(f.typ, f.flags, f.remaining)
  {
    if |s| <= 1 then NeedMore
    else
      match RL.Decode(s[1..])
      case NeedMore => NeedMore
      case Malformed => Malformed
      case Length(remaining, size) =>
        if |s| < 1 + size + remaining then NeedMore
        else if Acceptable(s[0] / 0x10, s[0] % 0x10, remaining) then
          Found(s[0] / 0x10, s[0] % 0x10, 1 + size, remaining)
        else Malformed
  }

  /** The wire form of a packet. */
  function Wire(typ: u4, flags: u4, body: seq<u8>): seq<u8> {
    [typ * 0x10 + flags] + RL.Encode(|body|) + body
  }

  /** The framer finds a packet that is there, whatever follows it. */
  lemma FrameOfWire(typ: u4, flags: u4, body: seq<u8>, rest: seq<u8>)
    requires |body| < RL.MAX_LENGTH
    ensures var f, s := FrameOf(Wire(typ, flags, body) + rest), Wire(typ, flags, body) + rest;
            if Acceptable(typ, flags, |body|) then
              && f == Found(typ, flags, 1 + |RL.Encode(|body|)|, |body|)
              && s[f.header..f.header + f.remaining] == body
              && s[f.header + f.remaining..] == rest
            else f == Malformed
  {
    var s := Wire(typ, flags, body) + rest;
    assert s[1..] == RL.Encode(|body|) + (body + rest);
    RL.DecodeEncode(|body|, body + rest);
    var h := 1 + |RL.Encode(|body|)|;
    assert s[0] == typ * 0x10 + flags && s[0] / 0x10 == typ && s[0] % 0x10 == flags;
    assert s[h..h + |body|] == body && s[h + |body|..] == rest;
  }

  /** A packet the framer finds is the wire form of its parts. */
  lemma FrameIsWire(s: seq<u8>)
    requires FrameOf(s).Found?
    ensures var f := FrameOf(s);
            s == Wire(f.typ, f.flags, s[f.header..f.header + f.remaining]) + s[f.header + f.remaining..]
  {
    var f := FrameOf(s);
    RL.AcceptsExactlyEncodings(s[1..], f.remaining, f.header - 1);
    var e := RL.Encode(f.remaining);
    assert s[1..f.header] == e by { assert s[1..][..|e|] == e; }
    assert s[0] == f.typ * 0x10 + f.flags;
    assert s == [s[0]] + s[1..f.header] + s[f.header..f.header + f.remaining] + s[f.header + f.remaining..];
  }

  /** The verdict of the framer does not depend on how much it has seen beyond. */
  lemma FrameStable(s: seq<u8>, more: seq<u8>)
    requires !FrameOf(s).NeedMore?
    ensures FrameOf(s + more) == FrameOf(s)
  {
    RL.DecodeStable(s[1..], 0, more);
    assert (s + more)[1..] == s[1..] + more;
  }

  /** While a packet is not complete, less of it is there than its length. */
  lemma NeedMoreIsShorter(s: seq<u8>, more: seq<u8>)
    requires FrameOf(s).NeedMore? && FrameOf(s + more).Found?
    ensures |s| < FrameOf(s + more).header + FrameOf(s + more).remaining
  {
    var f := FrameOf(s + more);
    if |s| >= f.header + f.remaining {
      var e := RL.Encode(f.remaining);
      RL.AcceptsExactlyEncodings((s + more)[1..], f.remaining, f.header - 1);
      assert e <= s[1..] by { assert (s + more)[1..][..|e|] == s[1..][..|e|]; }
      RL.AcceptsExactlyEncodings(s[1..], f.remaining, f.header - 1);
    }
  }

  // -------------------------------------------------------------------------
  // Reading a packet
  // -------------------------------------------------------------------------

  datatype Message =
    | ConnAck(ackFlags: u8, code: u8)
    | Publish(flags: u4, topic: seq<u8>, id: u16, payload: seq<u8>)  // id 0 at QoS 0
    | PubAck(id: u16)
    | PubRec(id: u16)
    | PubRel(id: u16)
    | PubComp(id: u16)
    | SubAck(id: u16, code: u8)
    | UnsubAck(id: u16)
    | PingResp

  /** What `Receiver` gets out of a packet: a message and the number of body
      bytes taken for it, a refusal of the topic, an identifier of 0, or a
      failing assertion in `GetWord`. */
  datatype Reading =
    | Message(message: Message, taken: nat)
    | NotSupported
    | BadIdentifier
    | AssertionFails

  predicate Ascii(s: seq<u8>) {
    forall b <- s :: b < 0x80
  }

  /** `GetString`: empty when the string is empty or refused. */
  function StringOf(body: seq<u8>, bufferSize: nat): (s: seq<u8>)
    requires |body| >= 2
  {
    var n := WordAt(body);
    if |body| < 2 + n || n + 1 > bufferSize || !Ascii(body[2..2 + n]) then [] else body[2..2 + n]
  }

  function ReadPublish(flags: u4, body: seq<u8>, maxTopic: nat): Reading
    requires Acceptable(PUBLISH, flags, |body|)
  {
    var topic := StringOf(body, maxTopic + 1);
    var rest := body[2 + |topic|..];
    if topic == [] then NotSupported
    else if QoSOf(flags) == 0 then Message(Publish(flags, topic, 0, rest), |body|)
    else if |rest| < 2 then AssertionFails
    else if WordAt(rest) == 0 then BadIdentifier
    else Message(Publish(flags, topic, WordAt(rest), rest[2..]), |body|)
  }

  /** The topic can be taken and leaves no room for a packet identifier. */
  predicate NoRoomForIdentifier(body: seq<u8>, maxTopic: nat)
    requires |body| >= 2
  {
    var n := WordAt(body);
    0 < n <= maxTopic && |body| - 3 <= n <= |body| - 2 && Ascii(body[2..2 + n])
  }

  /** The assertion in `GetWord` fails exactly for a PUBLISH above QoS 0 that has no
      room for the identifier behind its topic. */
  lemma AssertionFailsIff(flags: u4, body: seq<u8>, maxTopic: nat)
    requires Acceptable(PUBLISH, flags, |body|)
    ensures ReadPublish(flags, body, maxTopic) == AssertionFails
            <==> QoSOf(flags) > 0 && NoRoomForIdentifier(body, maxTopic)
  {
    var topic := StringOf(body, maxTopic + 1);
    assert topic != [] ==> |topic| == WordAt(body);
  }

  function Read(typ: u4, flags: u4, body: seq<u8>, maxTopic: nat): (r: Reading)
    requires Acceptable(typ, flags, |body|)
    ensures r.Message? ==> r.taken <= |body|
  {
    if typ == CONNACK then Message(ConnAck(body[0], body[1]), 2)
    else if typ == PUBLISH then ReadPublish(flags, body, maxTopic)
    else if typ == PUBACK then Message(PubAck(WordAt(body)), 2)
    else if typ == PUBREC then Message(PubRec(WordAt(body)), 2)
    else if typ == PUBREL then Message(PubRel(WordAt(body)), 2)
    else if typ == PUBCOMP then Message(PubComp(WordAt(body)), 2)
    else if typ == SUBACK then Message(SubAck(WordAt(body), body[2]), 3)
    else if typ == UNSUBACK then Message(UnsubAck(WordAt(body)), 2)
    else Message(PingResp, 0)
  }

  /** Reading takes the whole body, with one exception: of a SUBACK it takes three
      bytes, so a longer one (more than one topic filter) leaves bytes behind. */
  lemma WholeBodyTakenIff(typ: u4, flags: u4, body: seq<u8>, maxTopic: nat)
    requires Acceptable(typ, flags, |body|) && Read(typ, flags, body, maxTopic).Message?
    ensures Read(typ, flags, body, maxTopic).taken == |body| <==> typ != SUBACK || |body| == 3
  {
  }
}
