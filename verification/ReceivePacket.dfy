/** The incremental framer of mqttreceivepacket.cpp: a byte buffer that is filled
    by the socket, read by the accessors and shifted down by `Complete`. */
module ReceivePackets {
  import opened Bytes
  import opened Frames
  import RL = RemainingLength

  /** One call of the socket: an error, or the bytes it had ready (none is 0). */
  datatype Chunk = SocketError | Bytes(data: seq<u8>)

  datatype Verdict = Continue | PacketOK | PacketInvalid | PeerGone | NotEnoughMemory

  /** The verdict on the bytes in the buffer. */
  function VerdictOf(s: seq<u8>): Verdict {
    match FrameOf(s)
    case NeedMore => Continue
    case Malformed => PacketInvalid
    case Found(_, _, _, _) => PacketOK
  }

  /** What `GetString` gives, told from the bytes behind the length. */
  lemma StringBehind(s: seq<u8>, n: nat, bufferSize: nat)
    requires |s| >= 2 && n == WordAt(s)
    ensures StringOf(s, bufferSize)
            == if |s| < 2 + n || n + 1 > bufferSize || !Ascii(s[2..][..n]) then [] else s[2..][..n]
  {
    assert |s| >= 2 + n ==> s[2..2 + n] == s[2..][..n];
  }

  class ReceivePacket {
    const frameSize: nat       // FRAME_BUFFER_SIZE
    const bufferSize: nat
    const buffer: array<u8>
    var inPtr: nat
    var outPtr: nat
    var typ: u4
    var flags: u4
    var remaining: nat
    var consumed: nat
    ghost var header: nat      // length of the fixed header of the packet being read

    constructor (maxPacketSize: nat, maxPacketsQueued: nat, frameSize: nat)
      requires maxPacketSize >= 128 && maxPacketsQueued >= 1
      ensures Valid() && fresh(buffer)
      ensures this.frameSize == frameSize && bufferSize == maxPacketSize * maxPacketsQueued + frameSize
      ensures Pending() == []
    {
      this.frameSize := frameSize;
      bufferSize := maxPacketSize * maxPacketsQueued + frameSize;
      buffer := new u8[maxPacketSize * maxPacketsQueued + frameSize];
      inPtr, outPtr, typ, flags, remaining, consumed, header := 0, 0, 0, 0, 0, 0, 0;
    }

    ghost predicate Valid()
      reads this
    {
      buffer.Length == bufferSize && frameSize <= bufferSize && inPtr <= bufferSize
    }

    /** The bytes taken from the socket and not yet dropped by `Complete`. */
    ghost function Pending(): seq<u8>
      requires Valid()
      reads this, buffer
    {
      buffer[..inPtr]
    }

    /** An acceptable packet stands at the front of the buffer and is partly read. */
    ghost predicate Reading()
      reads this
    {
      && Valid()
      && header + remaining <= inPtr
      && Acceptable(typ, flags, remaining)
      && consumed <= remaining && outPtr == header + consumed
    }

    /** The bytes of the packet's body, and those not read yet. */
    ghost function Body(): (s: seq<u8>)
      requires Reading()
      reads this, buffer
      ensures |s| == remaining
    {
      buffer[header..header + remaining]
    }

    lemma BodyIsPending()
      requires Reading()
      ensures Body() == Pending()[header..header + remaining]
    {
    }

    ghost function Unread(): (s: seq<u8>)
      requires Reading()
      reads this, buffer
      ensures s == buffer[outPtr..header + remaining]
    {
      Body()[consumed..]
    }

    method Reset()
      requires Valid()
      modifies this
      ensures Valid() && Pending() == []
    {
      inPtr := 0;
    }

    /** Drop what was read and move the rest to the front of the buffer. */
    method Complete()
      requires Valid() && outPtr <= inPtr
      modifies this, buffer
      ensures Valid() && Pending() == old(Pending()[outPtr..])
    {
      ghost var was, from := buffer[..], outPtr;
      var i := 0;
      while inPtr > outPtr
        invariant buffer.Length == bufferSize && 0 <= i <= outPtr <= inPtr == old(inPtr) <= bufferSize
        invariant outPtr == from + i
        invariant forall k :: 0 <= k < i ==> buffer[k] == was[from + k]
        invariant forall k :: outPtr <= k < inPtr ==> buffer[k] == was[k]
        decreases inPtr - outPtr
      {
        buffer[i] := buffer[outPtr];
        i, outPtr := i + 1, outPtr + 1;
      }
      inPtr := i;
      assert buffer[..inPtr] == was[from..old(inPtr)];
    }

    method Receive(chunk: Chunk) returns (verdict: Verdict)
      requires Valid() && (chunk.Bytes? ==> |chunk.data| <= frameSize)
      modifies this, buffer
      ensures Valid()
      ensures verdict == NotEnoughMemory <==> old(inPtr) > bufferSize - frameSize
      ensures verdict == PeerGone <==> old(inPtr) <= bufferSize - frameSize && chunk.SocketError?
      ensures verdict == NotEnoughMemory || verdict == PeerGone ==> Pending() == old(Pending())
      ensures verdict != NotEnoughMemory && chunk.Bytes? ==>
                Pending() == old(Pending()) + chunk.data && verdict == VerdictOf(Pending())
      ensures verdict == PacketOK ==>
                Reading() && consumed == 0 && FrameOf(Pending()) == Found(typ, flags, header, remaining)
    {
      if inPtr > bufferSize - frameSize {
        return NotEnoughMemory;
      }
      if chunk.SocketError? {
        return PeerGone;
      }
      Store(chunk.data);
      var size, length;
      size, length, verdict := DecodeLength();
      if verdict != PacketOK {
        return;
      }
      outPtr, header := size, size;
      if inPtr < outPtr + length {
        return Continue;
      }
      typ, flags := buffer[0] / 0x10, buffer[0] % 0x10;
      remaining, consumed := length, 0;
      if !Acceptable(typ, flags, length) {
        return PacketInvalid;
      }
      return PacketOK;
    }

    /** The socket writes into the buffer behind what is there. */
    method Store(data: seq<u8>)
      requires Valid() && inPtr + |data| <= bufferSize
      modifies this`inPtr, buffer
      ensures Valid() && Pending() == old(Pending()) + data
    {
      forall k | 0 <= k < |data| {
        buffer[inPtr + k] := data[k];
      }
      inPtr := inPtr + |data|;
    }

    /** The do/while loop of `Receive`. */
    method DecodeLength() returns (size: nat, length: nat, verdict: Verdict)
      requires Valid()
      ensures verdict in {Continue, PacketInvalid, PacketOK}
      ensures var s := Pending();
              match if |s| <= 1 then RL.NeedMore else RL.Decode(s[1..])
              case NeedMore => verdict == Continue
              case Malformed => verdict == PacketInvalid
              case Length(value, n) => verdict == PacketOK && length == value && size == 1 + n
    {
      ghost var s := if inPtr >= 1 then buffer[1..inPtr] else [];
      assert inPtr >= 1 ==> s == Pending()[1..];
      size, length := 1, 0;
      var shift, more := 0, true;    // nShift, in units of seven bits
      while more
        invariant 0 <= shift <= 4 && size == 1 + shift
        invariant 1 <= shift ==> size <= inPtr
        invariant if more then RL.Adjusted(RL.DecodeFrom(s, shift), length, RL.Pow128(shift)) == RL.Decode(s)
                  else RL.Decode(s) == RL.Length(length, shift)
        decreases 4 - shift, more
      {
        if shift > 3 {
          return size, length, PacketInvalid;
        }
        if inPtr <= size {
          return size, length, Continue;
        }
        var b := buffer[size];
        assert b == s[shift];
        if b == 0 && size > 1 {
          return size, length, PacketInvalid;
        }
        RL.DigitStep(s, shift, length);
        length := length + b % 0x80 * RL.Pow128(shift);
        size, shift := size + 1, shift + 1;
        more := b >= 0x80;
      }
      return size, length, PacketOK;
    }

    // ---------------------------------------------------------------------
    // Accessors
    // ---------------------------------------------------------------------

    method GetByte() returns (b: u8)
      requires Reading() && consumed + 1 <= remaining
      modifies `outPtr, `consumed
      ensures Reading() && Body() == old(Body()) && consumed == old(consumed) + 1
      ensures b == old(Unread())[0]
    {
      b := buffer[outPtr];
      consumed, outPtr := consumed + 1, outPtr + 1;
    }

    method GetWord() returns (w: u16)
      requires Reading() && consumed + 2 <= remaining
      modifies `outPtr, `consumed
      ensures Reading() && Body() == old(Body()) && consumed == old(consumed) + 2
      ensures w == WordAt(old(Unread()))
    {
      w := (buffer[outPtr] as int) * 0x100 + buffer[outPtr + 1];
      consumed, outPtr := consumed + 2, outPtr + 2;
    }

    /** An empty result stands for the return value 0. */
    method GetString(bufferSize: nat) returns (str: seq<u8>)
      requires Reading() && consumed + 2 <= remaining
      modifies `outPtr, `consumed
      ensures str == StringOf(old(Unread()), bufferSize)
      ensures Valid() && (str != [] ==> Reading() && consumed == old(consumed) + 2 + |str|)
    {
      hide Ascii, StringOf, WordAt;
      ghost var unread := Unread();
      var n := GetWord();
      assert Unread() == unread[2..];
      StringBehind(unread, n, bufferSize);
      consumed := consumed + n;
      if remaining < consumed || n + 1 > bufferSize {
        return [];
      }
      str := CopyString(n);
    }

    /** The next `n` bytes of the packet, which were counted already. */
    method CopyString(n: nat) returns (str: seq<u8>)
      requires Valid() && outPtr + n <= header + remaining <= inPtr
      modifies `outPtr
      ensures var s := buffer[old(outPtr)..header + remaining][..n];
              if Ascii(s) then str == s && outPtr == old(outPtr) + n else str == []
    {
      assert buffer[outPtr..header + remaining][..n] == buffer[outPtr..outPtr + n];
      str := CopyAscii(n);
    }

    /** The copying loop of `GetString`, which gives up at a byte above 127. */
    method CopyAscii(n: nat) returns (str: seq<u8>)
      requires Valid() && outPtr + n <= inPtr
      modifies `outPtr
      ensures var s := buffer[old(outPtr)..old(outPtr) + n];
              if Ascii(s) then str == s && outPtr == old(outPtr) + n else str == []
    {
      ghost var start := outPtr;
      str := [];
      var i := 0;
      while i < n
        invariant 0 <= i <= n && outPtr == start + i
        invariant str == buffer[start..start + i] && Ascii(str)
      {
        var c := buffer[outPtr];
        outPtr := outPtr + 1;
        if c >= 0x80 {
          assert buffer[start..start + n][i] == c && c in buffer[start..start + n];
          return [];
        }
        str, i := str + [c], i + 1;
      }
    }

    method GetData(length: nat) returns (data: seq<u8>)
      requires Reading() && consumed + length <= remaining
      modifies `outPtr, `consumed
      ensures Reading() && Body() == old(Body()) && consumed == old(consumed) + length
      ensures data == old(Unread())[..length]
    {
      data := buffer[outPtr..outPtr + length];
      consumed, outPtr := consumed + length, outPtr + length;
    }

    /** The reads of `Receiver` for a PUBLISH. */
    method ReadPublish(maxTopic: nat) returns (r: Reading)
      requires Reading() && consumed == 0 && typ == PUBLISH
      modifies `outPtr, `consumed
      ensures Valid() && Pending() == old(Pending())
      ensures r == Frames.ReadPublish(flags, old(Body()), maxTopic)
      ensures r.Message? ==> Reading() && Body() == old(Body()) && consumed == r.taken
    {
      ghost var body := Body();
      assert Unread() == body;
      var topic := GetString(maxTopic + 1);
      if topic == [] {
        return NotSupported;
      }
      assert Unread() == body[2 + |topic|..];
      var length, id := remaining - (|topic| + 2), 0;
      if QoSOf(flags) > 0 {
        if length < 2 {
          return AssertionFails;    // in GetWord
        }
        id := GetWord();
        if id == 0 {
          return BadIdentifier;
        }
        assert Unread() == body[2 + |topic|..][2..];
        length := length - 2;
      }
      ghost var rest := Unread();
      var payload := GetData(length);
      assert rest[..length] == rest;
      return Message(Publish(flags, topic, id, payload), consumed);
    }

    /** The reads of `Receiver` for a packet that `Receive` accepted. */
    method ReadMessage(maxTopic: nat) returns (r: Reading)
      requires Reading() && consumed == 0
      modifies `outPtr, `consumed
      ensures Valid() && Pending() == old(Pending())
      ensures r == Read(typ, flags, old(Body()), maxTopic)
      ensures r.Message? ==> Reading() && consumed == r.taken
    {
      ghost var body := Body();
      assert Unread() == body;
      if typ == PUBLISH {
        r := ReadPublish(maxTopic);
      } else if typ == CONNACK {
        var ackFlags := GetByte();
        var code := GetByte();
        r := Message(ConnAck(ackFlags, code), consumed);
      } else if typ == PINGRESP {
        r := Message(PingResp, consumed);
      } else {
        var id := GetWord();
        if typ == PUBACK {
          r := Message(PubAck(id), consumed);
        } else if typ == PUBREC {
          r := Message(PubRec(id), consumed);
        } else if typ == PUBREL {
          r := Message(PubRel(id), consumed);
        } else if typ == PUBCOMP {
          r := Message(PubComp(id), consumed);
        } else if typ == UNSUBACK {
          r := Message(UnsubAck(id), consumed);
        } else {
          var code := GetByte();
          r := Message(SubAck(id, code), consumed);
        }
      }
    }
  }
}
