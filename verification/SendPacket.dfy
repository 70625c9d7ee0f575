/** The packet writer of mqttsendpacket.cpp: the body grows behind a reserved
    prefix, into which `Send` writes the fixed header backwards. */
module SendPackets {
  import opened Bytes
  import opened Frames
  import RL = RemainingLength

  const MAX_LENGTH_FIXED_HEADER := 5
  const SEND_TRIES := 5

  /** A bound the assertion in `Send` puts on the body: three length bytes. */
  const BODY_LIMIT := 0x20_0000

  /** A C string: its bytes up to, not including, the terminating zero. */
  predicate CString(s: seq<u8>) {
    0 !in s
  }

  /** What `AppendString` writes: the length, of which two bytes are kept. */
  function StringBytes(s: seq<u8>): seq<u8> {
    WordBytes(|s| % 0x1_0000) + s
  }

  lemma LowByte(n: int, q: int, r: u8)
    requires n == 0x100 * q + r
    ensures n / 0x100 == q && n % 0x100 == r
  {
  }

  lemma LowWord(n: int, q: int, r: u16)
    requires n == 0x1_0000 * q + r
    ensures n % 0x1_0000 == r
  {
  }

  /** A number by its two lowest bytes and the rest. */
  lemma ByBytes(top: nat, high: u8, low: u8)
    ensures var n := 0x1_0000 * top + 0x100 * high + low;
            n / 0x100 % 0x100 == high && n % 0x100 == low && n % 0x1_0000 == 0x100 * high + low
  {
    var n := 0x1_0000 * top + 0x100 * high + low;
    LowWord(n, top, 0x100 * high + low);
    LowByte(n, 0x100 * top + high, low);
    LowByte(0x100 * top + high, top, high);
  }

  lemma Truncated(n: nat)
    ensures WordBytes(n % 0x1_0000) == [n / 0x100 % 0x100, n % 0x100]
  {
    var top, high, low := n / 0x100 / 0x100, n / 0x100 % 0x100, n % 0x100;
    assert n == 0x1_0000 * top + 0x100 * high + low;
    ByBytes(top, high, low);
    LowByte(0x100 * high + low, high, low);
  }

  /** Flags that agree up to the DUP bit give wire forms that differ in bit 3 of
      the first byte at most. */
  lemma OnlyDupDiffers(typ: u4, f: u4, g: u4, body: seq<u8>)
    requires WithDup(f) == WithDup(g)
    ensures Wire(typ, f, body)[1..] == Wire(typ, g, body)[1..]
    ensures (Wire(typ, f, body)[0] as int) - Wire(typ, g, body)[0] in {0, FLAG_DUP, -FLAG_DUP}
    ensures DupOf(f) == DupOf(g) ==> Wire(typ, f, body) == Wire(typ, g, body)
  {
  }

  class SendPacket {
    const typ: u4
    const maxPacketSize: nat
    const buffer: array<u8>
    var error: bool
    var bufPtr: nat
    var flags: u4
    var sendTries: nat

    /** Every byte string handed to the socket so far. */
    ghost var handed: seq<seq<u8>>

    constructor (typ: u4, maxPacketSize: nat)
      requires maxPacketSize >= 128
      ensures Valid() && fresh(buffer)
      ensures this.typ == typ && this.maxPacketSize == maxPacketSize
      ensures Body() == [] && !error && sendTries == SEND_TRIES && handed == []
      ensures flags == if typ == PUBREL || typ == SUBSCRIBE || typ == UNSUBSCRIBE then 2 else 0
    {
      this.typ, this.maxPacketSize := typ, maxPacketSize;
      buffer := new u8[maxPacketSize];
      error, bufPtr, sendTries, handed := false, MAX_LENGTH_FIXED_HEADER, SEND_TRIES, [];
      flags := if typ == PUBREL || typ == SUBSCRIBE || typ == UNSUBSCRIBE then 2 else 0;
    }

    ghost predicate Valid()
      reads this
    {
      && buffer.Length == maxPacketSize >= 128
      && MAX_LENGTH_FIXED_HEADER <= bufPtr <= maxPacketSize
      && |handed| + sendTries == SEND_TRIES
    }

    ghost function Body(): seq<u8>
      requires Valid()
      reads this, buffer
    {
      buffer[MAX_LENGTH_FIXED_HEADER..bufPtr]
    }

    /** Every transmission so far carried this type and body, and these flags up
        to the DUP bit. */
    ghost predicate SameEveryTime()
      requires Valid()
      reads this, buffer
    {
      forall w <- handed :: exists f :: w == Wire(typ, f, Body()) && WithDup(f) == WithDup(flags)
    }

    method SetFlags(flags: u4)
      requires Valid() && typ == PUBLISH
      modifies `flags
      ensures this.flags == flags
      ensures WithDup(flags) == WithDup(old(this.flags)) && old(SameEveryTime()) ==> SameEveryTime()
    {
      this.flags := flags;
    }

    /** `AppendByte`, `AppendWord`, `AppendString` and `AppendData` all append
        some bytes if the rest of the buffer holds them, and fail for good if not. */
    twostate predicate Appended(bytes: seq<u8>)
      requires Valid() && old(Valid())
      reads this, buffer
    {
      && error == (old(error) || old(bufPtr) + |bytes| > maxPacketSize)
      && Body() == if error then old(Body()) else old(Body()) + bytes
    }

    method AppendByte(value: u8)
      requires Valid()
      modifies `error, `bufPtr, buffer
      ensures Valid() && Appended([value])
    {
      if error {
        return;
      }
      if bufPtr >= maxPacketSize {
        error := true;
        return;
      }
      buffer[bufPtr] := value;
      bufPtr := bufPtr + 1;
    }

    method AppendWord(value: u16)
      requires Valid()
      modifies `error, `bufPtr, buffer
      ensures Valid() && Appended(WordBytes(value))
    {
      if error {
        return;
      }
      if bufPtr + 1 >= maxPacketSize {
        error := true;
        return;
      }
      buffer[bufPtr] := value / 0x100;
      buffer[bufPtr + 1] := value % 0x100;
      bufPtr := bufPtr + 2;
    }

    method AppendString(str: seq<u8>)
      requires Valid() && CString(str)
      modifies `error, `bufPtr, buffer
      ensures Valid() && Appended(StringBytes(str))
    {
      if error {
        return;
      }
      if bufPtr + |str| + 2 > maxPacketSize {
        error := true;
        return;
      }
      Truncated(|str|);
      PutBytes(|str| / 0x100 % 0x100, |str| % 0x100);
      ghost var body, length := old(Body()), WordBytes(|str| % 0x1_0000);
      assert body + length + str == body + (length + str) && body + length + [] == body + length;
      if |str| > 0 {
        Copy(str);
      }
    }

    /** Two bytes at the end of the body. */
    method PutBytes(high: u8, low: u8)
      requires Valid() && bufPtr + 2 <= maxPacketSize
      modifies `bufPtr, buffer
      ensures Valid() && Body() == old(Body()) + [high, low] && bufPtr == old(bufPtr) + 2
    {
      buffer[bufPtr] := high;
      buffer[bufPtr + 1] := low;
      bufPtr := bufPtr + 2;
    }

    method AppendData(data: seq<u8>)
      requires Valid()
      modifies `error, `bufPtr, buffer
      ensures Valid() && Appended(data)
    {
      if error {
        return;
      }
      if bufPtr + |data| > maxPacketSize {
        error := true;
        return;
      }
      if |data| > 0 {
        Copy(data);
      }
    }

    /** memcpy to the end of the body. */
    method Copy(data: seq<u8>)
      requires Valid() && bufPtr + |data| <= maxPacketSize
      modifies `bufPtr, buffer
      ensures Valid() && Body() == old(Body()) + data
      ensures bufPtr == old(bufPtr) + |data|
    {
      forall k | 0 <= k < |data| {
        buffer[bufPtr + k] := data[k];
      }
      bufPtr := bufPtr + |data|;
    }

    /** Hand the packet to a socket that takes all of it or not.  Without tries
        left, or after a failed append, nothing is handed over.  The header is
        rebuilt every time and the body never touched. */
    method Send(accepted: bool) returns (ok: bool)
      requires Valid() && |Body()| < BODY_LIMIT
      modifies `sendTries, `handed, buffer
      ensures Valid() && Body() == old(Body())
      ensures var sends := !error && old(sendTries) > 0;
              && ok == (sends && accepted)
              && sendTries == (if sends then old(sendTries) - 1 else old(sendTries))
              && handed == old(handed) + if sends then [Wire(typ, flags, Body())] else []
      ensures |handed| <= SEND_TRIES
      ensures old(SameEveryTime()) ==> SameEveryTime()
    {
      if error {
        return false;
      }
      if sendTries == 0 {
        return false;
      }
      ghost var body := Body();
      sendTries := sendTries - 1;
      var encoded := EncodeLength(bufPtr - MAX_LENGTH_FIXED_HEADER);
      RL.ThreeBytesIff(|body|);
      var start := PutHeader(encoded);
      handed := handed + [buffer[start..bufPtr]];
      return accepted;
    }

    /** The header in front of the body. */
    method PutHeader(encoded: seq<u8>) returns (start: nat)
      requires MAX_LENGTH_FIXED_HEADER <= bufPtr <= buffer.Length && |encoded| < MAX_LENGTH_FIXED_HEADER
      modifies buffer
      ensures buffer[MAX_LENGTH_FIXED_HEADER..bufPtr] == old(buffer[MAX_LENGTH_FIXED_HEADER..bufPtr]) && start <= bufPtr
      ensures buffer[start..bufPtr] == [typ * 0x10 + flags] + encoded + old(buffer[MAX_LENGTH_FIXED_HEADER..bufPtr])
    {
      ghost var body := buffer[MAX_LENGTH_FIXED_HEADER..bufPtr];
      var first := MAX_LENGTH_FIXED_HEADER - |encoded|;
      forall k | 0 <= k < |encoded| {
        buffer[first + k] := encoded[k];
      }
      start := first - 1;
      buffer[start] := typ * 0x10 + flags;
      assert buffer[MAX_LENGTH_FIXED_HEADER..bufPtr] == body;
      assert buffer[first..MAX_LENGTH_FIXED_HEADER] == encoded;
    }

    /** The do/while loop of `Send`. */
    static method EncodeLength(length: nat) returns (encoded: seq<u8>)
      ensures encoded == RL.Encode(length)
    {
      var rest, b: u8 := length / 0x80, length % 0x80;
      if rest > 0 {
        b := b + 0x80;
      }
      encoded := [b];
      RL.EncodeStep(length);
      while rest > 0
        invariant rest >= 0 && RL.Encode(length) == encoded + More(rest)
        decreases rest
      {
        b := rest % 0x80;
        RL.EncodeStep(rest);
        ghost var was := rest;
        rest := rest / 0x80;
        if rest > 0 {
          b := b + 0x80;
        }
        OneMoreByte(encoded, b, More(was), More(rest));
        encoded := encoded + [b];
      }
      assert encoded + [] == encoded;
    }
  }

  /** The bytes that are still to come. */
  function More(rest: nat): seq<u8> {
    if rest > 0 then RL.Encode(rest) else []
  }

  lemma OneMoreByte(front: seq<u8>, b: u8, back: seq<u8>, rest: seq<u8>)
    requires back == [b] + rest
    ensures front + back == front + [b] + rest
  {
  }
}
