/** The Remaining Length field (section 2.2.3 of MQTT v3.1.1): seven bits a byte,
    least significant first, the top bit saying that another byte follows. */
module RemainingLength {
  import opened Bytes

  const MAX_LENGTH := 0x1000_0000

  /** What the do/while loop of `Send` produces. */
  function Encode(n: nat): (s: seq<u8>)
    ensures |s| >= 1
    decreases n
  {
    if n < 0x80 then [n] else [n % 0x80 + 0x80] + Encode(n / 0x80)
  }

  /** The lowest digit of the encoding, and what follows it. */
  lemma EncodeStep(n: nat)
    ensures Encode(n) == [if n / 0x80 > 0 then n % 0x80 + 0x80 else n % 0x80]
                         + if n / 0x80 > 0 then Encode(n / 0x80) else []
  {
  }

  datatype Decoded = NeedMore | Malformed | Length(value: nat, size: nat)

  /** What the do/while loop of `Receive` makes of the bytes after the control
      byte, once `k` of them were taken. */
  function DecodeFrom(s: seq<u8>, k: nat): (d: Decoded)
    requires k <= 4
    ensures d.Length? ==> k < d.size <= 4 && d.size <= |s|
    decreases 4 - k
  {
    if k == 4 then Malformed
    else if |s| <= k then NeedMore
    else if s[k] == 0 && k > 0 then Malformed
    else if s[k] < 0x80 then Length(s[k], k + 1)
    else
      match DecodeFrom(s, k + 1)
      case Length(v, size) => Length(s[k] - 0x80 + 0x80 * v, size)
      case other => other
  }

  function Decode(s: seq<u8>): Decoded {
    DecodeFrom(s, 0)
  }

  function Pow128(k: nat): (p: nat)
    ensures p >= 1
  {
    if k == 0 then 1 else 0x80 * Pow128(k - 1)
  }

  /** A length of which the low digits, worth `low`, were taken already. */
  function Adjusted(d: Decoded, low: nat, scale: nat): Decoded {
    match d
    case Length(v, size) => Length(low + scale * v, size)
    case other => other
  }

  lemma MoreDigits(p: nat, b: nat, v: nat)
    ensures b * p + 0x80 * p * v == p * (b + 0x80 * v)
  {
  }

  lemma OneDigit(p: nat, b: nat)
    ensures b * p == p * b
  {
  }

  lemma LowBits(b: u8)
    ensures b % 0x80 == if b >= 0x80 then b - 0x80 else b
  {
  }

  /** Taking one more digit in the loop of `Receive`. */
  lemma DigitStep(s: seq<u8>, k: nat, low: nat)
    requires k < 4 && k < |s| && !(s[k] == 0 && k > 0)
    ensures var low' := low + s[k] % 0x80 * Pow128(k);
            Adjusted(DecodeFrom(s, k), low, Pow128(k))
            == if s[k] >= 0x80 then Adjusted(DecodeFrom(s, k + 1), low', Pow128(k + 1)) else Length(low', k + 1)
  {
    LowBits(s[k]);
    DigitTaken(DecodeFrom(s, k + 1), s[k], Pow128(k), low);
  }

  /** One digit, in front of the result `d` for those that follow if there are more. */
  lemma DigitTaken(d: Decoded, b: u8, p: nat, low: nat)
    ensures b < 0x80 ==> low + b * p == low + p * b
    ensures b >= 0x80 ==>
              Adjusted(d, low + (b - 0x80) * p, 0x80 * p)
              == match d
                 case Length(v, size) => Length(low + p * (b - 0x80 + 0x80 * v), size)
                 case other => other
  {
    if b >= 0x80 && d.Length? {
      MoreDigits(p, b - 0x80, d.value);
    } else {
      OneDigit(p, b);
    }
  }

  // -------------------------------------------------------------------------
  // Accepted encodings and the numbers below 2^28 are in bijection
  // -------------------------------------------------------------------------

  lemma {:induction false} EncodeDecodes(n: nat, k: nat, before: seq<u8>, rest: seq<u8>)
    requires |before| == k < 4 && n < Pow128(4 - k) && (k > 0 ==> n > 0)
    ensures DecodeFrom(before + Encode(n) + rest, k) == Length(n, k + |Encode(n)|)
    decreases 4 - k
  {
    var s := before + Encode(n) + rest;
    if n < 0x80 {
      assert s[k] == n;
    } else {
      assert Pow128(1) == 0x80;
      var b := n % 0x80 + 0x80;
      assert s == (before + [b]) + Encode(n / 0x80) + rest;
      assert n / 0x80 < Pow128(4 - (k + 1));
      EncodeDecodes(n / 0x80, k + 1, before + [b], rest);
      assert s[k] == b;
    }
  }

  lemma PowersOf128()
    ensures Pow128(4) == MAX_LENGTH
  {
    assert Pow128(1) == 0x80 && Pow128(2) == 0x4000 && Pow128(3) == 0x20_0000;
  }

  /** Decoding an encoded length gives it back, whatever follows. */
  lemma DecodeEncode(n: nat, rest: seq<u8>)
    requires n < MAX_LENGTH
    ensures Decode(Encode(n) + rest) == Length(n, |Encode(n)|)
  {
    PowersOf128();
    EncodeDecodes(n, 0, [], rest);
    assert [] + Encode(n) + rest == Encode(n) + rest;
  }

  lemma {:induction false} AcceptedIsEncoded(s: seq<u8>, k: nat)
    requires k < 4 && DecodeFrom(s, k).Length?
    ensures var d := DecodeFrom(s, k);
            s[k..d.size] == Encode(d.value) && d.value < Pow128(4 - k) && (k > 0 ==> d.value > 0)
    decreases 4 - k
  {
    var d := DecodeFrom(s, k);
    assert Pow128(1) == 0x80;
    assert Pow128(4 - k) == 0x80 * Pow128(3 - k);
    if s[k] >= 0x80 {
      AcceptedIsEncoded(s, k + 1);
      var v := DecodeFrom(s, k + 1).value;
      assert d.value == s[k] - 0x80 + 0x80 * v && d.value / 0x80 == v;
      assert s[k..d.size] == [s[k]] + s[k + 1..d.size];
    } else {
      assert s[k..d.size] == [s[k]];
    }
  }

  /** The decoder accepts exactly the minimal encodings of the numbers below
      2^28: nothing longer, nothing padded, nothing else. */
  lemma AcceptsExactlyEncodings(s: seq<u8>, n: nat, size: nat)
    ensures Decode(s) == Length(n, size) <==> n < MAX_LENGTH && size == |Encode(n)| && Encode(n) <= s
  {
    if Decode(s) == Length(n, size) {
      AcceptedIsEncoded(s, 0);
      PowersOf128();
    }
    if n < MAX_LENGTH && size == |Encode(n)| && Encode(n) <= s {
      DecodeEncode(n, s[size..]);
      assert s == Encode(n) + s[size..];
    }
  }

  /** A verdict once reached is not changed by further bytes. */
  lemma {:induction false} DecodeStable(s: seq<u8>, k: nat, more: seq<u8>)
    requires k <= 4 && !DecodeFrom(s, k).NeedMore?
    ensures DecodeFrom(s + more, k) == DecodeFrom(s, k)
    decreases 4 - k
  {
    if k < 4 && s[k] >= 0x80 {
      DecodeStable(s, k + 1, more);
    }
  }

  /** The sender's assertion of at most three length bytes is the bound 2^21. */
  lemma {:induction false} ThreeBytesIff(n: nat)
    ensures |Encode(n)| <= 3 <==> n < 0x20_0000
    ensures |Encode(n)| <= 4 <==> n < MAX_LENGTH
  {
    if n >= 0x80 {
      assert |Encode(n)| == 1 + |Encode(n / 0x80)|;
      if n / 0x80 >= 0x80 {
        assert |Encode(n / 0x80)| == 1 + |Encode(n / 0x80 / 0x80)|;
        if n / 0x80 / 0x80 >= 0x80 {
          assert |Encode(n / 0x80 / 0x80)| == 1 + |Encode(n / 0x80 / 0x80 / 0x80)|;
        }
      }
    }
  }
}
