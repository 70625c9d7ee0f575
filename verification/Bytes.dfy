/** The fixed-width unsigned integers of the MQTT sources, and big-endian words. */
module Bytes {
  type u8 = x: int | 0 <= x < 0x100
  type u16 = x: int | 0 <= x < 0x1_0000
  type u32 = x: int | 0 <= x < 0x1_0000_0000

  /** The two bytes of a word, most significant first. */
  function WordBytes(w: u16): (s: seq<u8>)
    ensures |s| == 2
  {
    [w / 0x100, w % 0x100]
  }

  /** The word in the first two bytes. */
  function WordAt(s: seq<u8>): u16
    requires |s| >= 2
  {
    var high: int, low: int := s[0], s[1];
    high * 0x100 + low
  }

  lemma WordRoundTrip(w: u16, rest: seq<u8>)
    ensures WordAt(WordBytes(w) + rest) == w
    ensures (WordBytes(w) + rest)[2..] == rest
  {
  }
}
