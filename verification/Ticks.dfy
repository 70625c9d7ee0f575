/** The 32-bit tick counter and the signed comparison of two of its values. */
module Ticks {
  import opened Bytes

  const WORD := 0x1_0000_0000
  const HALF := 0x8000_0000

  /** The unbounded time `t` as the counter shows it. */
  function Wrap(t: nat): u32 {
    t % WORD
  }

  /** `(int) (a - b) > 0` */
  predicate After(a: u32, b: u32) {
    0 < (a - b) % WORD < HALF
  }

  /** `n` seconds in ticks. */
  function Seconds(n: nat, hz: nat): nat {
    n * hz
  }

  /** The longest keep-alive time is less than half a counter period, so its product
      with the tick rate does not overflow either. */
  lemma KeepAliveFits(n: u16, hz: nat)
    requires hz < 0x8000
    ensures Seconds(n, hz) < HALF
  {
    var k: nat := 0xFFFF - n;
    NotNegative(k, hz);
    assert k * hz == 0xFFFF * hz - n * hz;
  }

  lemma NotNegative(k: nat, n: nat)
    ensures k * n >= 0
  {
  }

  /** Within half the range of the counter. */
  predicate Close(a: nat, b: nat) {
    -HALF <= a - b < HALF
  }

  /** The distances at which the signed comparison is right. */
  predicate ReadRight(d: int) {
    d > 0 <==> 0 < d % WORD < HALF
  }

  /** The signed comparison of wrapped times is the comparison of the times exactly at
      the distances that are read right, across any number of wraps; of those less than
      a counter period, these are the ones within half the range. */
  lemma AfterIsLaterIff(a: nat, b: nat)
    ensures (After(Wrap(a), Wrap(b)) <==> a > b) <==> ReadRight(a - b)
    ensures -WORD < a - b < WORD ==> (ReadRight(a - b) <==> Close(a, b))
  {
    WrapDifference(a, b);
    if -WORD < a - b < WORD {
      Residue(a - b);
    }
  }

  lemma Residue(d: int)
    requires -WORD < d < WORD
    ensures d % WORD == if d >= 0 then d else d + WORD
  {
  }

  lemma AfterIsLater(a: nat, b: nat)
    requires Close(a, b)
    ensures After(Wrap(a), Wrap(b)) <==> a > b
  {
    AfterIsLaterIff(a, b);
  }

  lemma WrapDifference(a: nat, b: nat)
    ensures (Wrap(a) - Wrap(b)) % WORD == (a - b) % WORD
  {
    var k := a / WORD - b / WORD;
    assert a - b == Wrap(a) - Wrap(b) + k * WORD;
    ModPlus(Wrap(a) - Wrap(b), k);
  }

  lemma ModPlus(x: int, k: int)
    ensures (x + k * WORD) % WORD == x % WORD
  {
    var q, r := x / WORD, x % WORD;
    assert x + k * WORD == (q + k) * WORD + r;
  }

  /** Half a counter period later is read as not later, and so is everything up to a
      whole period; a tick after that the comparison is right again. */
  lemma LaterReadAsEarlier(a: nat, b: nat)
    requires HALF <= a - b <= WORD
    ensures a > b && !After(Wrap(a), Wrap(b))
  {
    AfterIsLaterIff(a, b);
    if a - b == WORD {
      ModPlus(0, 1);
    } else {
      Residue(a - b);
    }
  }

  lemma RightAgainAfterAPeriod(b: nat)
    ensures After(Wrap(b + WORD + 1), Wrap(b))
  {
    AfterIsLaterIff(b + WORD + 1, b);
    ModPlus(1, 1);
  }
}
