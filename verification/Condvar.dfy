/** The condition variable of condvar.cpp: a semaphore and a waiter count. */
module Condvars {
  import opened Semaphores

  /** The fields of the condition variable as one value. */
  datatype Condvar = Condvar(waiters: int, count: nat)

  const IDLE := Condvar(0, 0)

  function Announced(c: Condvar): Condvar {
    c.(waiters := c.waiters + 1)
  }

  function Signalled(c: Condvar): Condvar {
    if c.waiters > 0 then Condvar(c.waiters - 1, c.count + 1) else c
  }

  function BroadcastTo(c: Condvar): Condvar {
    Condvar(0, c.count + if c.waiters > 0 then c.waiters else 0)
  }

  function UnitTaken(c: Condvar): Condvar
    requires c.count > 0
  {
    c.(count := c.count - 1)
  }

  /** What a timed-out waiter does once it runs again: take a unit that a
      racing signal left behind, or retire its own announcement. */
  function TimeoutSettled(c: Condvar): Condvar {
    if c.count > 0 then UnitTaken(c) else c.(waiters := c.waiters - 1)
  }

  class CondvarImpl {
    const sem: Semaphore
    var waiters: int

    constructor ()
      ensures Value() == IDLE && fresh(sem)
    {
      sem := new Semaphore();
      waiters := 0;
    }

    ghost function Value(): Condvar
      reads this, sem
    {
      Condvar(waiters, sem.count)
    }

    method Signal()
      modifies this, sem
      ensures Value() == Signalled(old(Value()))
    {
      if waiters > 0 {
        waiters := waiters - 1;
        sem.Up();
      }
    }

    method Broadcast()
      modifies this, sem
      ensures Value() == BroadcastTo(old(Value()))
    {
      var n := waiters;
      waiters := 0;
      var i := 0;
      while i < n
        invariant 0 <= i && (i <= n || i == 0)
        invariant waiters == 0 && sem.count == old(sem.count) + i
      {
        sem.Up();
        i := i + 1;
      }
    }

    /** The first line of both waits; the mutex release that follows it is in
        the same uninterrupted stretch. */
    method Announce()
      modifies this
      ensures Value() == Announced(old(Value()))
    {
      waiters := waiters + 1;
    }

    /** `Down` of wait returns, or `DownWithTimeout` returns false. */
    method TakeUnit()
      requires sem.count > 0
      modifies sem
      ensures Value() == UnitTaken(old(Value()))
    {
      sem.Down();
    }

    /** The branch of timedwait after `DownWithTimeout` returned true. */
    method SettleTimeout() returns (timedOut: bool)
      modifies this, sem
      ensures timedOut <==> old(sem.count) == 0
      ensures Value() == TimeoutSettled(old(Value()))
    {
      timedOut := true;
      var taken := sem.TryDown();
      if taken {
        timedOut := false;
      } else {
        waiters := waiters - 1;
      }
    }
  }

  // -------------------------------------------------------------------------
  // The deadline of timedwait
  // -------------------------------------------------------------------------

  const USECS_PER_SEC := 1_000_000
  const TWO_TO_THE_32 := 0x1_0000_0000

  /** C++ division by 1000, which truncates toward zero. */
  function NsToUs(ns: int): int {
    if ns >= 0 then ns / 1000 else -((-ns) / 1000)
  }

  /** Microseconds from now to the deadline, never negative. */
  function DiffUs(sec: int, ns: int, nowSec: nat, nowUs: nat): (d: nat) {
    var delta := sec * USECS_PER_SEC + NsToUs(ns) - (nowSec * USECS_PER_SEC + nowUs);
    if delta > 0 then delta else 0
  }

  /** The value handed to `DownWithTimeout`: a cast to a 32-bit unsigned. */
  function SleepUs(sec: int, ns: int, nowSec: nat, nowUs: nat): nat {
    DiffUs(sec, ns, nowSec, nowUs) % TWO_TO_THE_32
  }

  /** The task sleeps for the whole time to its deadline exactly when that is
      shorter than 2^32 microseconds; otherwise it wakes at least 2^32 us early. */
  lemma SleepReachesDeadlineIff(sec: int, ns: int, nowSec: nat, nowUs: nat)
    ensures var d := DiffUs(sec, ns, nowSec, nowUs);
            && (SleepUs(sec, ns, nowSec, nowUs) == d <==> d < TWO_TO_THE_32)
            && (d >= TWO_TO_THE_32 ==> SleepUs(sec, ns, nowSec, nowUs) <= d - TWO_TO_THE_32)
  {
    var d := DiffUs(sec, ns, nowSec, nowUs);
    assert d == TWO_TO_THE_32 * (d / TWO_TO_THE_32) + d % TWO_TO_THE_32;
    assert d >= TWO_TO_THE_32 ==> d / TWO_TO_THE_32 >= 1;
  }

  lemma NsRounded(ns: int)
    ensures ns >= 0 ==> 0 <= ns - 1000 * NsToUs(ns) < 1000
    ensures -1000 < ns - 1000 * NsToUs(ns) < 1000
  {
  }

  /** Against the absolute deadline and the clock, both in nanoseconds: the sleep is 0
      exactly if the deadline is not a microsecond ahead, and otherwise, within 2^32
      microseconds, it ends less than a microsecond from the deadline, and not behind it
      (for nanoseconds that are not negative). */
  lemma SleepEndsAtTheDeadline(sec: int, ns: int, nowSec: nat, nowUs: nat)
    ensures var deadline, now := 1_000_000_000 * sec + ns, 1_000_000_000 * nowSec + 1000 * nowUs;
            var sleep := SleepUs(sec, ns, nowSec, nowUs);
            && (ns >= 0 && deadline < now + 1000 ==> sleep == 0)
            && (ns >= 0 && now + 1000 <= deadline < now + 1000 * 0x1_0000_0000 ==>
                  sleep > 0 && 0 <= deadline - (now + 1000 * sleep) < 1000)
            && (now + 1000 <= deadline < now + 1000 * 0xFFFF_FFFF ==>
                  -1000 < deadline - (now + 1000 * sleep) < 1000)
  {
    NsRounded(ns);
    SleepReachesDeadlineIff(sec, ns, nowSec, nowUs);
  }

  /** A deadline 4295 seconds away is such a case: the sleep is 32704 us. */
  lemma FarDeadlineWakesEarly()
    ensures SleepUs(4295, 0, 0, 0) == 32_704 < DiffUs(4295, 0, 0, 0)
  {
  }
}
