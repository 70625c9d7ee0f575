/** The non-recursive mutex of mutex_impl.h: ownership is handed directly to a
    waiter, the semaphore is only used for blocking. */
module Mutexes {
  import opened Semaphores

  /** The fields of the mutex as one value; `count` is the semaphore's. */
  datatype Mutex = Mutex(locked: bool, waiters: int, count: nat)

  const FREE := Mutex(false, 0, 0)

  /** `Acquire` up to the point where it returns or starts to block. */
  function Entered(m: Mutex): Mutex {
    if m.locked then m.(waiters := m.waiters + 1) else m.(locked := true)
  }

  /** `Acquire` when its `Down` stops blocking. */
  function HandedOver(m: Mutex): Mutex
    requires m.count > 0
  {
    m.(count := m.count - 1)
  }

  function Released(m: Mutex): Mutex {
    if m.waiters > 0 then m.(waiters := m.waiters - 1, count := m.count + 1) else m.(locked := false)
  }

  class NonRecursiveMutexImpl {
    var locked: bool
    var waiters: int
    const sem: Semaphore

    constructor ()
      ensures Value() == FREE && fresh(sem)
    {
      locked, waiters := false, 0;
      sem := new Semaphore();
    }

    ghost function Value(): Mutex
      reads this, sem
    {
      Mutex(locked, waiters, sem.count)
    }

    /** The part of `Acquire` before `Down`; `owned` says that it returned. */
    method AcquireEnter() returns (owned: bool)
      modifies this
      ensures owned <==> !old(locked)
      ensures Value() == Entered(old(Value()))
    {
      if !locked {
        locked := true;
        return true;
      }
      waiters := waiters + 1;
      return false;
    }

    /** The rest of `Acquire`: `Down` returns and the caller owns the mutex. */
    method AcquireResume()
      requires sem.count > 0
      modifies sem
      ensures Value() == HandedOver(old(Value()))
    {
      sem.Down();
    }

    method TryAcquire() returns (owned: bool)
      modifies this
      ensures owned <==> !old(locked)
      ensures Value() == if owned then Entered(old(Value())) else old(Value())
    {
      if !locked {
        locked := true;
        return true;
      }
      return false;
    }

    method Release()
      modifies this, sem
      ensures Value() == Released(old(Value()))
    {
      if waiters > 0 {
        waiters := waiters - 1;
        sem.Up();
      } else {
        locked := false;
      }
    }
  }
}
