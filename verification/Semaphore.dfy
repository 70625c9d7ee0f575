/** Circle's counting semaphore, as far as the threading layer relies on it.

    The class itself is not part of this repository.  Its contract is the
    obvious one: `Down` gets past a unit only while the count is above zero,
    `Up` adds a unit, `TryDown` takes one if there is one. */
module Semaphores {

  class Semaphore {
    var count: nat

    constructor ()
      ensures count == 0
    {
      count := 0;
    }

    method Up()
      modifies this
      ensures count == old(count) + 1
    {
      count := count + 1;
    }

    /** `Down` at the moment it stops blocking: the scheduler lets the caller
        go on only while a unit is there. */
    method Down()
      requires count > 0
      modifies this
      ensures count == old(count) - 1
    {
      count := count - 1;
    }

    method TryDown() returns (taken: bool)
      modifies this
      ensures taken <==> old(count) > 0
      ensures count == if taken then old(count) - 1 else old(count)
    {
      taken := count > 0;
      if taken {
        count := count - 1;
      }
    }
  }
}
