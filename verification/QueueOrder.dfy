/** How the retransmission queue stays in the order of its unbounded times while packets
    come and go. */
module QueueOrder {
  import opened Ticks
  import opened RetransmissionQueue

  /** Some times were removed from `d0`. */
  ghost predicate Thinned(d0: seq<nat>, d: seq<nat>) {
    (Sorted(d0) ==> Sorted(d)) && forall x <- d :: x in d0
  }

  /** Besides, perhaps, `w` was inserted, which keeps the order if no time is too far
      from it. */
  ghost predicate Filed(d0: seq<nat>, d: seq<nat>, w: nat) {
    (Sorted(d0) && AllClose(d0, w) ==> Sorted(d)) && forall x <- d :: x in d0 || x == w
  }

  /** No live time is too far from the ticks `n0` to `w` for the counter. */
  ghost predicate InWindow(d0: seq<nat>, n0: nat, w: nat) {
    w - n0 < HALF && forall d <- d0 :: w - d <= HALF && d - n0 < HALF
  }

  /** Every time is one of `d0`, or was scheduled in the meantime. */
  ghost predicate Fits(d: seq<nat>, d0: seq<nat>, n0: nat, w: nat) {
    forall x <- d :: x in d0 || n0 < x <= w
  }

  /** Any number of insertions and removals, from tick `n0` on and for times up to `w`. */
  ghost predicate StaysOrdered(d0: seq<nat>, n0: nat, d: seq<nat>, w: nat) {
    Sorted(d0) && InWindow(d0, n0, w) ==> Sorted(d) && Fits(d, d0, n0, w)
  }

  lemma RemoveThins(d: seq<nat>, k: nat)
    requires k < |d|
    ensures Thinned(d, RemoveAt(d, k))
  {
    var r := RemoveAt(d, k);
    assert forall i :: 0 <= i < |r| ==> r[i] == if i < k then d[i] else d[i + 1];
  }

  lemma InsertFiles(d: seq<nat>, k: nat, w: nat)
    requires k <= |d| && (Sorted(d) && AllClose(d, w) ==> Sorted(InsertAt(d, k, w)))
    ensures Filed(d, InsertAt(d, k, w), w)
  {
    var r := InsertAt(d, k, w);
    assert forall i :: 0 <= i < |r| ==> r[i] == if i < k then d[i] else if i == k then w else d[i - 1];
  }

  lemma ThinnedThenFiled(d0: seq<nat>, d1: seq<nat>, d: seq<nat>, w: nat)
    requires Thinned(d0, d1) && Filed(d1, d, w)
    ensures Filed(d0, d, w)
  {
  }

  lemma ThinnedIsFiled(d0: seq<nat>, d: seq<nat>, w: nat)
    requires Thinned(d0, d)
    ensures Filed(d0, d, w)
  {
  }

  lemma NothingFiled(d0: seq<nat>, w: nat)
    ensures Thinned(d0, d0) && Thinned(d0, []) && Filed(d0, d0, w) && Filed(d0, [], w)
  {
  }

  /** Then they are close to every tick of that time. */
  lemma FitsClose(d: seq<nat>, d0: seq<nat>, n0: nat, w: nat, t: nat)
    requires InWindow(d0, n0, w) && Fits(d, d0, n0, w) && n0 <= t <= w
    ensures AllClose(d, t)
  {
    forall x <- d
      ensures Close(x, t)
    {
    }
  }

  /** The window from a later tick on. */
  lemma WindowMoves(d0: seq<nat>, n0: nat, d1: seq<nat>, n1: nat, w1: nat, w: nat)
    requires InWindow(d0, n0, w) && Fits(d1, d0, n0, w1) && n0 <= n1 && w1 <= w
    ensures InWindow(d0, n0, w1) && InWindow(d1, n1, w)
  {
  }

  lemma StaysStays(d0: seq<nat>, n0: nat, d1: seq<nat>, n1: nat, w1: nat, d: seq<nat>, w: nat)
    requires StaysOrdered(d0, n0, d1, w1) && StaysOrdered(d1, n1, d, w) && n0 <= n1 && w1 <= w
    ensures StaysOrdered(d0, n0, d, w)
  {
    if Sorted(d0) && InWindow(d0, n0, w) {
      assert InWindow(d0, n0, w1);
      WindowMoves(d0, n0, d1, n1, w1, w);
    }
  }

  lemma FiledStays(d0: seq<nat>, n0: nat, d: seq<nat>, w: nat)
    requires Filed(d0, d, w) && n0 < w
    ensures StaysOrdered(d0, n0, d, w)
  {
  }

  lemma NothingStays(n0: nat, d0: seq<nat>, w: nat)
    ensures StaysOrdered(d0, n0, [], w) && StaysOrdered(d0, n0, d0, w)
  {
  }
}
