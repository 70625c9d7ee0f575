/** One call of `Sender`: what the queue looks like after some of the due packets
    were sent again. */
module SenderPass {
  import opened Bytes
  import opened Frames
  import opened Ticks
  import opened RetransmissionQueue
  import opened QueueOrder

  /** A packet as it is sent again: a PUBLISH is marked as a duplicate. */
  function Marked(p: Packet): Packet {
    if p.typ == PUBLISH then p.(flags := WithDup(p.flags)) else p
  }

  /** The packets of `q` that are not among `hs`, in their order. */
  function Without(q: seq<Packet>, hs: set<nat>): (r: seq<Packet>) {
    if q == [] then []
    else (if q[0].handle in hs then [] else [q[0]]) + Without(q[1..], hs)
  }

  /** `x` is `p` after it was sent and scheduled once more. */
  predicate SentAgain(x: Packet, p: Packet) {
    p.tries > 0 && x == Marked(p).(tries := p.tries - 1, time := x.time)
  }

  /** `p` after it was sent once more. */
  function Again(p: Packet): Packet {
    Marked(p).(tries := if p.tries > 0 then p.tries - 1 else 0)
  }

  /** Packet `p` goes into the queue `q`, due at `d`, to be sent at tick `w`: the
      queue then, its times, and where the element is that was at `i`. */
  function PutIn(q: seq<Packet>, d: seq<nat>, i: nat, p: Packet, w: nat): (seq<Packet>, seq<nat>, nat)
    requires |q| == |d|
  {
    var slot := Slot(q, Wrap(w));
    (Insert(q, p.(time := Wrap(w))), InsertAt(d, slot, w), if slot <= i then i + 1 else i)
  }

  /** The packet at `i` is sent again and goes back. */
  function Resent(q: seq<Packet>, d: seq<nat>, i: nat, w: nat): (seq<Packet>, seq<nat>, nat)
    requires i < |q| == |d|
  {
    PutIn(RemoveAt(q, i), RemoveAt(d, i), i, Again(q[i]), w)
  }

  /** The queue was `q0`, due at `d0`, of which the first `k` packets are due at tick
      `n0`; the first `j` of them were sent again.  Now the rest of the `k` is in
      front; behind it, in order of time and none of it due, the packets that were
      not due, untouched, and those sent again. */
  ghost predicate Midway(q0: seq<Packet>, d0: seq<nat>, n0: nat, k: nat, j: nat, q: seq<Packet>, d: seq<nat>) {
    && j <= k <= |q0| == |d0| == |q| == |d|
    && InOrder(d0, n0, k, j, d) && Shows(q, d)
    && Contents(q0, k, j, q)
  }

  ghost predicate InOrder(d0: seq<nat>, n0: nat, k: nat, j: nat, d: seq<nat>)
    requires j <= k <= |d0| == |d|
  {
    && Sorted(d)
    && d[..k - j] == d0[j..k]
    && (forall i :: 0 <= i < k ==> d0[i] <= n0)
    && (forall i :: k - j <= i < |d| ==> d[i] > n0)
  }

  ghost predicate Contents(q0: seq<Packet>, k: nat, j: nat, q: seq<Packet>)
    requires j <= k <= |q0| == |q|
  {
    && q[..k - j] == q0[j..k]
    && Without(q[k - j..], Handles(q0[..k])) == q0[k..]
    && Handles(q) == Handles(q0)
    && (forall x <- q :: Accounted(x, q0, j))
  }

  lemma {:induction false} InsertBehind(front: seq<Packet>, back: seq<Packet>, p: Packet)
    requires forall x <- front :: !After(x.time, p.time)
    ensures Insert(front + back, p) == front + Insert(back, p)
  {
    if front == [] {
      assert front + back == back;
    } else {
      assert front[0] in front;
      assert (front + back)[1..] == front[1..] + back;
      InsertBehind(front[1..], back, p);
    }
  }

  lemma {:induction false} WithoutInsert(q: seq<Packet>, p: Packet, hs: set<nat>)
    requires p.handle in hs
    ensures Without(Insert(q, p), hs) == Without(q, hs)
  {
    if q == [] || After(q[0].time, p.time) {
      assert ([p] + q)[1..] == q;
    } else {
      WithoutInsert(q[1..], p, hs);
      assert ([q[0]] + Insert(q[1..], p))[1..] == Insert(q[1..], p);
    }
  }

  lemma {:induction false} WithoutNothing(q: seq<Packet>, hs: set<nat>)
    requires forall x <- q :: x.handle !in hs
    ensures Without(q, hs) == q
  {
    if q != [] {
      assert q[0] in q;
      WithoutNothing(q[1..], hs);
    }
  }

  /** At the start: the due packets are a prefix. */
  lemma Start(q0: seq<Packet>, d0: seq<nat>, n0: nat)
    requires Shows(q0, d0) && Sorted(d0) && Distinct(q0, HandleOf)
    ensures Midway(q0, d0, n0, TrueSlot(d0, n0), 0, q0, d0)
  {
    var k := TrueSlot(d0, n0);
    TrueSlotSplits(d0, n0);
    forall x <- q0[k..]
      ensures x.handle !in Handles(q0[..k])
    {
      var i :| k <= i < |q0| && q0[i] == x;
      forall y <- q0[..k]
        ensures y.handle != x.handle
      {
        var m :| 0 <= m < k && q0[m] == y;
        assert HandleOf(q0[m]) != HandleOf(q0[i]);
      }
    }
    WithoutNothing(q0[k..], Handles(q0[..k]));
  }

  lemma OrderAfter(d0: seq<nat>, n0: nat, k: nat, j: nat, d: seq<nat>, slot: nat, w: nat)
    requires j < k <= |d0| == |d| && InOrder(d0, n0, k, j, d) && w > n0
    requires slot <= |d| - 1
    requires (forall i :: 0 <= i < slot ==> d[1..][i] <= w) && (forall i :: slot <= i < |d| - 1 ==> d[1..][i] > w)
    ensures slot >= k - j - 1
    ensures InOrder(d0, n0, k, j + 1, InsertAt(d[1..], slot, w))
  {
    var d1, f := d[1..], k - j - 1;
    assert forall i :: 0 <= i < |d1| ==> d1[i] == d[i + 1];
    assert forall i :: 0 <= i < f ==> d1[i] == d[..k - j][i + 1] == d0[j + 1 + i];
    assert f == 0 || d1[f - 1] <= n0;
    InsertSorted(d1, slot, w);
    assert InsertAt(d1, slot, w)[..f] == d0[j + 1..k];
  }

  /** The front packet is sent again and scheduled at a later tick `w`: its time,
      which is not due, is behind all that is due. */
  lemma Advance(q0: seq<Packet>, d0: seq<nat>, n0: nat, k: nat, j: nat, q: seq<Packet>, d: seq<nat>, p: Packet, w: nat)
    requires Midway(q0, d0, n0, k, j, q, d) && j < k && Distinct(q, HandleOf)
    requires SentAgain(p, q[0]) && p.time == Wrap(w) && w > n0 && AllClose(d[1..], w)
    ensures var slot := Slot(q[1..], p.time);
            && Midway(q0, d0, n0, k, j + 1, Insert(q[1..], p), InsertAt(d[1..], slot, w))
            && slot >= k - j - 1
  {
    var slot := Slot(q[1..], p.time);
    assert forall i :: 0 <= i < |d| - 1 ==> d[1..][i] == d[i + 1] && q[1..][i] == q[i + 1];
    InsertRefines(q[1..], d[1..], p, w);
    OrderAfter(d0, n0, k, j, d, slot, w);
    ContentsAfter(q0, k, j, q, p, slot);
  }

  lemma ContentsAfter(q0: seq<Packet>, k: nat, j: nat, q: seq<Packet>, p: Packet, slot: nat)
    requires j < k <= |q0| == |q| && Contents(q0, k, j, q) && SentAgain(p, q[0]) && Distinct(q, HandleOf)
    requires slot == Slot(q[1..], p.time) && slot >= k - j - 1
    ensures Contents(q0, k, j + 1, Insert(q[1..], p))
  {
    var f := k - j - 1;
    assert q[0] == q[..k - j][0] == q0[j];
    BackOf(q0, k, j, q, p, slot);
    InsertIsAtSlot(q[1..], p);
    assert Insert(q[1..], p)[..f] == q[1..][..f] == q[..k - j][1..] == q0[j + 1..k];
    MembersAfter(q0, j, q, p);
    HandlesAfter(q, p, slot);
  }

  lemma BackOf(q0: seq<Packet>, k: nat, j: nat, q: seq<Packet>, p: Packet, slot: nat)
    requires j < k <= |q0| == |q| && q[..k - j] == q0[j..k] && p.handle == q[0].handle
    requires slot == Slot(q[1..], p.time) && slot >= k - j - 1
    ensures Without(Insert(q[1..], p)[k - j - 1..], Handles(q0[..k])) == Without(q[k - j..], Handles(q0[..k]))
  {
    var f, q1 := k - j - 1, q[1..];
    SlotNotAfter(q1, p.time);
    assert forall x <- q1[..f] :: !After(x.time, p.time);
    assert q1 == q1[..f] + q1[f..];
    InsertBehind(q1[..f], q1[f..], p);
    assert q1[f..] == q[k - j..];
    assert q[0] == q[..k - j][0] == q0[j] && q0[j] in q0[..k];
    WithoutInsert(q1[f..], p, Handles(q0[..k]));
    assert Insert(q1, p)[f..] == Insert(q1[f..], p);
  }

  lemma {:induction false} SlotNotAfter(q: seq<Packet>, t: u32)
    ensures forall i :: 0 <= i < Slot(q, t) ==> !After(q[i].time, t)
  {
    if q != [] && !After(q[0].time, t) {
      SlotNotAfter(q[1..], t);
      assert forall i :: 1 <= i < |q| ==> q[i] == q[1..][i - 1];
    }
  }

  predicate Accounted(x: Packet, q0: seq<Packet>, j: nat)
    requires j <= |q0|
  {
    x in q0[j..] || exists p <- q0[..j] :: SentAgain(x, p)
  }

  lemma AccountedNext(x: Packet, q0: seq<Packet>, j: nat)
    requires j < |q0| && (if x.handle == q0[j].handle then SentAgain(x, q0[j]) else Accounted(x, q0, j))
    ensures Accounted(x, q0, j + 1)
  {
    assert q0[..j + 1] == q0[..j] + [q0[j]] && q0[j..] == [q0[j]] + q0[j + 1..];
    assert q0[j] in q0[..j + 1];
  }

  lemma MembersAfter(q0: seq<Packet>, j: nat, q: seq<Packet>, p: Packet)
    requires j < |q0| && q != [] && SentAgain(p, q[0]) && q[0] == q0[j] && Distinct(q, HandleOf)
    requires forall x <- q :: Accounted(x, q0, j)
    ensures forall x <- Insert(q[1..], p) :: Accounted(x, q0, j + 1)
  {
    InsertIsAtSlot(q[1..], p);
    InsertMembers(q[1..], Slot(q[1..], p.time), p);
    forall x <- Insert(q[1..], p)
      ensures Accounted(x, q0, j + 1)
    {
      if x != p {
        var i :| 0 <= i < |q| - 1 && q[1..][i] == x;
        assert x == q[i + 1] && HandleOf(q[0]) != HandleOf(q[i + 1]);
      }
      AccountedNext(x, q0, j);
    }
  }

  lemma HandlesAfter(q: seq<Packet>, p: Packet, slot: nat)
    requires q != [] && p.handle == q[0].handle && slot == Slot(q[1..], p.time)
    ensures Handles(Insert(q[1..], p)) == Handles(q)
  {
    InsertIsAtSlot(q[1..], p);
    InsertMembers(q[1..], slot, p);
    assert q == [q[0]] + q[1..];
  }

  lemma FitsNext(d: seq<nat>, d0: seq<nat>, n0: nat, slot: nat, w: nat, t: nat)
    requires d != [] && slot <= |d| - 1 && Fits(d, d0, n0, w) && n0 < t <= w
    ensures Fits(InsertAt(d[1..], slot, t), d0, n0, w)
  {
    var r := InsertAt(d[1..], slot, t);
    forall x <- r
      ensures x == t || x in d
    {
      var i :| 0 <= i < |r| && r[i] == x;
      assert x == if i < slot then d[i + 1] else if i == slot then t else d[i];
    }
  }

  /** The packet the loop stands at is due exactly while some are left. */
  lemma DueIff(q0: seq<Packet>, d0: seq<nat>, n0: nat, k: nat, j: nat, q: seq<Packet>, d: seq<nat>, i: nat)
    requires Midway(q0, d0, n0, k, j, q, d) && AllClose(d, n0)
    requires i < |q| && (j < k ==> i == 0)
    ensures After(q[i].time, Wrap(n0)) <==> j == k
  {
    assert d[i] in d;
    AfterIsLater(d[i], n0);
    if j < k {
      assert d[0] == d[..k - j][0] == d0[j];
    }
  }

  /** The sends left in the packets: each send takes one. */
  function Tries(q: seq<Packet>): nat {
    if q == [] then 0 else q[0].tries + Tries(q[1..])
  }

  lemma {:induction false} TriesAppend(a: seq<Packet>, b: seq<Packet>)
    ensures Tries(a + b) == Tries(a) + Tries(b)
  {
    if a == [] {
      assert a + b == b;
    } else {
      assert (a + b)[1..] == a[1..] + b;
      TriesAppend(a[1..], b);
    }
  }

  lemma TriesAround(a: seq<Packet>, p: Packet, b: seq<Packet>)
    ensures Tries(a + [p] + b) == Tries(a + b) + p.tries
  {
    TriesAppend(a + [p], b);
    TriesAppend(a, [p]);
    TriesAppend(a, b);
  }

  lemma TriesSpent(q: seq<Packet>, i: nat, p: Packet)
    requires i < |q| && q[i].tries > 0 && p.tries == q[i].tries - 1
    ensures Tries(Insert(RemoveAt(q, i), p)) == Tries(q) - 1
  {
    var r := RemoveAt(q, i);
    var k := Slot(r, p.time);
    InsertIsAtSlot(r, p);
    assert r == r[..k] + r[k..] && q == q[..i] + [q[i]] + q[i + 1..];
    TriesAround(r[..k], p, r[k..]);
    TriesAround(q[..i], q[i], q[i + 1..]);
  }

  /** One pass through the loop of `Sender`, if no time is too far away: the packet
      sent, and scheduled again at tick `t`, is the next of those due, and the loop goes
      on at the front while some are left. */
  lemma PassKeepsMidway(q0: seq<Packet>, d0: seq<nat>, n0: nat, w: nat, k: nat, j: nat,
                        q: seq<Packet>, d: seq<nat>, i: nat, p: Packet, t: nat,
                        q': seq<Packet>, d': seq<nat>, next: nat)
    requires Midway(q0, d0, n0, k, j, q, d) && Fits(d, d0, n0, w) && InWindow(d0, n0, w) && n0 < t <= w
    requires Distinct(q, HandleOf) && i < |q| && (j < k ==> i == 0) && !After(q[i].time, Wrap(n0))
    requires q[i].tries > 0 && p == Again(q[i])
    requires (q', d', next) == PutIn(RemoveAt(q, i), RemoveAt(d, i), i, p, t)
    ensures j < k && i == 0 && q[0] == q0[j] && AllClose(RemoveAt(d, i), t)
    ensures Midway(q0, d0, n0, k, j + 1, q', d') && Fits(d', d0, n0, w) && (j + 1 < k ==> next == 0)
    ensures Retransmits(Shown(p), q[i]) && p.tries == q[i].tries - 1
  {
    MarkingSetsDup(q[i].flags);
    NextIsDue(q0, d0, n0, k, j, q, d, i, w);
    FitsClose(d, d0, n0, w, t);
    assert RemoveAt(q, 0) == q[1..] && RemoveAt(d, 0) == d[1..];
    assert forall x <- d[1..] :: x in d;
    Advance(q0, d0, n0, k, j, q, d, p.(time := Wrap(t)), t);
    FitsNext(d, d0, n0, Slot(q[1..], Wrap(t)), w, t);
  }

  /** If the loop of `Sender` does not stop at a packet, then it is the next due one. */
  lemma NextIsDue(q0: seq<Packet>, d0: seq<nat>, n0: nat, k: nat, j: nat, q: seq<Packet>, d: seq<nat>, i: nat, w: nat)
    requires Midway(q0, d0, n0, k, j, q, d) && Fits(d, d0, n0, w) && InWindow(d0, n0, w) && w >= n0
    requires i < |q| && (j < k ==> i == 0) && !After(q[i].time, Wrap(n0))
    ensures j < k && i == 0 && q[0] == q0[j]
  {
    FitsClose(d, d0, n0, w, n0);
    DueIff(q0, d0, n0, k, j, q, d, i);
    assert q[0] == q[..k - j][0];
  }

  /** If it does, or at the end of the queue, none is left. */
  lemma StopsWhenDone(q0: seq<Packet>, d0: seq<nat>, n0: nat, k: nat, j: nat, q: seq<Packet>, d: seq<nat>, i: nat,
                      w: nat)
    requires Midway(q0, d0, n0, k, j, q, d) && Fits(d, d0, n0, w) && InWindow(d0, n0, w) && w >= n0
    requires i <= |q| && (j < k ==> i == 0) && (i == |q| || After(q[i].time, Wrap(n0)))
    ensures j == k
  {
    FitsClose(d, d0, n0, w, n0);
    if i < |q| {
      DueIff(q0, d0, n0, k, j, q, d, i);
    }
  }

  /** A packet handed to the socket; `handle` is 0 for one on the stack. */
  datatype Transmission = Transmission(handle: nat, typ: u4, flags: u4, body: seq<u8>)

  function Shown(p: Packet): Transmission {
    Transmission(p.handle, p.typ, p.flags, p.body)
  }

  /** The transmission that sending `p` again makes, if a try is left. */
  function Sends(p: Packet): seq<Transmission> {
    if p.tries > 0 then [Shown(Marked(p))] else []
  }

  // -------------------------------------------------------------------------
  // The transmissions of one call of `Sender`
  // -------------------------------------------------------------------------

  function Transmissions(q: seq<Packet>): seq<Transmission> {
    if q == [] then [] else Transmissions(q[..|q| - 1]) + [Shown(Marked(q[|q| - 1]))]
  }

  /** The queue, with its scheduled times, and the tick that `Sender` sampled. */
  datatype Pass = Pass(queue: seq<Packet>, due: seq<nat>, tick: nat) {
    ghost predicate Ok() {
      |queue| == |due|
    }

    /** As the queue is at the start. */
    ghost predicate Starts() {
      Shows(queue, due) && Distinct(queue, HandleOf)
    }

    /** The queue is in order, and no live time is too far from the ticks up to `w`. */
    ghost predicate Close(w: nat) {
      Sorted(due) && InWindow(due, tick, w)
    }
  }

  /** Every packet due at the tick was sent and no other, each once and in order, and
      queued again; the rest is untouched, and the queue is in order. */
  ghost predicate SentAll(pass: Pass, w: nat, sent: seq<Transmission>, q: seq<Packet>, d: seq<nat>) {
    && pass.Ok() && Fits(d, pass.due, pass.tick, w)
    && var k := TrueSlot(pass.due, pass.tick);
       Midway(pass.queue, pass.due, pass.tick, k, k, q, d) && sent == Transmissions(pass.queue[..k])
  }

  /** Some of the due packets were sent, in order. */
  ghost predicate SentSome(pass: Pass, sent: seq<Transmission>) {
    pass.Ok() && exists j :: 0 <= j <= TrueSlot(pass.due, pass.tick) && sent == Transmissions(pass.queue[..j])
  }

  /** A call that has come to its end. */
  ghost predicate Done(pass: Pass, w: nat, sent: seq<Transmission>, q: seq<Packet>, d: seq<nat>) {
    pass.Close(w) ==> SentAll(pass, w, sent, q, d)
  }

  /** A call that stopped because a send failed. */
  ghost predicate GivenUp(pass: Pass, w: nat, sent: seq<Transmission>) {
    pass.Close(w) ==> SentSome(pass, sent)
  }

  /** Along such a call the queue stays in order. */
  lemma DoneStaysOrdered(n0: nat, pass: Pass, w: nat, sent: seq<Transmission>, q: seq<Packet>, d: seq<nat>)
    requires Done(pass, w, sent, q, d) && n0 <= pass.tick
    ensures StaysOrdered(pass.due, n0, d, w)
  {
    if Sorted(pass.due) && InWindow(pass.due, n0, w) {
      NothingStays(n0, pass.due, w);
      assert pass.Close(w);
    }
  }

  // -------------------------------------------------------------------------
  // The loop of `Sender`
  // -------------------------------------------------------------------------

  /** Its variables: the queue and its times, the place in it, and what was sent. */
  datatype Loop = Loop(q: seq<Packet>, d: seq<nat>, i: nat, sent: seq<Transmission>) {
    predicate Goes(tick: nat) {
      i < |q| == |d| && !After(q[i].time, Wrap(tick))
    }

    /** The packet is sent again and scheduled at tick `t`. */
    function Next(t: nat): Loop
      requires i < |q| == |d|
    {
      var (q', d', next) := Resent(q, d, i, t);
      Loop(q', d', next, sent + [Shown(Marked(q[i]))])
    }
  }

  /** The states of the loop so far, and the ticks at which a packet was scheduled. */
  datatype Trace = Trace(ls: seq<Loop>, ts: seq<nat>) {
    ghost predicate Shaped() {
      |ls| == |ts| + 1
    }

    function Last(): Loop
      requires ls != []
    {
      ls[|ls| - 1]
    }
  }

  /** The `k`th pass did not stop, had a try, and was at a tick not later than `w`. */
  ghost predicate Step(pass: Pass, trace: Trace, w: nat, k: nat)
    requires trace.Shaped() && k < |trace.ts|
  {
    var l, t := trace.ls[k], trace.ts[k];
    l.Goes(pass.tick) && l.q[l.i].tries > 0 && pass.tick < t <= w && trace.ls[k + 1] == l.Next(t)
  }

  ghost predicate Traced(pass: Pass, trace: Trace, w: nat) {
    && trace.Shaped() && trace.ls[0] == Loop(pass.queue, pass.due, 0, [])
    && forall k :: 0 <= k < |trace.ts| ==> Step(pass, trace, w, k)
  }

  lemma TraceOn(pass: Pass, trace: Trace, w: nat, later: nat)
    requires Traced(pass, trace, w) && w <= later
    ensures Traced(pass, trace, later)
  {
    forall k | 0 <= k < |trace.ts|
      ensures Step(pass, trace, later, k)
    {
      assert Step(pass, trace, w, k);
    }
  }

  lemma TraceNext(pass: Pass, trace: Trace, before: nat, t: nat, l': Loop)
    requires Traced(pass, trace, before) && trace.Last().Goes(pass.tick) && trace.Last().q[trace.Last().i].tries > 0
    requires pass.tick < t && before <= t && l' == trace.Last().Next(t)
    ensures Traced(pass, Trace(trace.ls + [l'], trace.ts + [t]), t)
  {
    var trace' := Trace(trace.ls + [l'], trace.ts + [t]);
    forall k | 0 <= k < |trace'.ts|
      ensures Step(pass, trace', t, k)
    {
      if k < |trace.ts| {
        assert Step(pass, trace, before, k);
      }
    }
  }

  /** The state of the loop after `j` packets. */
  ghost predicate Sending(pass: Pass, w: nat, j: nat, l: Loop) {
    && pass.Ok() && Distinct(l.q, HandleOf) && |l.q| == |l.d|
    && (pass.Close(w) ==> Sent(pass, w, TrueSlot(pass.due, pass.tick), j, l))
  }

  /** Of the `k` packets that are due the first `j` were sent. */
  ghost predicate Sent(pass: Pass, w: nat, k: nat, j: nat, l: Loop) {
    && Midway(pass.queue, pass.due, pass.tick, k, j, l.q, l.d) && Fits(l.d, pass.due, pass.tick, w)
    && (j < k ==> l.i == 0)
    && l.sent == Transmissions(pass.queue[..j])
  }

  lemma OneMore(q0: seq<Packet>, j: nat)
    requires j < |q0|
    ensures Transmissions(q0[..j + 1]) == Transmissions(q0[..j]) + [Shown(Marked(q0[j]))]
  {
    assert q0[..j + 1][..j] == q0[..j];
  }

  lemma Begins(pass: Pass, w: nat)
    requires pass.Starts()
    ensures Sending(pass, w, 0, Loop(pass.queue, pass.due, 0, []))
  {
    if pass.Close(w) {
      Start(pass.queue, pass.due, pass.tick);
    }
  }

  lemma DistinctNext(l: Loop, t: nat, l': Loop)
    requires l.i < |l.q| == |l.d| && Distinct(l.q, HandleOf) && l' == l.Next(t)
    ensures Distinct(l'.q, HandleOf) && |l'.q| == |l'.d|
  {
    var r, p := RemoveAt(l.q, l.i), Again(l.q[l.i]).(time := Wrap(t));
    DistinctRemove(l.q, l.i, HandleOf);
    InsertIsAtSlot(r, p);
    assert HandleOf(p) == HandleOf(l.q[l.i]);
    DistinctInsert(r, Slot(r, p.time), p, HandleOf);
  }

  lemma Steps(pass: Pass, w: nat, j: nat, l: Loop, t: nat, l': Loop)
    requires Sending(pass, w, j, l) && l.Goes(pass.tick) && l.q[l.i].tries > 0 && pass.tick < t <= w && l' == l.Next(t)
    ensures Sending(pass, w, j + 1, l')
  {
    DistinctNext(l, t, l');
    if pass.Close(w) {
      StepsClose(pass, w, TrueSlot(pass.due, pass.tick), j, l, t, l');
    }
  }

  lemma StepsClose(pass: Pass, w: nat, k: nat, j: nat, l: Loop, t: nat, l': Loop)
    requires pass.Ok() && pass.Close(w) && pass.tick < t <= w && Distinct(l.q, HandleOf)
    requires Sent(pass, w, k, j, l) && l.Goes(pass.tick) && l.q[l.i].tries > 0 && l' == l.Next(t)
    ensures Sent(pass, w, k, j + 1, l')
  {
    PassKeepsMidway(pass.queue, pass.due, pass.tick, w, k, j, l.q, l.d, l.i, Again(l.q[l.i]), t, l'.q, l'.d, l'.i);
    OneMore(pass.queue, j);
  }

  /** So after any number of passes that many of the due packets were sent. */
  lemma {:induction false} LoopSends(pass: Pass, trace: Trace, w: nat, n: nat)
    requires pass.Starts() && Traced(pass, trace, w) && n <= |trace.ts|
    ensures Sending(pass, w, n, trace.ls[n])
  {
    if n == 0 {
      Begins(pass, w);
    } else {
      LoopSends(pass, trace, w, n - 1);
      assert Step(pass, trace, w, n - 1);
      Steps(pass, w, n - 1, trace.ls[n - 1], trace.ts[n - 1], trace.ls[n]);
    }
  }

  // -------------------------------------------------------------------------
  // What a retransmission looks like
  // -------------------------------------------------------------------------

  /** `x` is the packet `p`, possibly sent again: only the DUP bit of a PUBLISH, the tries
      and the time may differ. */
  predicate Copy(x: Packet, p: Packet) {
    && (x.handle, x.typ, x.body) == (p.handle, p.typ, p.body)
    && QoSOf(x.flags) == QoSOf(p.flags) && RetainOf(x.flags) == RetainOf(p.flags)
    && (p.typ != PUBLISH ==> x.flags == p.flags)
  }

  ghost predicate Copies(q: seq<Packet>, q0: seq<Packet>) {
    forall x <- q :: exists p :: p in q0 && Copy(x, p)
  }

  /** The packet `p` of the queue on the wire again: a PUBLISH with the DUP bit set and
      otherwise as it was (section 3.3.1.1 of MQTT v3.1.1), any other packet as it was. */
  predicate Retransmits(t: Transmission, p: Packet) {
    && (t.handle, t.typ, t.body) == (p.handle, p.typ, p.body)
    && QoSOf(t.flags) == QoSOf(p.flags) && RetainOf(t.flags) == RetainOf(p.flags)
    && if p.typ == PUBLISH then DupOf(t.flags) else t.flags == p.flags
  }

  ghost predicate AllRetransmit(sent: seq<Transmission>, q0: seq<Packet>) {
    forall t <- sent :: exists p :: p in q0 && Retransmits(t, p)
  }

  lemma CopySent(x: Packet, p: Packet)
    requires Copy(x, p)
    ensures Copy(Again(x), p) && Retransmits(Shown(Marked(x)), p)
  {
    MarkingSetsDup(x.flags);
  }

  lemma CopiesNext(l: Loop, t: nat, q0: seq<Packet>, l': Loop)
    requires l.i < |l.q| == |l.d| && Copies(l.q, q0) && AllRetransmit(l.sent, q0) && l' == l.Next(t)
    ensures Copies(l'.q, q0) && AllRetransmit(l'.sent, q0)
  {
    var x := l.q[l.i];
    var again := Again(x).(time := Wrap(t));
    assert x in l.q;
    var p :| p in q0 && Copy(x, p);
    CopySent(x, p);
    assert Copy(again, p);
    var r := RemoveAt(l.q, l.i);
    InsertIsAtSlot(r, again);
    InsertMembers(r, Slot(r, again.time), again);
    assert forall y <- r :: y in l.q;
  }

  /** Every transmission along the loop is a retransmission of a packet of the queue. */
  lemma {:induction false} LoopRetransmits(pass: Pass, trace: Trace, w: nat, n: nat)
    requires Traced(pass, trace, w) && n <= |trace.ts|
    ensures Copies(trace.ls[n].q, pass.queue) && AllRetransmit(trace.ls[n].sent, pass.queue)
  {
    if n > 0 {
      LoopRetransmits(pass, trace, w, n - 1);
      assert Step(pass, trace, w, n - 1);
      CopiesNext(trace.ls[n - 1], trace.ts[n - 1], pass.queue, trace.ls[n]);
    } else {
      forall x <- pass.queue
        ensures exists p :: p in pass.queue && Copy(x, p)
      {
        assert Copy(x, x);
      }
    }
  }

  /** And so is the one that fails. */
  lemma LastRetransmits(pass: Pass, trace: Trace, w: nat, l: Loop)
    requires Traced(pass, trace, w) && l == trace.Last() && l.Goes(pass.tick)
    ensures AllRetransmit(l.sent + Sends(l.q[l.i]), pass.queue)
  {
    LoopRetransmits(pass, trace, w, |trace.ts|);
    assert l.q[l.i] in l.q;
    var p :| p in pass.queue && Copy(l.q[l.i], p);
    CopySent(l.q[l.i], p);
  }

  /** If the next send fails, then the call gives up; it was a transmission only if a
      try was left. */
  lemma LoopFails(pass: Pass, trace: Trace, w: nat, l: Loop)
    requires pass.Starts() && Traced(pass, trace, w)
    requires l == trace.Last() && l.Goes(pass.tick) && pass.tick <= w
    ensures GivenUp(pass, w, l.sent + Sends(l.q[l.i]))
  {
    var n := |trace.ts|;
    LoopSends(pass, trace, w, n);
    if pass.Close(w) {
      NextIsDue(pass.queue, pass.due, pass.tick, TrueSlot(pass.due, pass.tick), n, l.q, l.d, l.i, w);
      OneMore(pass.queue, n);
      assert l.sent + [] == l.sent;
    }
  }

  /** If the loop stops, then the call is done. */
  lemma LoopEnds(pass: Pass, trace: Trace, w: nat, l: Loop)
    requires pass.Starts() && Traced(pass, trace, w)
    requires l == trace.Last() && pass.tick <= w
    requires l.i <= |l.q| && (l.i == |l.q| || After(l.q[l.i].time, Wrap(pass.tick)))
    ensures Done(pass, w, l.sent, l.q, l.d)
  {
    var n := |trace.ts|;
    LoopSends(pass, trace, w, n);
    if pass.Close(w) {
      StopsWhenDone(pass.queue, pass.due, pass.tick, TrueSlot(pass.due, pass.tick), n, l.q, l.d, l.i, w);
    }
  }

  lemma Spent(q: seq<Packet>, d: seq<nat>, i: nat, t: nat, q': seq<Packet>)
    requires i < |q| == |d| && q[i].tries > 0 && q' == Resent(q, d, i, t).0
    ensures Tries(q') < Tries(q)
  {
    TriesSpent(q, i, Again(q[i]).(time := Wrap(t)));
  }
}
