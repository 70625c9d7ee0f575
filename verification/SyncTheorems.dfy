/** The promises of the threading layer, for every reachable state. */
module SyncTheorems {
  import opened Mutexes
  import opened Condvars
  import opened SyncSystem
  import opened SyncProofs

  lemma {:induction false} RunKeepsInv(s: State, steps: seq<Step>, s': State)
    requires Inv(s) && Run(s, steps, s')
    ensures Inv(s')
    decreases |steps|
  {
    if steps != [] {
      StepKeepsInv(s, steps[0]);
      RunKeepsInv(Apply(s, steps[0]), steps[1..], s');
    }
  }

  lemma InitialInv(s: State)
    requires Initial(s)
    ensures Inv(s)
  {
    forall m <- s.mutexes
      ensures MutexLedger(s.mutexes[m], s.tasks, m)
    {
      assert Those(s.tasks, Holding(m)) == {} && Those(s.tasks, BlockedOn(m)) == {};
    }
    forall c <- s.conds
      ensures CondLedger(s.conds[c], s.tasks, s.history, c)
    {
      assert Those(s.tasks, PendingOn(c)) == {};
      assert Those(s.tasks, LeavingWith(c, true)) == {} && Those(s.tasks, LeavingWith(c, false)) == {};
    }
  }

  /** Any number of tasks, any interleaving: the invariant always holds. */
  lemma ReachableInv(s: State)
    requires Reachable(s)
    ensures Inv(s)
  {
    var s0, steps :| Initial(s0) && Run(s0, steps, s);
    InitialInv(s0);
    RunKeepsInv(s0, steps, s);
  }

  // -------------------------------------------------------------------------
  // The mutex
  // -------------------------------------------------------------------------

  lemma TwoOf(tasks: map<TaskId, Task>, f: Task -> bool, t: TaskId, u: TaskId)
    requires t in tasks && u in tasks && f(tasks[t]) && f(tasks[u]) && t != u
    ensures |Those(tasks, f)| >= 2
  {
    var x := Those(tasks, f);
    assert u in x - {t};
    assert |x - {t}| == |x| - 1;
  }

  /** Mutual exclusion, and what the fields of the mutex stand for. */
  lemma MutexSafety(s: State, m: MutexId)
    requires Reachable(s) && m in s.mutexes
    ensures var x := s.mutexes[m];
            && (forall t, u | t in s.tasks && u in s.tasks && m in s.tasks[t].holds && m in s.tasks[u].holds :: t == u)
            && (x.locked <==> (exists t :: t in s.tasks && m in s.tasks[t].holds) || x.count == 1)
            && !((exists t :: t in s.tasks && m in s.tasks[t].holds) && x.count > 0)
            && x.waiters + x.count == |Those(s.tasks, BlockedOn(m))|
            && (!x.locked ==> Those(s.tasks, BlockedOn(m)) == {})
  {
    ReachableInv(s);
    var x := s.mutexes[m];
    var owners := Those(s.tasks, Holding(m));
    assert MutexLedger(x, s.tasks, m);
    forall t, u | t in s.tasks && u in s.tasks && m in s.tasks[t].holds && m in s.tasks[u].holds
      ensures t == u
    {
      if t != u { TwoOf(s.tasks, Holding(m), t, u); }
    }
    assert forall t :: t in owners <==> t in s.tasks && m in s.tasks[t].holds;
    if owners != {} {
      var t :| t in owners;
      Member(s.tasks, t, Holding(m));
    }
  }

  /** `TryAcquire` succeeds only when nobody is blocked: it cannot overtake a
      task that was promised the mutex. */
  lemma TryLockCannotOvertake(s: State, t: TaskId, m: MutexId)
    requires Reachable(s) && Enabled(s, TryLock(t, m)) && m !in s.tasks[t].holds
    ensures m in Apply(s, TryLock(t, m)).tasks[t].holds <==> !s.mutexes[m].locked
    ensures m in Apply(s, TryLock(t, m)).tasks[t].holds ==> Those(s.tasks, BlockedOn(m)) == {}
  {
    MutexSafety(s, m);
  }

  lemma SomeOf(tasks: map<TaskId, Task>, f: Task -> bool) returns (t: TaskId)
    requires |Those(tasks, f)| > 0
    ensures t in tasks && f(tasks[t])
  {
    assert Those(tasks, f) != {};
    t :| t in Those(tasks, f);
  }

  /** A handed-over unit is never stranded: some task blocked on that mutex can go on. */
  lemma HandoverHasTaker(s: State, m: MutexId)
    requires Reachable(s) && m in s.mutexes && s.mutexes[m].count > 0
    ensures exists t :: && t in s.tasks && BlockedOn(m)(s.tasks[t])
                        && (Enabled(s, LockResumes(t)) || Enabled(s, RelockResumes(t)))
  {
    ReachableInv(s);
    var t := HandoverTaker(s, m);
  }

  lemma HandoverTaker(s: State, m: MutexId) returns (t: TaskId)
    requires Inv(s) && m in s.mutexes && s.mutexes[m].count > 0
    ensures t in s.tasks && BlockedOn(m)(s.tasks[t])
    ensures Enabled(s, LockResumes(t)) || Enabled(s, RelockResumes(t))
  {
    assert MutexLedger(s.mutexes[m], s.tasks, m);
    t := SomeOf(s.tasks, BlockedOn(m));
    BlockedCanGoOn(s, m, t);
  }

  lemma BlockedCanGoOn(s: State, m: MutexId, t: TaskId)
    requires WellFormed(s) && m in s.mutexes && s.mutexes[m].count > 0 && t in s.tasks && BlockedOn(m)(s.tasks[t])
    ensures Enabled(s, LockResumes(t)) || Enabled(s, RelockResumes(t))
  {
  }

  // -------------------------------------------------------------------------
  // The condition variable
  // -------------------------------------------------------------------------

  lemma FewerThanAll(tasks: map<TaskId, Task>, f: Task -> bool)
    ensures |Those(tasks, f)| <= |tasks|
  {
    assert tasks.Keys == Those(tasks, f) + (tasks.Keys - Those(tasks, f));
  }

  /** waiters plus units is the number of tasks that are still waiting; so no
      unit is without a waiter and the count is never negative nor too large. */
  lemma WaiterAccounting(s: State, c: CondId)
    requires Reachable(s) && c in s.conds
    ensures var cv, pending := s.conds[c], |Those(s.tasks, PendingOn(c))|;
            && cv.waiters + cv.count == pending
            && 0 <= cv.waiters <= |s.tasks|
            && cv.count <= pending
            && (pending == 0 ==> cv == IDLE)
  {
    ReachableInv(s);
    assert CondLedger(s.conds[c], s.tasks, s.history, c);
    FewerThanAll(s.tasks, PendingOn(c));
  }

  /** Every unit issued so far was the reason of one wait that returned 0, or of
      one that is about to, or is still there for a waiter to take. */
  lemma NotificationConservation(s: State, c: CondId)
    requires Reachable(s) && c in s.conds
    ensures IssuedUnits(s.history, c)
            == ReturnedWaits(s.history, c, false) + |Those(s.tasks, LeavingWith(c, false))| + s.conds[c].count
    ensures StartedWaits(s.history, c)
            == ReturnedWaits(s.history, c, false) + ReturnedWaits(s.history, c, true)
               + |Those(s.tasks, LeavingWith(c, false))| + |Those(s.tasks, LeavingWith(c, true))|
               + |Those(s.tasks, PendingOn(c))|
  {
    ReachableInv(s);
    assert CondLedger(s.conds[c], s.tasks, s.history, c);
  }

  /** ETIMEDOUT means that the wait took no unit from the semaphore, 0 that it took
      exactly one. */
  lemma TimeoutIffNoUnit(s: State, e: Event)
    requires Reachable(s) && e in s.history && e.Returned?
    ensures 0 <= e.took <= 1 && (e.timedOut <==> e.took == 0)
  {
    ReachableInv(s);
  }

  lemma SoleOwner(x: Mutex, tasks: map<TaskId, Task>, m: MutexId, t: TaskId)
    requires MutexLedger(x, tasks, m) && t in tasks && m in tasks[t].holds
    ensures forall u | u in tasks :: m in tasks[u].holds <==> u == t
  {
    forall u | u in tasks && m in tasks[u].holds
      ensures u == t
    {
      if t != u { TwoOf(tasks, Holding(m), t, u); }
    }
  }

  /** wait and timedwait return with the caller as the only owner. */
  lemma WaitReturnsOwning(s: State, step: Step)
    requires Reachable(s) && Enabled(s, step)
    requires News(s, step) != [] && News(s, step)[0].Returned?
    ensures var e, s' := News(s, step)[0], Apply(s, step);
            && e.t == step.t && e.t in s'.tasks && s'.tasks[e.t].at == Running
            && (forall u | u in s'.tasks :: e.m in s'.tasks[u].holds <==> u == e.t)
  {
    ReachableInv(s);
    ReturnOwns(s, step);
  }

  lemma ReturnOwns(s: State, step: Step)
    requires Inv(s) && Enabled(s, step)
    requires News(s, step) != [] && News(s, step)[0].Returned?
    ensures var e, s' := News(s, step)[0], Apply(s, step);
            && e.t == step.t && e.t in s'.tasks && s'.tasks[e.t].at == Running
            && (forall u | u in s'.tasks :: e.m in s'.tasks[u].holds <==> u == e.t)
  {
    var e, s' := News(s, step)[0], Apply(s, step);
    ReturnHolds(s, step);
    StepKeepsInv(s, step);
    LedgerOf(s', e.m);
    SoleOwner(s'.mutexes[e.m], s'.tasks, e.m, e.t);
  }

  lemma LedgerOf(s: State, m: MutexId)
    requires Inv(s) && m in s.mutexes
    ensures MutexLedger(s.mutexes[m], s.tasks, m)
  {
  }

  lemma ReturnHolds(s: State, step: Step)
    requires Enabled(s, step)
    requires News(s, step) != [] && News(s, step)[0].Returned?
    ensures var e, s' := News(s, step)[0], Apply(s, step);
            && e.t == step.t && e.m in s'.mutexes
            && e.t in s'.tasks && s'.tasks[e.t].at == Running && e.m in s'.tasks[e.t].holds
  {
  }

  /** signal issues a unit exactly when some waiter has none reserved for it. */
  lemma SignalIssuesIff(s: State, t: TaskId, c: CondId)
    requires Reachable(s) && Enabled(s, Signal(t, c))
    ensures var before, after := s.conds[c], Apply(s, Signal(t, c)).conds[c];
            after.count == before.count + if |Those(s.tasks, PendingOn(c))| > before.count then 1 else 0
  {
    WaiterAccounting(s, c);
  }

  /** Right after a broadcast there is exactly one unit for every waiter. */
  lemma BroadcastReachesAll(s: State, t: TaskId, c: CondId)
    requires Reachable(s) && Enabled(s, Broadcast(t, c))
    ensures var s' := Apply(s, Broadcast(t, c));
            && s'.conds[c] == Condvar(0, |Those(s'.tasks, PendingOn(c))|)
            && s'.tasks == s.tasks
  {
    WaiterAccounting(s, c);
  }

  /** The waiter `t` of `c` goes on, taking a unit. */
  predicate TakesUnit(s: State, c: CondId, t: TaskId, step: Step) {
    && (step == UnitArrives(t) || step == TimeoutResumes(t))
    && Enabled(s, step)
    && c in s.conds && s.conds[c].count > 0 && PendingOn(c)(s.tasks[t])
    && Apply(s, step).conds == s.conds[c := UnitTaken(s.conds[c])]
  }

  /** A unit is never stranded either: some waiter can take it now, and when it
      runs it takes one. */
  lemma UnitHasTaker(s: State, c: CondId)
    requires Reachable(s) && c in s.conds && s.conds[c].count > 0
    ensures exists t, step :: TakesUnit(s, c, t, step)
  {
    ReachableInv(s);
    var t := UnitTaker(s, c);
  }

  lemma UnitTaker(s: State, c: CondId) returns (t: TaskId)
    requires Inv(s) && c in s.conds && s.conds[c].count > 0
    ensures TakesUnit(s, c, t, UnitArrives(t)) || TakesUnit(s, c, t, TimeoutResumes(t))
  {
    assert CondLedger(s.conds[c], s.tasks, s.history, c);
    t := SomeOf(s.tasks, PendingOn(c));
    PendingTakes(s, c, t);
  }

  lemma PendingTakes(s: State, c: CondId, t: TaskId)
    requires WellFormed(s) && c in s.conds && s.conds[c].count > 0
    requires t in s.tasks && PendingOn(c)(s.tasks[t])
    ensures TakesUnit(s, c, t, if s.tasks[t].at.Woken? then TimeoutResumes(t) else UnitArrives(t))
  {
  }

  // -------------------------------------------------------------------------
  // The race between timeout and signal
  // -------------------------------------------------------------------------

  /** A woken waiter that finds a unit takes it: its wait ends with 0 and the
      waiter count, which the signaller has already lowered, stays. */
  lemma UnitBeatsTimeout(s: State, t: TaskId, c: CondId)
    requires WellFormed(s) && t in s.tasks && s.tasks[t].at.Woken? && s.tasks[t].at.c == c && s.conds[c].count > 0
    ensures Enabled(s, TimeoutResumes(t))
    ensures PartIn(Apply(s, TimeoutResumes(t)).tasks[t], c) in {None, Leaving(false)}
    ensures Apply(s, TimeoutResumes(t)).conds == s.conds[c := UnitTaken(s.conds[c])]
  {
  }

  /** A signal that lands after the timeout woke a waiter and before the waiter
      runs is not lost and leaves nothing behind: the waiter finds a unit, its
      wait ends with 0, and waiters and units together have gone down by one. */
  lemma SignalInTheTimeoutWindow(s: State, t: TaskId, u: TaskId, c: CondId, s1: State)
    requires Reachable(s) && t in s.tasks && s.tasks[t].at.Woken? && s.tasks[t].at.c == c
    requires Enabled(s, Signal(u, c)) && s1 == Apply(s, Signal(u, c))
    ensures Enabled(s1, TimeoutResumes(t))
    ensures var s2 := Apply(s1, TimeoutResumes(t));
            && PartIn(s2.tasks[t], c) in {None, Leaving(false)}
            && s2.conds[c].waiters + s2.conds[c].count == s.conds[c].waiters + s.conds[c].count - 1
            && s2.conds[c].waiters >= 0
  {
    ReachableInv(s);
    SignalFindsWoken(s, t, u, c, s1);
    UnitBeatsTimeout(s1, t, c);
  }

  lemma SignalFindsWoken(s: State, t: TaskId, u: TaskId, c: CondId, s1: State)
    requires Inv(s) && t in s.tasks && s.tasks[t].at.Woken? && s.tasks[t].at.c == c
    requires Enabled(s, Signal(u, c)) && s1 == Apply(s, Signal(u, c))
    ensures Inv(s1) && s1.tasks == s.tasks && c in s1.conds && s1.conds[c].count > 0
    ensures s1.conds[c].waiters >= 0
    ensures s1.conds[c].waiters + s1.conds[c].count == s.conds[c].waiters + s.conds[c].count
  {
    StepKeepsInv(s, Signal(u, c));
    Member(s.tasks, t, PendingOn(c));
    assert CondLedger(s.conds[c], s.tasks, s.history, c);
  }
}
