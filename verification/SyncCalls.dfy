/** What each call on a mutex or a condition variable gives to its caller, in every
    reachable state, and that it changes nothing else. */
module SyncCalls {
  import opened Mutexes
  import opened Condvars
  import opened SyncSystem
  import opened SyncProofs
  import opened SyncTheorems

  /** The number of tasks blocked on the mutex, and of those still waiting for a unit. */
  function Blocked(s: State, m: MutexId): nat {
    |Those(s.tasks, BlockedOn(m))|
  }

  function Pending(s: State, c: CondId): nat {
    |Those(s.tasks, PendingOn(c))|
  }

  predicate HasOwner(s: State, m: MutexId) {
    exists t :: t in s.tasks && m in s.tasks[t].holds
  }

  predicate SoleHolder(s: State, t: TaskId, m: MutexId) {
    forall u | u in s.tasks :: m in s.tasks[u].holds <==> u == t
  }

  /** No other task, mutex or condition variable changes. */
  predicate OnlyThese(s: State, s': State, t: TaskId, ms: set<MutexId>, cs: set<CondId>) {
    && s'.tasks.Keys == s.tasks.Keys && s'.mutexes.Keys == s.mutexes.Keys && s'.conds.Keys == s.conds.Keys
    && (forall u <- s.tasks :: u != t ==> s'.tasks[u] == s.tasks[u])
    && (forall m <- s.mutexes :: m !in ms ==> s'.mutexes[m] == s.mutexes[m])
    && (forall c <- s.conds :: c !in cs ==> s'.conds[c] == s.conds[c])
  }

  lemma BlockedAfter(s: State, step: Step, m: MutexId)
    requires Enabled(s, step)
    ensures step.t in Apply(s, step).tasks
    ensures Blocked(Apply(s, step), m) + One(BlockedOn(m)(s.tasks[step.t]))
            == Blocked(s, m) + One(BlockedOn(m)(Apply(s, step).tasks[step.t]))
  {
    OnlyOneMoves(s, step);
    CountAfter(s.tasks, step.t, Moved(s, step), BlockedOn(m));
  }

  lemma PendingAfter(s: State, step: Step, c: CondId)
    requires Enabled(s, step)
    ensures step.t in Apply(s, step).tasks
    ensures Pending(Apply(s, step), c) + One(PendingOn(c)(s.tasks[step.t]))
            == Pending(s, c) + One(PendingOn(c)(Apply(s, step).tasks[step.t]))
  {
    OnlyOneMoves(s, step);
    CountAfter(s.tasks, step.t, Moved(s, step), PendingOn(c));
  }

  /** A holder is the only one. */
  lemma HolderIsSole(s: State, t: TaskId, m: MutexId)
    requires Inv(s) && m in s.mutexes && t in s.tasks && m in s.tasks[t].holds
    ensures SoleHolder(s, t, m) && HasOwner(s, m) && s.mutexes[m].locked && s.mutexes[m].count == 0
  {
    LedgerOf(s, m);
    SoleOwner(s.mutexes[m], s.tasks, m, t);
    Member(s.tasks, t, Holding(m));
  }

  // -------------------------------------------------------------------------
  // lock and try_lock
  // -------------------------------------------------------------------------

  lemma LockMoves(s: State, t: TaskId, m: MutexId)
    requires Enabled(s, Lock(t, m))
    ensures var s' := Apply(s, Lock(t, m));
            && OnlyThese(s, s', t, {m}, {}) && t in s'.tasks && s'.history == s.history
            && s'.tasks[t] == if s.mutexes[m].locked then Task(s.tasks[t].holds, Locking(m))
                              else Task(s.tasks[t].holds + {m}, Running)
  {
  }

  /** lock returns at once, to the only owner, exactly if the mutex is not locked;
      otherwise the caller is blocked on it, one more than before, and owns no more
      than it did. */
  lemma LockGives(s: State, t: TaskId, m: MutexId)
    requires Reachable(s) && Enabled(s, Lock(t, m))
    ensures var s' := Apply(s, Lock(t, m));
            && OnlyThese(s, s', t, {m}, {}) && t in s'.tasks && s'.history == s.history
            && if !s.mutexes[m].locked then
                 && s'.tasks[t] == Task(s.tasks[t].holds + {m}, Running) && SoleHolder(s', t, m)
                 && Blocked(s', m) == Blocked(s, m) == 0
               else
                 s'.tasks[t] == Task(s.tasks[t].holds, Locking(m)) && Blocked(s', m) == Blocked(s, m) + 1
  {
    hide Apply, Inv, MutexLedger, OnlyThese, SoleHolder;
    ReachableInv(s);
    LockMoves(s, t, m);
    StepKeepsInv(s, Lock(t, m));
    BlockedAfter(s, Lock(t, m), m);
    MutexSafety(s, m);
    NothingVanishes(s, Lock(t, m));
    if !s.mutexes[m].locked {
      HolderIsSole(Apply(s, Lock(t, m)), t, m);
    }
  }

  lemma LockResumesMoves(s: State, t: TaskId)
    requires Enabled(s, LockResumes(t))
    ensures var s', m := Apply(s, LockResumes(t)), s.tasks[t].at.m;
            && OnlyThese(s, s', t, {m}, {}) && t in s'.tasks && s'.history == s.history
            && s'.tasks[t] == Task(s.tasks[t].holds + {m}, Running)
  {
  }

  /** And when it goes on it returns to the only owner. */
  lemma LockResumesGives(s: State, t: TaskId)
    requires Reachable(s) && Enabled(s, LockResumes(t))
    ensures var s', m := Apply(s, LockResumes(t)), s.tasks[t].at.m;
            && OnlyThese(s, s', t, {m}, {}) && t in s'.tasks && s'.history == s.history
            && s'.tasks[t] == Task(s.tasks[t].holds + {m}, Running) && SoleHolder(s', t, m)
            && Blocked(s', m) + 1 == Blocked(s, m)
  {
    hide Apply, Inv, MutexLedger, OnlyThese, SoleHolder;
    var m := s.tasks[t].at.m;
    ReachableInv(s);
    LockResumesMoves(s, t);
    StepKeepsInv(s, LockResumes(t));
    BlockedAfter(s, LockResumes(t), m);
    NothingVanishes(s, LockResumes(t));
    HolderIsSole(Apply(s, LockResumes(t)), t, m);
  }

  lemma TryLockMoves(s: State, t: TaskId, m: MutexId)
    requires Enabled(s, TryLock(t, m))
    ensures var s' := Apply(s, TryLock(t, m));
            if s.mutexes[m].locked then s' == s
            else
              && OnlyThese(s, s', t, {m}, {}) && t in s'.tasks && s'.history == s.history
              && s'.tasks[t] == Task(s.tasks[t].holds + {m}, Running)
  {
  }

  /** try_lock gives the mutex exactly if it is not locked, and otherwise changes nothing. */
  lemma TryLockGives(s: State, t: TaskId, m: MutexId)
    requires Reachable(s) && Enabled(s, TryLock(t, m))
    ensures var s' := Apply(s, TryLock(t, m));
            if s.mutexes[m].locked then s' == s
            else
              && OnlyThese(s, s', t, {m}, {}) && t in s'.tasks && s'.history == s.history
              && s'.tasks[t] == Task(s.tasks[t].holds + {m}, Running) && SoleHolder(s', t, m)
  {
    hide Apply, Inv, MutexLedger, OnlyThese, SoleHolder;
    ReachableInv(s);
    TryLockMoves(s, t, m);
    StepKeepsInv(s, TryLock(t, m));
    NothingVanishes(s, TryLock(t, m));
    if !s.mutexes[m].locked {
      HolderIsSole(Apply(s, TryLock(t, m)), t, m);
    }
  }

  // -------------------------------------------------------------------------
  // unlock, and the release at the start of a wait
  // -------------------------------------------------------------------------

  /** Nobody owns the mutex: it is free if nobody is blocked, and otherwise there is one
      unit for a blocked task, which can take it. */
  ghost predicate GivenAway(s: State, m: MutexId) {
    && m in s.mutexes && !HasOwner(s, m)
    && if Blocked(s, m) == 0 then s.mutexes[m] == FREE
       else
         && s.mutexes[m].locked && s.mutexes[m].count == 1
         && exists u :: && u in s.tasks && BlockedOn(m)(s.tasks[u])
                        && (Enabled(s, LockResumes(u)) || Enabled(s, RelockResumes(u)))
  }

  lemma ReleasedByOwner(s: State, step: Step, m: MutexId)
    requires Inv(s) && Enabled(s, step) && m in s.tasks[step.t].holds && !BlockedOn(m)(s.tasks[step.t])
    requires step.t in Apply(s, step).tasks && m !in Apply(s, step).tasks[step.t].holds
    requires !BlockedOn(m)(Apply(s, step).tasks[step.t])
    ensures GivenAway(Apply(s, step), m) && Blocked(Apply(s, step), m) == Blocked(s, m)
  {
    var s' := Apply(s, step);
    HolderIsSole(s, step.t, m);
    OnlyOneMoves(s, step);
    BlockedAfter(s, step, m);
    StepKeepsInv(s, step);
    LedgerOf(s, m);
    LedgerOf(s', m);
    NobodyHolds(s, step, m);
    if Blocked(s', m) > 0 {
      MutexEffectOf(s, step, m);
      var u := HandoverTaker(s', m);
    }
  }

  lemma NobodyHolds(s: State, step: Step, m: MutexId)
    requires Enabled(s, step) && SoleHolder(s, step.t, m)
    requires step.t in Apply(s, step).tasks && m !in Apply(s, step).tasks[step.t].holds
    ensures !HasOwner(Apply(s, step), m) && Those(Apply(s, step).tasks, Holding(m)) == {}
  {
    OnlyOneMoves(s, step);
  }

  lemma UnlockMoves(s: State, t: TaskId, m: MutexId)
    requires Enabled(s, Unlock(t, m))
    ensures var s' := Apply(s, Unlock(t, m));
            && OnlyThese(s, s', t, {m}, {}) && t in s'.tasks && s'.history == s.history
            && s'.tasks[t] == Task(s.tasks[t].holds - {m}, Running)
  {
  }

  /** Behind unlock the caller does not own the mutex, and it is given away. */
  lemma UnlockGives(s: State, t: TaskId, m: MutexId)
    requires Reachable(s) && Enabled(s, Unlock(t, m))
    ensures var s' := Apply(s, Unlock(t, m));
            && OnlyThese(s, s', t, {m}, {}) && t in s'.tasks && s'.history == s.history
            && s'.tasks[t] == Task(s.tasks[t].holds - {m}, Running) && GivenAway(s', m)
            && Blocked(s', m) == Blocked(s, m)
  {
    hide Apply, Inv, MutexLedger, OnlyThese, GivenAway;
    ReachableInv(s);
    UnlockMoves(s, t, m);
    ReleasedByOwner(s, Unlock(t, m), m);
  }

  lemma WaitMoves(s: State, t: TaskId, c: CondId, m: MutexId, timed: bool)
    requires Enabled(s, if timed then TimedWait(t, c, m) else Wait(t, c, m))
    ensures var s' := Apply(s, if timed then TimedWait(t, c, m) else Wait(t, c, m));
            && OnlyThese(s, s', t, {m}, {c}) && t in s'.tasks && s'.history == s.history + [Started(c)]
            && s'.tasks[t] == Task(s.tasks[t].holds - {m}, if timed then TimedWaiting(c, m) else Waiting(c, m))
            && c in s'.conds && s'.conds[c].count == s.conds[c].count
  {
  }

  /** A wait releases the mutex and is one more wait for a unit, in the same step. */
  lemma WaitGives(s: State, t: TaskId, c: CondId, m: MutexId, timed: bool)
    requires Reachable(s) && Enabled(s, if timed then TimedWait(t, c, m) else Wait(t, c, m))
    ensures var s' := Apply(s, if timed then TimedWait(t, c, m) else Wait(t, c, m));
            && OnlyThese(s, s', t, {m}, {c}) && t in s'.tasks && s'.history == s.history + [Started(c)]
            && s'.tasks[t] == Task(s.tasks[t].holds - {m}, if timed then TimedWaiting(c, m) else Waiting(c, m))
            && GivenAway(s', m) && Blocked(s', m) == Blocked(s, m)
            && Pending(s', c) == Pending(s, c) + 1 && s'.conds[c].count == s.conds[c].count
  {
    hide Apply, Inv, MutexLedger, OnlyThese, GivenAway;
    var step := if timed then TimedWait(t, c, m) else Wait(t, c, m);
    ReachableInv(s);
    WaitMoves(s, t, c, m, timed);
    ReleasedByOwner(s, step, m);
    PendingAfter(s, step, c);
  }

  // -------------------------------------------------------------------------
  // The end of a wait
  // -------------------------------------------------------------------------

  /** The wait of `t` on `c` is over, with this result: it has returned to the only
      owner if the mutex was not locked, and is blocked on it otherwise. */
  ghost predicate WaitOver(s: State, s': State, t: TaskId, c: CondId, m: MutexId, timedOut: bool) {
    && t in s.tasks && t in s'.tasks && m in s.mutexes && c in s.conds && c in s'.conds
    && OnlyThese(s, s', t, {m}, {c}) && Pending(s', c) + 1 == Pending(s, c)
    && s'.conds[c].count == s.conds[c].count - (if timedOut then 0 else 1)
    && var took := if timedOut then 0 else 1;
       if !s.mutexes[m].locked then
         && s'.tasks[t] == Task(s.tasks[t].holds + {m}, Running) && SoleHolder(s', t, m)
         && s'.history == s.history + [Returned(t, c, m, timedOut, took)]
       else
         && s'.tasks[t] == Task(s.tasks[t].holds, Relocking(c, m, timedOut, took))
         && Blocked(s', m) == Blocked(s, m) + 1 && s'.history == s.history
  }

  lemma WaitEndMoves(s: State, t: TaskId, woken: bool)
    requires Enabled(s, if woken then TimeoutResumes(t) else UnitArrives(t))
    ensures var s', at := Apply(s, if woken then TimeoutResumes(t) else UnitArrives(t)), s.tasks[t].at;
            var timedOut := s.conds[at.c].count == 0;
            var took := if timedOut then 0 else 1;
            && OnlyThese(s, s', t, {at.m}, {at.c}) && t in s'.tasks && at.c in s'.conds
            && s'.conds[at.c].count == s.conds[at.c].count - took
            && if !s.mutexes[at.m].locked then
                 && s'.tasks[t] == Task(s.tasks[t].holds + {at.m}, Running)
                 && s'.history == s.history + [Returned(t, at.c, at.m, timedOut, took)]
               else
                 && s'.tasks[t] == Task(s.tasks[t].holds, Relocking(at.c, at.m, timedOut, took))
                 && s'.history == s.history
  {
  }

  /** It ends with a unit, or, if it timed out and finds none, without one. */
  lemma WaitEnds(s: State, t: TaskId, woken: bool)
    requires Reachable(s) && Enabled(s, if woken then TimeoutResumes(t) else UnitArrives(t))
    ensures var task := s.tasks[t];
            WaitOver(s, Apply(s, if woken then TimeoutResumes(t) else UnitArrives(t)), t, task.at.c, task.at.m,
              s.conds[task.at.c].count == 0)
  {
    hide Apply, Inv, MutexLedger, OnlyThese, SoleHolder;
    var step := if woken then TimeoutResumes(t) else UnitArrives(t);
    var c, m := s.tasks[t].at.c, s.tasks[t].at.m;
    ReachableInv(s);
    WaitEndMoves(s, t, woken);
    StepKeepsInv(s, step);
    PendingAfter(s, step, c);
    BlockedAfter(s, step, m);
    NothingVanishes(s, step);
    if !s.mutexes[m].locked {
      HolderIsSole(Apply(s, step), t, m);
    }
  }

  /** A timeout only wakes the waiter. */
  lemma TimeoutGives(s: State, t: TaskId)
    requires Reachable(s) && Enabled(s, TimeoutFires(t))
    ensures var s' := Apply(s, TimeoutFires(t));
            && OnlyThese(s, s', t, {}, {}) && t in s'.tasks && s'.history == s.history
            && s'.tasks[t] == Task(s.tasks[t].holds, Woken(s.tasks[t].at.c, s.tasks[t].at.m))
            && Pending(s', s.tasks[t].at.c) == Pending(s, s.tasks[t].at.c)
  {
    PendingAfter(s, TimeoutFires(t), s.tasks[t].at.c);
  }

  lemma RelockMoves(s: State, t: TaskId)
    requires Enabled(s, RelockResumes(t))
    ensures var s', at := Apply(s, RelockResumes(t)), s.tasks[t].at;
            && OnlyThese(s, s', t, {at.m}, {}) && t in s'.tasks
            && s'.tasks[t] == Task(s.tasks[t].holds + {at.m}, Running)
            && s'.history == s.history + [Returned(t, at.c, at.m, at.timedOut, at.took)]
  {
  }

  /** A wait that was blocked on the mutex returns, with the result it had. */
  lemma RelockResumesGives(s: State, t: TaskId)
    requires Reachable(s) && Enabled(s, RelockResumes(t))
    ensures var s', at := Apply(s, RelockResumes(t)), s.tasks[t].at;
            && OnlyThese(s, s', t, {at.m}, {}) && t in s'.tasks
            && s'.tasks[t] == Task(s.tasks[t].holds + {at.m}, Running) && SoleHolder(s', t, at.m)
            && Blocked(s', at.m) + 1 == Blocked(s, at.m)
            && s'.history == s.history + [Returned(t, at.c, at.m, at.timedOut, at.took)]
  {
    hide Apply, Inv, MutexLedger, OnlyThese, SoleHolder;
    var m := s.tasks[t].at.m;
    ReachableInv(s);
    RelockMoves(s, t);
    StepKeepsInv(s, RelockResumes(t));
    BlockedAfter(s, RelockResumes(t), m);
    NothingVanishes(s, RelockResumes(t));
    HolderIsSole(Apply(s, RelockResumes(t)), t, m);
  }

  /** signal and broadcast touch the condition variable only. */
  lemma NotifyGives(s: State, t: TaskId, c: CondId, all: bool)
    requires Reachable(s) && Enabled(s, if all then Broadcast(t, c) else Signal(t, c))
    ensures var s' := Apply(s, if all then Broadcast(t, c) else Signal(t, c));
            && s'.tasks == s.tasks && OnlyThese(s, s', t, {}, {c})
            && s'.conds[c].waiters + s'.conds[c].count == s.conds[c].waiters + s.conds[c].count
            && s'.history == s.history + [Issued(c, s'.conds[c].count - s.conds[c].count)]
  {
    WaiterAccounting(s, c);
    hide Reachable, Apply, Enabled;
    NotifyMoves(s, t, c, all);
  }

  lemma NotifyMoves(s: State, t: TaskId, c: CondId, all: bool)
    requires Enabled(s, if all then Broadcast(t, c) else Signal(t, c)) && s.conds[c].waiters >= 0
    ensures var s' := Apply(s, if all then Broadcast(t, c) else Signal(t, c));
            && s'.tasks == s.tasks && OnlyThese(s, s', t, {}, {c})
            && s'.conds[c].waiters + s'.conds[c].count == s.conds[c].waiters + s.conds[c].count
            && s'.history == s.history + [Issued(c, s'.conds[c].count - s.conds[c].count)]
  {
  }

  /** A running task can make every call that the interface allows. */
  lemma RunningCanCall(s: State, t: TaskId, m: MutexId, c: CondId)
    requires Reachable(s) && t in s.tasks && s.tasks[t].at.Running? && m in s.mutexes && c in s.conds
    ensures Enabled(s, Lock(t, m)) && Enabled(s, TryLock(t, m))
    ensures Enabled(s, Signal(t, c)) && Enabled(s, Broadcast(t, c))
    ensures m in s.tasks[t].holds ==>
              Enabled(s, Unlock(t, m)) && Enabled(s, Wait(t, c, m)) && Enabled(s, TimedWait(t, c, m))
  {
    ReachableInv(s);
  }

  /** Nobody is blocked for nothing: while a mutex has blocked tasks, it has an owner, or
      one of them can go on. */
  lemma BlockedForAReason(s: State, m: MutexId)
    requires Reachable(s) && m in s.mutexes && Blocked(s, m) > 0
    ensures HasOwner(s, m) || GivenAway(s, m)
  {
    ReachableInv(s);
    LedgerOf(s, m);
    if !HasOwner(s, m) {
      assert Those(s.tasks, Holding(m)) == {};
      var u := HandoverTaker(s, m);
    }
  }
}
