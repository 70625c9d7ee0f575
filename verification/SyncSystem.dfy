/** Any number of tasks using any number of mutexes and condition variables.

    The scheduler is cooperative: a task runs without interruption up to the
    next blocking call.  One step of this system is one such stretch, for a task
    the scheduler picks freely.  Every `Down` counts as blocking, even when a
    unit is already there, which only adds behaviours.  A timeout takes two
    steps, being woken and running again, so that other tasks get in between. */
module SyncSystem {
  import opened Mutexes
  import opened Condvars

  type TaskId = nat
  type MutexId = nat
  type CondId = nat

  /** Where a task is.  `took` is the number of units its current wait took. */
  datatype At =
    | Running
    | Locking(m: MutexId)                     // in Down of Acquire
    | Waiting(c: CondId, m: MutexId)          // in Down of wait
    | TimedWaiting(c: CondId, m: MutexId)     // in DownWithTimeout of timedwait
    | Woken(c: CondId, m: MutexId)            // timed out, not running yet
    | Relocking(c: CondId, m: MutexId, timedOut: bool, took: int)  // in Down of the final Acquire

  datatype Task = Task(holds: set<MutexId>, at: At)

  datatype Event =
    | Started(c: CondId)
    | Issued(c: CondId, units: nat)
    | Returned(t: TaskId, c: CondId, m: MutexId, timedOut: bool, took: int)

  datatype State = State(
    mutexes: map<MutexId, Mutex>,
    conds: map<CondId, Condvar>,
    tasks: map<TaskId, Task>,
    history: seq<Event>)

  datatype Step =
    | Lock(t: TaskId, m: MutexId)
    | TryLock(t: TaskId, m: MutexId)
    | LockResumes(t: TaskId)
    | Unlock(t: TaskId, m: MutexId)
    | Wait(t: TaskId, c: CondId, m: MutexId)
    | TimedWait(t: TaskId, c: CondId, m: MutexId)
    | UnitArrives(t: TaskId)       // Down returns, or DownWithTimeout returns false
    | TimeoutFires(t: TaskId)
    | TimeoutResumes(t: TaskId)    // DownWithTimeout returns true
    | RelockResumes(t: TaskId)
    | Signal(t: TaskId, c: CondId)
    | Broadcast(t: TaskId, c: CondId)

  predicate Initial(s: State) {
    && s.history == []
    && (forall m <- s.mutexes :: s.mutexes[m] == FREE)
    && (forall c <- s.conds :: s.conds[c] == IDLE)
    && (forall t <- s.tasks :: s.tasks[t] == Task({}, Running))
  }

  /** The identifiers that tasks refer to exist. */
  predicate WellFormed(s: State) {
    forall t <- s.tasks ::
      && s.tasks[t].holds <= s.mutexes.Keys
      && match s.tasks[t].at
         case Running => true
         case Locking(m) => m in s.mutexes
         case Waiting(c, m) => c in s.conds && m in s.mutexes
         case TimedWaiting(c, m) => c in s.conds && m in s.mutexes
         case Woken(c, m) => c in s.conds && m in s.mutexes
         case Relocking(c, m, _, _) => c in s.conds && m in s.mutexes
  }

  /** A task calls only while it runs; unlock, wait and timedwait demand that
      the caller holds the mutex; a blocked task goes on when a unit is there. */
  predicate Enabled(s: State, step: Step) {
    && WellFormed(s)
    && step.t in s.tasks
    && var task := s.tasks[step.t];
    match step
    case Lock(_, m) => task.at.Running? && m in s.mutexes
    case TryLock(_, m) => task.at.Running? && m in s.mutexes
    case LockResumes(_) => task.at.Locking? && s.mutexes[task.at.m].count > 0
    case Unlock(_, m) => task.at.Running? && m in task.holds
    case Wait(_, c, m) => task.at.Running? && m in task.holds && c in s.conds
    case TimedWait(_, c, m) => task.at.Running? && m in task.holds && c in s.conds
    case UnitArrives(_) => (task.at.Waiting? || task.at.TimedWaiting?) && s.conds[task.at.c].count > 0
    case TimeoutFires(_) => task.at.TimedWaiting?
    case TimeoutResumes(_) => task.at.Woken?
    case RelockResumes(_) => task.at.Relocking? && s.mutexes[task.at.m].count > 0
    case Signal(_, c) => task.at.Running? && c in s.conds
    case Broadcast(_, c) => task.at.Running? && c in s.conds
  }

  /** The first half of wait and timedwait: announce, release, block. */
  function BeginWait(s: State, t: TaskId, c: CondId, m: MutexId, at: At): State
    requires t in s.tasks && m in s.mutexes && c in s.conds
  {
    s.(conds := s.conds[c := Announced(s.conds[c])],
       mutexes := s.mutexes[m := Released(s.mutexes[m])],
       tasks := s.tasks[t := Task(s.tasks[t].holds - {m}, at)],
       history := s.history + [Started(c)])
  }

  /** The second half: the condition variable has become `cv`, and so many units have
      gone from its semaphore; acquire the mutex again and return if that does not block. */
  function Relock(s: State, t: TaskId, c: CondId, m: MutexId, cv: Condvar, timedOut: bool): State
    requires t in s.tasks && m in s.mutexes && c in s.conds
  {
    var took := s.conds[c].count - cv.count;
    var s' := s.(conds := s.conds[c := cv], mutexes := s.mutexes[m := Entered(s.mutexes[m])]);
    if s.mutexes[m].locked then
      s'.(tasks := s.tasks[t := s.tasks[t].(at := Relocking(c, m, timedOut, took))])
    else
      Return(s', t, c, m, timedOut, took)
  }

  function Return(s: State, t: TaskId, c: CondId, m: MutexId, timedOut: bool, took: int): State
    requires t in s.tasks
  {
    s.(tasks := s.tasks[t := Task(s.tasks[t].holds + {m}, Running)],
       history := s.history + [Returned(t, c, m, timedOut, took)])
  }

  function Owning(s: State, t: TaskId, m: MutexId, x: Mutex): State
    requires t in s.tasks
  {
    s.(mutexes := s.mutexes[m := x], tasks := s.tasks[t := Task(s.tasks[t].holds + {m}, Running)])
  }

  function Apply(s: State, step: Step): State
    requires Enabled(s, step)
  {
    var t := step.t;
    var task := s.tasks[t];
    match step
    case Lock(_, m) =>
      var x := s.mutexes[m];
      if x.locked then
        s.(mutexes := s.mutexes[m := Entered(x)], tasks := s.tasks[t := task.(at := Locking(m))])
      else
        Owning(s, t, m, Entered(x))
    case TryLock(_, m) =>
      var x := s.mutexes[m];
      if x.locked then s else Owning(s, t, m, Entered(x))
    case LockResumes(_) =>
      var m := task.at.m;
      Owning(s, t, m, HandedOver(s.mutexes[m]))
    case Unlock(_, m) =>
      s.(mutexes := s.mutexes[m := Released(s.mutexes[m])],
         tasks := s.tasks[t := task.(holds := task.holds - {m})])
    case Wait(_, c, m) => BeginWait(s, t, c, m, Waiting(c, m))
    case TimedWait(_, c, m) => BeginWait(s, t, c, m, TimedWaiting(c, m))
    case UnitArrives(_) =>
      var c := task.at.c;
      Relock(s, t, c, task.at.m, UnitTaken(s.conds[c]), false)
    case TimeoutFires(_) =>
      s.(tasks := s.tasks[t := task.(at := Woken(task.at.c, task.at.m))])
    case TimeoutResumes(_) =>
      var c := task.at.c;
      var taken := s.conds[c].count > 0;
      Relock(s, t, c, task.at.m, TimeoutSettled(s.conds[c]), !taken)
    case RelockResumes(_) =>
      var m := task.at.m;
      Return(s.(mutexes := s.mutexes[m := HandedOver(s.mutexes[m])]), t, task.at.c, m, task.at.timedOut, task.at.took)
    case Signal(_, c) =>
      var cv := Signalled(s.conds[c]);
      s.(conds := s.conds[c := cv], history := s.history + [Issued(c, cv.count - s.conds[c].count)])
    case Broadcast(_, c) =>
      var cv := BroadcastTo(s.conds[c]);
      s.(conds := s.conds[c := cv], history := s.history + [Issued(c, cv.count - s.conds[c].count)])
  }

  // -------------------------------------------------------------------------
  // Counting tasks
  // -------------------------------------------------------------------------

  function Those(tasks: map<TaskId, Task>, f: Task -> bool): set<TaskId> {
    set t | t in tasks && f(tasks[t])
  }

  function Holding(m: MutexId): Task -> bool {
    (x: Task) => m in x.holds
  }

  function BlockedOn(m: MutexId): Task -> bool {
    (x: Task) => (x.at.Locking? || x.at.Relocking?) && x.at.m == m
  }

  /** Has announced itself and not yet taken a unit or retired. */
  function PendingOn(c: CondId): Task -> bool {
    (x: Task) => (x.at.Waiting? || x.at.TimedWaiting? || x.at.Woken?) && x.at.c == c
  }

  /** Has left the condition variable and not yet got the mutex back. */
  function LeavingWith(c: CondId, timedOut: bool): Task -> bool {
    (x: Task) => x.at.Relocking? && x.at.c == c && x.at.timedOut == timedOut
  }

  function StartedWaits(h: seq<Event>, c: CondId): nat {
    if h == [] then 0
    else StartedWaits(h[..|h|-1], c) + if h[|h|-1] == Started(c) then 1 else 0
  }

  function IssuedUnits(h: seq<Event>, c: CondId): nat {
    if h == [] then 0
    else IssuedUnits(h[..|h|-1], c) + match h[|h|-1] { case Issued(c', n) => if c' == c then n else 0 case _ => 0 }
  }

  function ReturnedWaits(h: seq<Event>, c: CondId, timedOut: bool): nat {
    if h == [] then 0
    else
      ReturnedWaits(h[..|h|-1], c, timedOut) +
      match h[|h|-1] { case Returned(_, c', _, out, _) => if c' == c && out == timedOut then 1 else 0 case _ => 0 }
  }

  // -------------------------------------------------------------------------
  // The invariant
  // -------------------------------------------------------------------------

  ghost predicate MutexLedger(x: Mutex, tasks: map<TaskId, Task>, m: MutexId) {
    && x.waiters >= 0
    && |Those(tasks, Holding(m))| + x.count == (if x.locked then 1 else 0)
    && x.waiters + x.count == |Those(tasks, BlockedOn(m))|
    && (!x.locked ==> x.waiters == 0)
  }

  ghost predicate CondLedger(cv: Condvar, tasks: map<TaskId, Task>, h: seq<Event>, c: CondId) {
    && cv.waiters >= 0
    && cv.waiters + cv.count == |Those(tasks, PendingOn(c))|
    && IssuedUnits(h, c) == ReturnedWaits(h, c, false) + |Those(tasks, LeavingWith(c, false))| + cv.count
    && StartedWaits(h, c)
       == |Those(tasks, PendingOn(c))|
          + |Those(tasks, LeavingWith(c, false))| + |Those(tasks, LeavingWith(c, true))|
          + ReturnedWaits(h, c, false) + ReturnedWaits(h, c, true)
  }

  /** A wait times out exactly when it took no unit, and takes at most one. */
  predicate HonestUnits(timedOut: bool, took: int) {
    took == if timedOut then 0 else 1
  }

  ghost predicate UnitsInv(s: State) {
    && (forall t <- s.tasks :: s.tasks[t].at.Relocking? ==> HonestUnits(s.tasks[t].at.timedOut, s.tasks[t].at.took))
    && (forall e <- s.history :: e.Returned? ==> HonestUnits(e.timedOut, e.took))
  }

  ghost predicate Inv(s: State) {
    && WellFormed(s)
    && (forall m <- s.mutexes :: MutexLedger(s.mutexes[m], s.tasks, m))
    && (forall c <- s.conds :: CondLedger(s.conds[c], s.tasks, s.history, c))
    && UnitsInv(s)
  }

  /** The states reached along a list of steps, if every one was enabled. */
  ghost predicate Run(s: State, steps: seq<Step>, s': State)
    decreases |steps|
  {
    if steps == [] then s == s'
    else
      && Enabled(s, steps[0])
      && Run(Apply(s, steps[0]), steps[1..], s')
  }

  ghost predicate Reachable(s: State) {
    exists s0, steps :: Initial(s0) && Run(s0, steps, s)
  }
}
