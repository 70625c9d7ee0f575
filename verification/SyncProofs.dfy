/** What holds in every state that the tasks of SyncSystem can reach. */
module SyncProofs {
  import opened Mutexes
  import opened Condvars
  import opened SyncSystem

  // -------------------------------------------------------------------------
  // One task changes: what that does to the counts
  // -------------------------------------------------------------------------

  function One(b: bool): nat {
    if b then 1 else 0
  }

  lemma CountAfter(tasks: map<TaskId, Task>, t: TaskId, x: Task, f: Task -> bool)
    requires t in tasks
    ensures |Those(tasks[t := x], f)| + One(f(tasks[t])) == |Those(tasks, f)| + One(f(x))
  {
    var others := Those(tasks, f) - {t};
    assert Those(tasks, f) == others + if f(tasks[t]) then {t} else {};
    assert Those(tasks[t := x], f) == others + if f(x) then {t} else {};
  }

  lemma CountsAfter(tasks: map<TaskId, Task>, t: TaskId, x: Task, m: MutexId, c: CondId)
    requires t in tasks
    ensures var after := tasks[t := x];
            && |Those(after, Holding(m))| + One(m in tasks[t].holds) == |Those(tasks, Holding(m))| + One(m in x.holds)
            && |Those(after, BlockedOn(m))| + One(BlockedOn(m)(tasks[t]))
               == |Those(tasks, BlockedOn(m))| + One(BlockedOn(m)(x))
            && |Those(after, PendingOn(c))| + One(PendingOn(c)(tasks[t]))
               == |Those(tasks, PendingOn(c))| + One(PendingOn(c)(x))
            && |Those(after, LeavingWith(c, true))| + One(LeavingWith(c, true)(tasks[t]))
               == |Those(tasks, LeavingWith(c, true))| + One(LeavingWith(c, true)(x))
            && |Those(after, LeavingWith(c, false))| + One(LeavingWith(c, false)(tasks[t]))
               == |Those(tasks, LeavingWith(c, false))| + One(LeavingWith(c, false)(x))
  {
    CountAfter(tasks, t, x, Holding(m));
    CountAfter(tasks, t, x, BlockedOn(m));
    CountAfter(tasks, t, x, PendingOn(c));
    CountAfter(tasks, t, x, LeavingWith(c, true));
    CountAfter(tasks, t, x, LeavingWith(c, false));
  }

  lemma Member(tasks: map<TaskId, Task>, t: TaskId, f: Task -> bool)
    requires t in tasks && f(tasks[t])
    ensures |Those(tasks, f)| >= 1
  {
    assert t in Those(tasks, f);
  }

  lemma HistoryAfter(h: seq<Event>, e: Event, c: CondId)
    ensures var after := h + [e];
            && StartedWaits(after, c) == StartedWaits(h, c) + One(e == Started(c))
            && IssuedUnits(after, c) == IssuedUnits(h, c) + (if e.Issued? && e.c == c then e.units else 0)
            && ReturnedWaits(after, c, true) == ReturnedWaits(h, c, true) + One(e.Returned? && e.c == c && e.timedOut)
            && ReturnedWaits(after, c, false)
               == ReturnedWaits(h, c, false) + One(e.Returned? && e.c == c && !e.timedOut)
  {
    assert (h + [e])[..|h|] == h;
  }

  // -------------------------------------------------------------------------
  // Preservation, one mutex or condition variable at a time
  // -------------------------------------------------------------------------

  /** The task after its step; no other task changes. */
  function Moved(s: State, step: Step): Task
    requires Enabled(s, step)
  {
    Apply(s, step).tasks[step.t]
  }

  lemma OnlyOneMoves(s: State, step: Step)
    requires Enabled(s, step)
    ensures Apply(s, step).tasks == s.tasks[step.t := Moved(s, step)]
  {
    assert s.tasks[step.t := s.tasks[step.t]] == s.tasks;
  }

  lemma NothingVanishes(s: State, step: Step)
    requires Enabled(s, step)
    ensures Apply(s, step).mutexes.Keys == s.mutexes.Keys && Apply(s, step).conds.Keys == s.conds.Keys
    ensures WellFormed(Apply(s, step))
  {
    OnlyOneMoves(s, step);
  }

  /** What one step can do to a mutex and to the moving task's part in it:
      `held`/`blocked` before, `holds`/`blocks` after. */
  predicate MutexEffect(x: Mutex, x': Mutex, held: bool, blocked: bool, holds: bool, blocks: bool) {
    || (x' == x && holds == held && blocks == blocked)
    || (x' == Entered(x) && !blocked && if x.locked then holds == held && blocks else holds && !blocks)
    || (x.count > 0 && x' == HandedOver(x) && holds && blocked && !blocks)
    || (x' == Released(x) && held && !holds && blocks == blocked)
  }

  lemma MutexEffectOf(s: State, step: Step, m: MutexId)
    requires Enabled(s, step) && m in s.mutexes
    ensures m in Apply(s, step).mutexes
    ensures var before, after := s.tasks[step.t], Moved(s, step);
            MutexEffect(s.mutexes[m], Apply(s, step).mutexes[m],
              Holding(m)(before), BlockedOn(m)(before), Holding(m)(after), BlockedOn(m)(after))
  {
  }

  lemma MutexKept(tasks: map<TaskId, Task>, t: TaskId, x: Task, mx: Mutex, mx': Mutex, m: MutexId)
    requires t in tasks && MutexLedger(mx, tasks, m)
    requires MutexEffect(mx, mx', Holding(m)(tasks[t]), BlockedOn(m)(tasks[t]), Holding(m)(x), BlockedOn(m)(x))
    ensures MutexLedger(mx', tasks[t := x], m)
  {
    CountsAfter(tasks, t, x, m, 0);
    if Holding(m)(tasks[t]) {
      Member(tasks, t, Holding(m));
    }
  }

  /** The part a task has in condition variable `c`. */
  datatype Part = None | Pending | Leaving(timedOut: bool)

  function PartIn(x: Task, c: CondId): Part {
    if PendingOn(c)(x) then Pending
    else if LeavingWith(c, true)(x) then Leaving(true)
    else if LeavingWith(c, false)(x) then Leaving(false)
    else None
  }

  /** The wait is over with result `timedOut`: it blocks for the mutex or returns. */
  predicate Left(part: Part, news: seq<Event>, c: CondId, timedOut: bool) {
    || (part == Leaving(timedOut) && news == [])
    || (part == None && |news| == 1 && news[0].Returned? && news[0].c == c && news[0].timedOut == timedOut)
  }

  /** What one step can do to a condition variable, to the moving task's part in
      it (`was`, `now`) and to the history (`news`). */
  predicate CondEffect(cv: Condvar, cv': Condvar, c: CondId, was: Part, now: Part, news: seq<Event>) {
    || (cv' == cv && now == was && (news == [] || (|news| == 1 && news[0].c != c)))
    || (cv' == Announced(cv) && was == None && now == Pending && news == [Started(c)])
    || (cv.count > 0 && cv' == UnitTaken(cv) && was == Pending && Left(now, news, c, false))
    || (cv.count == 0 && cv' == TimeoutSettled(cv) && was == Pending && Left(now, news, c, true))
    || (cv' == cv && was.Leaving? && now == None && Left(now, news, c, was.timedOut))
    || ((cv' == Signalled(cv) || cv' == BroadcastTo(cv)) && cv'.count >= cv.count
        && now == was && news == [Issued(c, cv'.count - cv.count)])
  }

  function News(s: State, step: Step): seq<Event>
    requires Enabled(s, step)
  {
    var h := Apply(s, step).history;
    if |h| >= |s.history| then h[|s.history|..] else []
  }

  lemma HistoryGrows(s: State, step: Step)
    requires Enabled(s, step)
    ensures Apply(s, step).history == s.history + News(s, step)
    ensures |News(s, step)| <= 1
  {
    var h := Apply(s, step).history;
    assert h == s.history || (|h| == |s.history| + 1 && h[..|s.history|] == s.history);
    assert h[|s.history|..] == News(s, step);
  }

  lemma CondEffectOf(s: State, step: Step, c: CondId)
    requires Enabled(s, step) && c in s.conds
    ensures c in Apply(s, step).conds
    ensures CondEffect(s.conds[c], Apply(s, step).conds[c], c,
              PartIn(s.tasks[step.t], c), PartIn(Moved(s, step), c), News(s, step))
  {
    HistoryGrows(s, step);
  }

  lemma CondKept(tasks: map<TaskId, Task>, t: TaskId, x: Task, h: seq<Event>, news: seq<Event>,
                 cv: Condvar, cv': Condvar, c: CondId)
    requires t in tasks && |news| <= 1 && CondLedger(cv, tasks, h, c)
    requires CondEffect(cv, cv', c, PartIn(tasks[t], c), PartIn(x, c), news)
    ensures CondLedger(cv', tasks[t := x], h + news, c)
  {
    CountsAfter(tasks, t, x, 0, c);
    if PartIn(tasks[t], c).Pending? {
      Member(tasks, t, PendingOn(c));
    }
    if news == [] {
      assert h + news == h;
    } else {
      assert news == [news[0]];
      HistoryAfter(h, news[0], c);
    }
  }

  lemma UnitsKept(s: State, step: Step)
    requires Enabled(s, step) && UnitsInv(s)
    ensures UnitsInv(Apply(s, step))
  {
    OnlyOneMoves(s, step);
    HistoryGrows(s, step);
    var news := News(s, step);
    assert forall e <- news :: e.Returned? ==> HonestUnits(e.timedOut, e.took);
    assert Moved(s, step).at.Relocking? ==> HonestUnits(Moved(s, step).at.timedOut, Moved(s, step).at.took);
  }

  /** Every step of every task keeps the invariant. */
  lemma StepKeepsInv(s: State, step: Step)
    requires Inv(s) && Enabled(s, step)
    ensures Inv(Apply(s, step))
  {
    var s' := Apply(s, step);
    NothingVanishes(s, step);
    OnlyOneMoves(s, step);
    HistoryGrows(s, step);
    UnitsKept(s, step);
    forall m <- s'.mutexes
      ensures MutexLedger(s'.mutexes[m], s'.tasks, m)
    {
      MutexEffectOf(s, step, m);
      MutexKept(s.tasks, step.t, Moved(s, step), s.mutexes[m], s'.mutexes[m], m);
    }
    forall c <- s'.conds
      ensures CondLedger(s'.conds[c], s'.tasks, s'.history, c)
    {
      CondEffectOf(s, step, c);
      CondKept(s.tasks, step.t, Moved(s, step), s.history, News(s, step), s.conds[c], s'.conds[c], c);
    }
  }
}
