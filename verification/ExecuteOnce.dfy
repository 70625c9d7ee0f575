/** `__libcpp_execute_once` of thread.cpp: any tasks, one flag. */
module ExecuteOnce {
  type TaskId = nat

  /** The flag: not started, in progress, done. */
  const NOT_STARTED := 0
  const IN_PROGRESS := 1
  const DONE := 2

  datatype Pc = Outside | Initialising | Spinning

  /** `completed` and `thrown` count the ends of init routines, `returned` the calls
      that returned, and `early` those of them that did so before one completed. */
  datatype State = State(flag: nat, tasks: map<TaskId, Pc>, completed: nat, thrown: nat, returned: nat, early: nat)

  datatype Step =
    | Calls(t: TaskId)          // up to the init routine, the first Yield, or the end
    | Completes(t: TaskId)      // the init routine returns
    | Throws(t: TaskId)         // it throws
    | Resumes(t: TaskId)        // after a Yield in the spin loop

  // -------------------------------------------------------------------------
  // The code between the points where a task can be left
  // -------------------------------------------------------------------------

  datatype Next = Init | Spin | Return

  /** The top of the outer loop. */
  function AtTop(flag: nat): (nat, Next) {
    if flag == DONE then (flag, Return) else if flag == NOT_STARTED then (IN_PROGRESS, Init) else (flag, Spin)
  }

  /** The guard of the inner loop, and from there. */
  function AfterYield(flag: nat): (nat, Next) {
    if flag == IN_PROGRESS then (flag, Spin) else AtTop(flag)
  }

  class OnceFlag {
    var flag: nat

    constructor ()
      ensures flag == NOT_STARTED
    {
      flag := NOT_STARTED;
    }

    method Top() returns (next: Next)
      modifies this
      ensures (flag, next) == AtTop(old(flag))
    {
      if flag == DONE {
        return Return;
      }
      if flag == NOT_STARTED {
        flag := IN_PROGRESS;
        return Init;
      }
      next := Spin;
    }

    method Resume() returns (next: Next)
      modifies this
      ensures (flag, next) == AfterYield(old(flag))
    {
      if flag == IN_PROGRESS {
        return Spin;
      }
      next := Top();
    }

    /** The init routine has returned, or thrown. */
    method Finish(thrown: bool)
      modifies this
      ensures flag == if thrown then NOT_STARTED else DONE
    {
      flag := if thrown then NOT_STARTED else DONE;
    }
  }

  // -------------------------------------------------------------------------
  // The system
  // -------------------------------------------------------------------------

  predicate Initial(s: State) {
    && s.flag == NOT_STARTED && s.completed == s.thrown == s.returned == s.early == 0
    && forall t <- s.tasks :: s.tasks[t] == Outside
  }

  predicate Enabled(s: State, step: Step) {
    step.t in s.tasks &&
    match step
    case Calls(t) => s.tasks[t] == Outside
    case Completes(t) => s.tasks[t] == Initialising
    case Throws(t) => s.tasks[t] == Initialising
    case Resumes(t) => s.tasks[t] == Spinning
  }

  function GoOn(s: State, t: TaskId, reached: (nat, Next)): State {
    var s' := s.(flag := reached.0);
    match reached.1
    case Init => s'.(tasks := s.tasks[t := Initialising])
    case Spin => s'.(tasks := s.tasks[t := Spinning])
    case Return => Returned(s'.(tasks := s.tasks[t := Outside]))
  }

  function Returned(s: State): State {
    s.(returned := s.returned + 1, early := s.early + if s.completed == 0 then 1 else 0)
  }

  function Apply(s: State, step: Step): State
    requires Enabled(s, step)
  {
    match step
    case Calls(t) => GoOn(s, t, AtTop(s.flag))
    case Resumes(t) => GoOn(s, t, AfterYield(s.flag))
    case Completes(t) =>
      Returned(s.(flag := DONE, tasks := s.tasks[t := Outside], completed := s.completed + 1))
    case Throws(t) => s.(flag := NOT_STARTED, tasks := s.tasks[t := Outside], thrown := s.thrown + 1)
  }

  ghost predicate Run(s: State, steps: seq<Step>, s': State)
    decreases |steps|
  {
    if steps == [] then s == s' else Enabled(s, steps[0]) && Run(Apply(s, steps[0]), steps[1..], s')
  }

  ghost predicate Reachable(s: State) {
    exists s0, steps :: Initial(s0) && Run(s0, steps, s)
  }

  function Initialisers(s: State): set<TaskId> {
    set t | t in s.tasks && s.tasks[t] == Initialising
  }

  ghost predicate Inv(s: State) {
    && s.flag <= DONE
    && |Initialisers(s)| == (if s.flag == IN_PROGRESS then 1 else 0)
    && s.completed == (if s.flag == DONE then 1 else 0)
    && s.early == 0
  }

  lemma One(x: set<TaskId>, t: TaskId)
    requires |x| == 1 && t in x
    ensures x == {t}
  {
    assert |x - {t}| == 0;
  }

  lemma StepKeepsInv(s: State, step: Step)
    requires Inv(s) && Enabled(s, step)
    ensures Inv(Apply(s, step))
  {
    var s', t := Apply(s, step), step.t;
    if s.tasks[t] == Initialising {
      assert t in Initialisers(s);
      One(Initialisers(s), t);
      assert Initialisers(s') <= Initialisers(s) && t !in Initialisers(s');
      assert Initialisers(s') == {};
    } else if s.flag == NOT_STARTED {
      assert Initialisers(s') == {t};
    } else {
      assert Initialisers(s') == Initialisers(s);
    }
  }

  lemma {:induction false} RunKeepsInv(s: State, steps: seq<Step>, s': State)
    requires Inv(s) && Run(s, steps, s')
    ensures Inv(s')
    decreases |steps|
  {
    if steps != [] {
      StepKeepsInv(s, steps[0]);
      RunKeepsInv(Apply(s, steps[0]), steps[1..], s');
    }
  }

  // -------------------------------------------------------------------------
  // The promise
  // -------------------------------------------------------------------------

  /** However many init routines throw: at most one task is inside one, the flag says
      so exactly, at most one completes, and no call returns before that. */
  lemma RunsOnce(s: State)
    requires Reachable(s)
    ensures forall t, u | t in s.tasks && u in s.tasks && s.tasks[t] == s.tasks[u] == Initialising :: t == u
    ensures s.flag == IN_PROGRESS <==> exists t :: t in s.tasks && s.tasks[t] == Initialising
    ensures s.completed <= 1 && (s.flag == DONE <==> s.completed == 1)
    ensures s.early == 0
  {
    var s0, steps :| Initial(s0) && Run(s0, steps, s);
    assert Initialisers(s0) == {};
    RunKeepsInv(s0, steps, s);
    var x := Initialisers(s);
    forall t, u | t in s.tasks && u in s.tasks && s.tasks[t] == s.tasks[u] == Initialising
      ensures t == u && s.flag == IN_PROGRESS
    {
      assert t in x && u in x;
      One(x, t);
    }
    if s.flag == IN_PROGRESS {
      assert x != {};
      var t :| t in x;
    }
  }

  /** A spinning task is not left behind: while it has to wait somebody initialises,
      and afterwards it returns or initialises itself. */
  lemma SpinnersGoOn(s: State, t: TaskId)
    requires Reachable(s) && t in s.tasks && s.tasks[t] == Spinning
    ensures if s.flag == IN_PROGRESS then exists u :: Enabled(s, Completes(u)) && u != t
            else Apply(s, Resumes(t)).tasks[t] == if s.completed == 1 then Outside else Initialising
  {
    RunsOnce(s);
    if s.flag == IN_PROGRESS {
      var u :| u in s.tasks && s.tasks[u] == Initialising;
      assert Enabled(s, Completes(u));
    } else {
      var s0, steps :| Initial(s0) && Run(s0, steps, s);
      assert Initialisers(s0) == {};
      RunKeepsInv(s0, steps, s);
    }
  }
}
