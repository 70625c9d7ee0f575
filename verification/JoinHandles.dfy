/** The handle that std::thread objects and tasks of thread.cpp share.

    A task and its std::thread object go their ways in any order: the task terminates
    and is destroyed by the scheduler some time later; the object is joined or
    detached, once.  Addresses of handles are not used again. */
module JoinHandles {
  type ThreadId = nat
  type Address = nat

  /** The fields of a JoinHandle; `task` tells whether the pointer is not null. */
  datatype Handle = Handle(task: bool, detached: bool, joined: bool)

  datatype Phase = Running | Terminated | Destroyed

  datatype Owner =
    | Joinable       // the std::thread object has the handle
    | Joining        // its join has called WaitForTermination
    | Joined
    | Detached

  datatype Thread = Thread(handle: Address, phase: Phase, owner: Owner)

  /** `handles` are those on the heap; `bad` records an access to any other. */
  datatype State = State(threads: map<ThreadId, Thread>, handles: map<Address, Handle>, freed: seq<Address>, bad: bool)

  datatype Step =
    | Creates(t: ThreadId, a: Address)
    | Terminates(t: ThreadId)
    | IsDestroyed(t: ThreadId)
    | Joins(t: ThreadId)
    | JoinReturns(t: ThreadId)
    | Detaches(t: ThreadId)

  // -------------------------------------------------------------------------
  // What happens to a handle, and whether it is deleted
  // -------------------------------------------------------------------------

  function OnDestroyed(h: Handle): (Handle, bool) {
    (h.(task := false), h.detached || h.joined)
  }

  function OnJoin(h: Handle): (Handle, bool) {
    if h.task then (h.(joined := true), false) else (h, true)
  }

  function OnDetach(h: Handle): (Handle, bool) {
    (h.(detached := true), !h.task)
  }

  class JoinHandle {
    var task: bool
    var detached: bool
    var joined: bool

    constructor ()
      ensures Value() == Handle(true, false, false)
    {
      task, detached, joined := true, false, false;
    }

    function Value(): Handle
      reads this
    {
      Handle(task, detached, joined)
    }

    /** `~CLibCXXTask`. */
    method TaskDestroyed() returns (delete: bool)
      modifies this
      ensures (Value(), delete) == OnDestroyed(old(Value()))
    {
      task := false;
      delete := detached || joined;
    }

    /** `__libcpp_thread_join` up to the wait; the handle is not used behind it. */
    method Join() returns (delete: bool)
      modifies this
      ensures (Value(), delete) == OnJoin(old(Value()))
    {
      if !task {
        return true;
      }
      joined := true;
      delete := false;
    }

    /** `__libcpp_thread_detach`. */
    method Detach() returns (delete: bool)
      modifies this
      ensures (Value(), delete) == OnDetach(old(Value()))
    {
      detached := true;
      delete := !task;
    }
  }

  // -------------------------------------------------------------------------
  // The system
  // -------------------------------------------------------------------------

  predicate Initial(s: State) {
    s == State(map[], map[], [], false)
  }

  predicate Enabled(s: State, step: Step) {
    match step
    case Creates(t, a) => t !in s.threads && forall u <- s.threads :: s.threads[u].handle != a
    case Terminates(t) => t in s.threads && s.threads[t].phase == Running
    case IsDestroyed(t) => t in s.threads && s.threads[t].phase == Terminated
    case Joins(t) => t in s.threads && s.threads[t].owner == Joinable
    case JoinReturns(t) => t in s.threads && s.threads[t].owner == Joining && s.threads[t].phase != Running
    case Detaches(t) => t in s.threads && s.threads[t].owner == Joinable
  }

  /** An access to the handle at `a`, which does `effect` to it. */
  function Access(s: State, a: Address, effect: Handle -> (Handle, bool)): State {
    if a !in s.handles then s.(bad := true)
    else
      var (h, delete) := effect(s.handles[a]);
      if delete then s.(handles := s.handles - {a}, freed := s.freed + [a]) else s.(handles := s.handles[a := h])
  }

  function Apply(s: State, step: Step): State
    requires Enabled(s, step)
  {
    match step
    case Creates(t, a) =>
      s.(threads := s.threads[t := Thread(a, Running, Joinable)], handles := s.handles[a := Handle(true, false, false)])
    case Terminates(t) => s.(threads := s.threads[t := s.threads[t].(phase := Terminated)])
    case IsDestroyed(t) =>
      Access(s.(threads := s.threads[t := s.threads[t].(phase := Destroyed)]), s.threads[t].handle, OnDestroyed)
    case Joins(t) =>
      var a := s.threads[t].handle;
      var waits := a in s.handles && s.handles[a].task;
      Access(s.(threads := s.threads[t := s.threads[t].(owner := if waits then Joining else Joined)]), a, OnJoin)
    case JoinReturns(t) => s.(threads := s.threads[t := s.threads[t].(owner := Joined)])
    case Detaches(t) =>
      Access(s.(threads := s.threads[t := s.threads[t].(owner := Detached)]), s.threads[t].handle, OnDetach)
  }

  ghost predicate Run(s: State, steps: seq<Step>, s': State)
    decreases |steps|
  {
    if steps == [] then s == s' else Enabled(s, steps[0]) && Run(Apply(s, steps[0]), steps[1..], s')
  }

  ghost predicate Reachable(s: State) {
    exists s0, steps :: Initial(s0) && Run(s0, steps, s)
  }

  // -------------------------------------------------------------------------
  // The invariant
  // -------------------------------------------------------------------------

  /** The task is destroyed, and the object joined or detached. */
  predicate Over(x: Thread) {
    x.phase == Destroyed && x.owner != Joinable
  }

  /** The handle of a thread that is not over. */
  function HandleOf(x: Thread): Handle {
    Handle(x.phase != Destroyed, x.owner == Detached, x.owner == Joining || x.owner == Joined)
  }

  function Times(s: seq<Address>, a: Address): nat {
    multiset(s)[a]
  }

  predicate ThreadOk(x: Thread, handles: map<Address, Handle>, freed: seq<Address>) {
    if Over(x) then x.handle !in handles && Times(freed, x.handle) == 1
    else x.handle in handles && handles[x.handle] == HandleOf(x) && Times(freed, x.handle) == 0
  }

  ghost predicate Inv(s: State) {
    && !s.bad
    && (forall t, u | t in s.threads && u in s.threads && s.threads[t].handle == s.threads[u].handle :: t == u)
    && (forall t <- s.threads :: ThreadOk(s.threads[t], s.handles, s.freed))
    && (forall a <- s.handles :: exists t :: t in s.threads && s.threads[t].handle == a)
    && (forall a <- s.freed :: exists t :: t in s.threads && s.threads[t].handle == a)
  }

  /** A thread changes and accesses its handle in the way that fits the change. */
  lemma AccessKeepsInv(s: State, t: ThreadId, x: Thread, effect: Handle -> (Handle, bool))
    requires Inv(s) && t in s.threads && !Over(s.threads[t]) && x.handle == s.threads[t].handle
    requires var (h, delete) := effect(HandleOf(s.threads[t])); delete == Over(x) && (!delete ==> h == HandleOf(x))
    ensures Inv(Access(s.(threads := s.threads[t := x]), x.handle, effect))
  {
    assert ThreadOk(s.threads[t], s.handles, s.freed);
    var s' := Access(s.(threads := s.threads[t := x]), x.handle, effect);
    assert ThreadOk(x, s'.handles, s'.freed);
    forall u <- s'.threads
      ensures ThreadOk(s'.threads[u], s'.handles, s'.freed)
    {
      if u != t {
        assert ThreadOk(s.threads[u], s.handles, s.freed) && s.threads[u].handle != x.handle;
      }
    }
    StillOwned(s, s', t, x);
  }

  lemma StillOwned(s: State, s': State, t: ThreadId, x: Thread)
    requires Inv(s) && t in s.threads && x.handle == s.threads[t].handle && s'.threads == s.threads[t := x]
    requires s'.handles.Keys <= s.handles.Keys && forall a <- s'.freed :: a in s.freed || a == x.handle
    ensures forall a <- s'.handles :: exists u :: u in s'.threads && s'.threads[u].handle == a
    ensures forall a <- s'.freed :: exists u :: u in s'.threads && s'.threads[u].handle == a
  {
    forall a | a in s'.handles || a in s'.freed
      ensures exists u :: u in s'.threads && s'.threads[u].handle == a
    {
      if a == x.handle {
        assert t in s'.threads && s'.threads[t].handle == a;
      } else {
        var u :| u in s.threads && s.threads[u].handle == a;
        assert u in s'.threads && s'.threads[u].handle == a;
      }
    }
  }

  lemma OwnerChangeKeepsInv(s: State, t: ThreadId, x: Thread)
    requires Inv(s) && t in s.threads && x.handle == s.threads[t].handle
    requires Over(x) == Over(s.threads[t]) && HandleOf(x) == HandleOf(s.threads[t])
    ensures Inv(s.(threads := s.threads[t := x]))
  {
    var s' := s.(threads := s.threads[t := x]);
    assert forall u <- s'.threads :: ThreadOk(s.threads[u], s.handles, s.freed);
    StillOwned(s, s', t, x);
  }

  lemma CreationKeepsInv(s: State, t: ThreadId, a: Address)
    requires Inv(s) && Enabled(s, Creates(t, a))
    ensures Inv(Apply(s, Creates(t, a)))
  {
    var s' := Apply(s, Creates(t, a));
    assert a !in s.freed && a !in s.handles;
    forall u <- s'.threads
      ensures ThreadOk(s'.threads[u], s'.handles, s'.freed)
    {
      if u != t { assert ThreadOk(s.threads[u], s.handles, s.freed); }
    }
    forall b | b in s'.handles || b in s'.freed
      ensures exists u :: u in s'.threads && s'.threads[u].handle == b
    {
      if b == a {
        assert t in s'.threads && s'.threads[t].handle == b;
      } else {
        var u :| u in s.threads && s.threads[u].handle == b;
        assert u in s'.threads && s'.threads[u].handle == b;
      }
    }
  }

  lemma StepKeepsInv(s: State, step: Step)
    requires Inv(s) && Enabled(s, step)
    ensures Inv(Apply(s, step))
  {
    match step {
      case Creates(t, a) => CreationKeepsInv(s, t, a);
      case Terminates(t) => OwnerChangeKeepsInv(s, t, s.threads[t].(phase := Terminated));
      case JoinReturns(t) => OwnerChangeKeepsInv(s, t, s.threads[t].(owner := Joined));
      case IsDestroyed(t) => AccessKeepsInv(s, t, s.threads[t].(phase := Destroyed), OnDestroyed);
      case Detaches(t) => AccessKeepsInv(s, t, s.threads[t].(owner := Detached), OnDetach);
      case Joins(t) =>
        assert ThreadOk(s.threads[t], s.handles, s.freed);
        AccessKeepsInv(s, t, Apply(s, step).threads[t], OnJoin);
    }
  }

  lemma {:induction false} RunKeepsInv(s: State, steps: seq<Step>, s': State)
    requires Inv(s) && Run(s, steps, s')
    ensures Inv(s')
    decreases |steps|
  {
    if steps != [] {
      StepKeepsInv(s, steps[0]);
      RunKeepsInv(Apply(s, steps[0]), steps[1..], s');
    }
  }

  // -------------------------------------------------------------------------
  // The promise
  // -------------------------------------------------------------------------

  /** In every order of termination, destruction, join and detach, for any number of
      threads: no handle is used that is not on the heap; a handle is deleted once
      its task is destroyed and its thread is joined or detached, not earlier, and
      not twice; nothing else stays on the heap. */
  lemma HandlesAreFreedOnce(s: State)
    requires Reachable(s)
    ensures !s.bad
    ensures forall t <- s.threads :: var a := s.threads[t].handle;
              && Times(s.freed, a) == (if Over(s.threads[t]) then 1 else 0)
              && (a in s.handles <==> !Over(s.threads[t]))
    ensures forall a <- s.handles :: exists t :: t in s.threads && s.threads[t].handle == a && !Over(s.threads[t])
  {
    var s0, steps :| Initial(s0) && Run(s0, steps, s);
    RunKeepsInv(s0, steps, s);
    forall t <- s.threads
      ensures ThreadOk(s.threads[t], s.handles, s.freed)
    {
    }
    forall a <- s.handles
      ensures exists t :: t in s.threads && s.threads[t].handle == a && !Over(s.threads[t])
    {
      var t :| t in s.threads && s.threads[t].handle == a;
      assert ThreadOk(s.threads[t], s.handles, s.freed);
    }
  }

  // -------------------------------------------------------------------------
  // A join waits
  // -------------------------------------------------------------------------

  /** No thread that still runs was joined. */
  predicate JoinsWaited(s: State) {
    forall t <- s.threads :: s.threads[t].owner == Joined ==> s.threads[t].phase != Running
  }

  lemma StepKeepsWaiting(s: State, step: Step)
    requires Inv(s) && JoinsWaited(s) && Enabled(s, step)
    ensures JoinsWaited(Apply(s, step))
  {
    if step.Joins? {
      assert ThreadOk(s.threads[step.t], s.handles, s.freed);
    }
  }

  lemma {:induction false} RunKeepsWaiting(s: State, steps: seq<Step>, s': State)
    requires Inv(s) && JoinsWaited(s) && Run(s, steps, s')
    ensures JoinsWaited(s')
    decreases |steps|
  {
    if steps != [] {
      StepKeepsInv(s, steps[0]);
      StepKeepsWaiting(s, steps[0]);
      RunKeepsWaiting(Apply(s, steps[0]), steps[1..], s');
    }
  }

  /** In every reachable state a thread that was joined has terminated; a join that is
      under way returns as soon as that is so, and one whose task is gone at once. */
  lemma JoinedHasTerminated(s: State, t: ThreadId)
    requires Reachable(s) && t in s.threads
    ensures s.threads[t].owner == Joined ==> s.threads[t].phase != Running
    ensures s.threads[t].owner == Joining ==> (Enabled(s, JoinReturns(t)) <==> s.threads[t].phase != Running)
    ensures Enabled(s, Joins(t)) ==>
              Apply(s, Joins(t)).threads[t].owner == if s.threads[t].phase == Destroyed then Joined else Joining
  {
    var s0, steps :| Initial(s0) && Run(s0, steps, s);
    RunKeepsInv(s0, steps, s);
    RunKeepsWaiting(s0, steps, s);
    assert ThreadOk(s.threads[t], s.handles, s.freed);
  }
}
