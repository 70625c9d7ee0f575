/** The end of a task in thread.cpp: the passes over its thread-local slots, and the
    list of destructors of thread_local variables.

    Destructors are code of the application.  Each call of one takes the next script:
    the actions on thread-local storage that it (or another task meanwhile) does. */
module ThreadExit {
  const MAX_TLS_KEYS := 32
  const ITERATIONS := 4

  /** A CXAThreadAtexitNode; `serial` is the number of its registration. */
  class Node {
    const serial: nat
    const next: Node?

    constructor (serial: nat, next: Node?)
      ensures this.serial == serial && this.next == next
    {
      this.serial, this.next := serial, next;
    }
  }

  /** A slot: null, a word of the application, or the head of the list. */
  datatype Value = Null | Data(word: nat) | List(head: Node)

  function ValueOf(word: nat): (v: Value)
    ensures !v.List?
  {
    if word == 0 then Null else Data(word)
  }

  datatype Destructor = NoDestructor | OfApplication | RunsList

  datatype Action =
    | SetSlot(key: nat, value: nat)         // 0 is null
    | CreateKey(hasDestructor: bool)
    | AtExit(memory: bool)                  // __cxa_thread_atexit; whether memory is left

  // -------------------------------------------------------------------------
  // Lists
  // -------------------------------------------------------------------------

  /** The head of a list, or null. */
  function Head(nodes: seq<Node>): Node? {
    if nodes == [] then null else nodes[0]
  }

  predicate Linked(nodes: seq<Node>) {
    nodes != [] ==> nodes[0].next == Head(nodes[1..]) && Linked(nodes[1..])
  }

  function Serials(nodes: seq<Node>): (r: seq<nat>)
    ensures |r| == |nodes| && (nodes != [] ==> r[0] == nodes[0].serial)
  {
    if nodes == [] then [] else [nodes[0].serial] + Serials(nodes[1..])
  }

  predicate Decreasing(s: seq<nat>) {
    |s| > 1 ==> s[0] > s[1] && Decreasing(s[1..])
  }

  lemma DecreasingCons(x: nat, s: seq<nat>)
    requires Decreasing(s) && (s != [] ==> s[0] < x)
    ensures Decreasing([x] + s)
  {
    assert ([x] + s)[1..] == s;
  }

  lemma {:induction false} DecreasingAll(s: seq<nat>, i: nat, j: nat)
    requires Decreasing(s) && i < j < |s|
    ensures s[i] > s[j]
  {
    if i > 0 {
      DecreasingAll(s[1..], i - 1, j - 1);
    } else if j > 1 {
      DecreasingAll(s[1..], 0, j - 1);
    }
  }

  lemma Prepended(node: Node, nodes: seq<Node>)
    ensures Serials([node] + nodes) == [node.serial] + Serials(nodes)
    ensures Linked([node] + nodes) <==> node.next == Head(nodes) && Linked(nodes)
  {
    assert ([node] + nodes)[1..] == nodes;
  }

  // -------------------------------------------------------------------------
  // The invariant
  // -------------------------------------------------------------------------

  function First(nodes: seq<Node>): Value {
    if nodes == [] then Null else List(nodes[0])
  }

  /** Slots and destructors; the slot of the list holds `first`. */
  ghost predicate KeysInv(kv: seq<Value>, ds: seq<Destructor>, nextKey: nat, listKey: nat, listReady: bool,
                          first: Value) {
    && |kv| == |ds| == MAX_TLS_KEYS && nextKey <= MAX_TLS_KEYS
    && (listReady ==> listKey < nextKey)
    && (forall k :: nextKey <= k < MAX_TLS_KEYS ==> kv[k] == Null && ds[k] == NoDestructor)
    && (forall k :: 0 <= k < MAX_TLS_KEYS ==> (ds[k] == RunsList <==> listReady && k == listKey))
    && (forall k :: 0 <= k < MAX_TLS_KEYS ==> if listReady && k == listKey then kv[k] == first else !kv[k].List?)
    && (!listReady ==> first == Null)
  }

  /** The numbers below `n` in some order. */
  predicate Permutation(s: seq<nat>, n: nat)
    decreases n
  {
    if n == 0 then s == []
    else exists k :: 0 <= k < |s| && s[k] == n - 1 && Permutation(Without(s, k), n - 1)
  }

  function Without(s: seq<nat>, k: nat): (r: seq<nat>)
    requires k < |s|
    ensures |r| == |s| - 1
  {
    s[..k] + s[k + 1..]
  }

  lemma CountWithout(s: seq<nat>, k: nat, x: nat)
    requires k < |s|
    ensures multiset(s)[x] == multiset(Without(s, k))[x] + if s[k] == x then 1 else 0
  {
    assert s == s[..k] + [s[k]] + s[k + 1..];
    assert multiset(s) == multiset(Without(s, k)) + multiset{s[k]};
  }

  lemma Last(s: seq<nat>, n: nat) returns (k: nat, r: seq<nat>)
    requires Permutation(s, n) && n > 0
    ensures k < |s| && s[k] == n - 1 && r == Without(s, k) && Permutation(r, n - 1)
  {
    k :| k < |s| && s[k] == n - 1 && Permutation(Without(s, k), n - 1);
    r := Without(s, k);
  }

  lemma {:induction false} PermutationCounts(s: seq<nat>, n: nat, x: nat)
    requires Permutation(s, n)
    ensures |s| == n && multiset(s)[x] == if x < n then 1 else 0
    decreases n
  {
    if n > 0 {
      var k, r := Last(s, n);
      CountWithout(s, k, x);
      PermutationCounts(r, n - 1, x);
    }
  }

  lemma PermutationGrows(s: seq<nat>, t: seq<nat>, n: nat)
    requires Permutation(s + t, n)
    ensures Permutation(s + ([n] + t), n + 1)
  {
    var r, k := s + ([n] + t), |s|;
    assert r[k] == n && Without(r, k) == s + t;
  }

  /** The nodes run, those to be run in the list being run, and those in the slot. */
  function AllOf(ran: seq<nat>, current: seq<Node>, chain: seq<Node>): seq<nat> {
    ran + Serials(current) + Serials(chain)
  }

  /** Every node is run, in the list being run, or in the slot. */
  ghost predicate NodesInv(chain: seq<Node>, current: seq<Node>, ran: seq<nat>, registered: nat, freed: set<Node>) {
    && Linked(chain) && Linked(current)
    && Decreasing(Serials(chain)) && (chain != [] ==> chain[0].serial < registered)
    && Permutation(AllOf(ran, current, chain), registered)
    && (forall node <- freed :: node.serial in ran) && |freed| == |ran|
  }

  lemma RegisterInv(chain: seq<Node>, current: seq<Node>, ran: seq<nat>, registered: nat, freed: set<Node>, node: Node)
    requires NodesInv(chain, current, ran, registered, freed)
    requires node.serial == registered && node.next == Head(chain)
    ensures NodesInv([node] + chain, current, ran, registered + 1, freed)
  {
    var s := Serials(chain);
    Prepended(node, chain);
    DecreasingCons(node.serial, s);
    PermutationGrows(ran + Serials(current), s, registered);
  }

  /** A node that is still to be run has not been run or deleted before. */
  lemma NotRunBefore(chain: seq<Node>, current: seq<Node>, ran: seq<nat>, registered: nat, freed: set<Node>)
    requires NodesInv(chain, current, ran, registered, freed) && current != []
    ensures current[0].serial !in ran && current[0] !in freed
  {
    var x, t := current[0].serial, Serials(current) + Serials(chain);
    Associated(ran, Serials(current), Serials(chain));
    PermutationCounts(ran + t, registered, x);
    assert t[0] == x;
    TwiceCounted(ran, t, x);
  }

  lemma RunInv(chain: seq<Node>, current: seq<Node>, ran: seq<nat>, registered: nat, freed: set<Node>)
    requires NodesInv(chain, current, ran, registered, freed) && current != []
    ensures NodesInv(chain, current[1..], ran + [current[0].serial], registered, freed + {current[0]})
    ensures ran + Serials(current) == ran + [current[0].serial] + Serials(current[1..])
  {
    NotRunBefore(chain, current, ran, registered, freed);
    assert Serials(current) == [current[0].serial] + Serials(current[1..]);
    Regrouped(ran, current[0].serial, Serials(current[1..]), Serials(chain));
  }

  lemma Associated(s: seq<nat>, t: seq<nat>, u: seq<nat>)
    ensures s + t + u == s + (t + u)
  {
  }

  lemma Regrouped(s: seq<nat>, x: nat, t: seq<nat>, u: seq<nat>)
    ensures s + [x] + t == s + ([x] + t) && s + [x] + t + u == s + ([x] + t) + u
  {
  }

  lemma TwiceCounted(s: seq<nat>, t: seq<nat>, x: nat)
    requires x in t && multiset(s + t)[x] <= 1
    ensures x !in s
  {
    assert multiset(s + t) == multiset(s) + multiset(t);
    assert multiset(t)[x] >= 1 && (x in s ==> multiset(s)[x] >= 1);
  }

  lemma ListTaken(chain: seq<Node>, ran: seq<nat>, registered: nat, freed: set<Node>)
    requires NodesInv(chain, [], ran, registered, freed)
    ensures NodesInv([], chain, ran, registered, freed)
  {
    assert AllOf(ran, chain, []) == AllOf(ran, [], chain);
  }

  lemma ListSlotInv(kv: seq<Value>, ds: seq<Destructor>, nextKey: nat, listKey: nat, first: Value, now: Value)
    requires KeysInv(kv, ds, nextKey, listKey, true, first)
    ensures KeysInv(kv[listKey := now], ds, nextKey, listKey, true, now)
  {
  }

  // -------------------------------------------------------------------------
  // The thread-local storage of a task
  // -------------------------------------------------------------------------

  class Storage {
    const kv: array<Value>
    const destructors: array<Destructor>
    var nextKey: nat
    var listKey: nat
    var listReady: bool            // the key for the list was created
    var scripts: seq<seq<Action>>

    // What happened
    var registered: nat            // nodes registered so far
    var ran: seq<nat>              // serials of the nodes run
    var calls: seq<(nat, nat)>     // keys and words of the other destructor calls

    ghost var chain: seq<Node>     // the list in the slot
    ghost var current: seq<Node>   // the part not yet run of the list being run
    ghost var freed: set<Node>

    ghost predicate KeysOk()
      reads `nextKey, `listKey, `listReady, `chain, kv, destructors
    {
      KeysInv(kv[..], destructors[..], nextKey, listKey, listReady, First(chain))
    }

    ghost predicate NodesOk()
      reads `chain, `current, `ran, `registered, `freed
    {
      NodesInv(chain, current, ran, registered, freed)
    }

    ghost predicate Valid()
      reads this, kv, destructors
    {
      KeysOk() && NodesOk()
    }

    constructor (scripts: seq<seq<Action>>)
      ensures Valid() && fresh(kv) && fresh(destructors)
      ensures nextKey == 0 && this.scripts == scripts && registered == 0 && ran == [] && freed == {} && current == []
    {
      kv := new Value[MAX_TLS_KEYS](_ => Null);
      destructors := new Destructor[MAX_TLS_KEYS](_ => NoDestructor);
      nextKey, listKey, listReady, this.scripts := 0, 0, false, scripts;
      registered, ran, calls, chain, current, freed := 0, [], [], [], [], {};
    }

    /** `__libcpp_tls_create`; the code does not check that a key is left. */
    method CreateKey(destructor: Destructor)
      requires KeysOk() && nextKey < MAX_TLS_KEYS && destructor != RunsList
      modifies `nextKey, destructors
      ensures KeysOk() && nextKey == old(nextKey) + 1
      ensures destructors[..] == old(destructors[..])[old(nextKey) := destructor]
    {
      ghost var ds := destructors[..][nextKey := destructor];
      destructors[nextKey] := destructor;
      nextKey := nextKey + 1;
      assert destructors[..] == ds;
    }

    /** `cxa_thread_atexit_init`. */
    method CreateListKey()
      requires KeysOk() && nextKey < MAX_TLS_KEYS && !listReady
      modifies `nextKey, `listKey, `listReady, destructors
      ensures KeysOk() && listReady && nextKey == old(nextKey) + 1
    {
      ghost var ds := destructors[..][nextKey := RunsList];
      destructors[nextKey] := RunsList;
      listKey, listReady := nextKey, true;
      nextKey := nextKey + 1;
      assert destructors[..] == ds;
    }

    /** `__libcpp_tls_set` by the application, which has no access to the list. */
    method SetSlot(key: nat, value: Value)
      requires KeysOk() && key < nextKey && !value.List? && !(listReady && key == listKey)
      modifies kv
      ensures KeysOk() && kv[..] == old(kv[..])[key := value]
    {
      ghost var m := kv[..][key := value];
      kv[key] := value;
      assert kv[..] == m;
    }

    /** `__cxa_thread_atexit`, behind the creation of the key. */
    method Register()
      requires Valid() && listReady
      modifies `registered, `chain, kv
      ensures Valid() && registered == old(registered) + 1
      ensures |chain| == |old(chain)| + 1 && chain[1..] == old(chain) && chain[0].serial == old(registered)
    {
      var node := new Node(registered, if kv[listKey].List? then kv[listKey].head else null);
      RegisterInv(chain, current, ran, registered, freed, node);
      registered := registered + 1;
      PutHead(node);
    }

    /** The node becomes the head of the list in the slot. */
    method PutHead(node: Node)
      requires KeysOk() && listReady
      modifies `chain, kv
      ensures KeysOk() && chain == [node] + old(chain)
    {
      ghost var m := kv[..][listKey := List(node)];
      ListSlotInv(kv[..], destructors[..], nextKey, listKey, First(chain), List(node));
      kv[listKey] := List(node);
      assert kv[..] == m;
      chain := [node] + chain;
    }

    twostate predicate StorageUnchanged()
      reads this, kv, destructors
    {
      && kv[..] == old(kv[..]) && destructors[..] == old(destructors[..])
      && chain == old(chain) && scripts == old(scripts)
      && nextKey == old(nextKey) && listKey == old(listKey)
      && listReady == old(listReady) && registered == old(registered)
    }

    /** What the next call of a destructor does to the storage. */
    method Script()
      requires Valid()
      modifies this, kv, destructors
      ensures Valid() && nextKey >= old(nextKey) && registered >= old(registered)
      ensures ran == old(ran) && current == old(current) && freed == old(freed) && calls == old(calls)
      ensures old(scripts) == [] ==> StorageUnchanged()
    {
      if scripts == [] {
        return;
      }
      var script := scripts[0];
      scripts := scripts[1..];
      for i := 0 to |script|
        invariant Valid() && nextKey >= old(nextKey) && registered >= old(registered)
        invariant ran == old(ran) && current == old(current) && freed == old(freed) && calls == old(calls)
      {
        Act(script[i]);
      }
    }

    /** One action; a key beyond the last one is not created. */
    method Act(action: Action)
      requires Valid()
      modifies `nextKey, `listKey, `listReady, `registered, `chain, kv, destructors
      ensures Valid() && nextKey >= old(nextKey) && registered >= old(registered)
      ensures match action
              case SetSlot(key, value) =>
                kv[..] == if key < old(nextKey) && !(old(listReady) && key == old(listKey))
                          then old(kv[..])[key := ValueOf(value)] else old(kv[..])
              case CreateKey(_) => nextKey == if old(nextKey) < MAX_TLS_KEYS then old(nextKey) + 1 else old(nextKey)
              case AtExit(memory) =>
                registered == if memory && (old(listReady) || old(nextKey) < MAX_TLS_KEYS) then old(registered) + 1
                              else old(registered)
    {
      match action {
        case SetSlot(key, value) =>
          if key < nextKey && !(listReady && key == listKey) {
            SetSlot(key, ValueOf(value));
          }
        case CreateKey(hasDestructor) =>
          if nextKey < MAX_TLS_KEYS {
            CreateKey(if hasDestructor then OfApplication else NoDestructor);
          }
        case AtExit(memory) =>
          if listReady || nextKey < MAX_TLS_KEYS {
            if !listReady {
              CreateListKey();
            }
            if memory {
              Register();
            }
          }
      }
    }

    // ---------------------------------------------------------------------
    // Task exit
    // ---------------------------------------------------------------------

    /** `cxa_thread_atexit_dtor`: runs the nodes of a list from its head, that is, in
        reverse order of registration, and deletes each behind its call.  What is
        registered meanwhile goes into another list. */
    method RunList(head: Node)
      requires Valid() && current != [] && current[0] == head
      modifies this, kv, destructors
      ensures Valid() && current == [] && ran == old(ran) + Serials(old(current))
      ensures nextKey >= old(nextKey) && registered >= old(registered) && calls == old(calls)
      ensures old(scripts) == [] ==> StorageUnchanged()
    {
      hide KeysInv;
      var node: Node? := head;
      ghost var was := ran;
      while node != null
        invariant Valid() && node == Head(current) && was + Serials(old(current)) == ran + Serials(current)
        invariant nextKey >= old(nextKey) && registered >= old(registered) && calls == old(calls)
        invariant old(scripts) == [] ==> StorageUnchanged()
        decreases |current|
      {
        Script();
        var next := node.next;
        Delete(node);
        node := next;
      }
      assert ran + Serials([]) == ran;
    }

    /** A node whose destructor was called is deleted; it was not before. */
    method Delete(node: Node)
      requires NodesOk() && current != [] && current[0] == node
      modifies `ran, `current, `freed
      ensures NodesOk() && node !in old(freed) && current == old(current[1..])
      ensures old(ran) + Serials(old(current)) == ran + Serials(current)
    {
      NotRunBefore(chain, current, ran, registered, freed);
      RunInv(chain, current, ran, registered, freed);
      ran := ran + [node.serial];
      current, freed := current[1..], freed + {node};
    }

    /** Call the destructor of an armed slot, which is null by then. */
    method Destroy(k: nat)
      requires Valid() && current == [] && k < nextKey && Armed(kv[..], destructors[..], k)
      modifies this, kv, destructors
      ensures Valid() && current == [] && nextKey >= old(nextKey) && registered >= old(registered)
      ensures if old(kv[k]).List? then ran == old(ran) + Serials(old(chain)) && calls == old(calls)
              else ran == old(ran) && calls == old(calls) + [(k, old(kv[k]).word)]
      ensures old(kv[k]).List? ==> old(chain) != [] && Decreasing(Serials(old(chain)))
      ensures old(scripts) == [] ==>
                && SameKeys() && kv[..] == old(kv[..])[k := Null]
                && chain == if old(kv[k]).List? then [] else old(chain)
    {
      var value := kv[k];
      Disarm(k);
      match value {
        case Data(word) =>
          calls := calls + [(k, word)];
          Script();
        case List(head) =>
          RunList(head);
      }
    }

    twostate predicate SameKeys()
      reads this, destructors
    {
      && destructors[..] == old(destructors[..]) && scripts == old(scripts) && nextKey == old(nextKey)
      && listKey == old(listKey) && listReady == old(listReady) && registered == old(registered)
    }

    /** The slot becomes null; a list in it is now to be run. */
    method Disarm(k: nat)
      requires Valid() && current == [] && k < nextKey && kv[k] != Null
      modifies `chain, `current, kv
      ensures Valid() && kv[..] == old(kv[..])[k := Null]
      ensures old(kv[k]).List? ==> chain == []
      ensures if old(kv[k]).List? then current == old(chain) && current != [] && current[0] == old(kv[k]).head
              else current == [] && chain == old(chain)
    {
      ghost var m := kv[..][k := Null];
      if listReady && k == listKey {
        ListSlotInv(kv[..], destructors[..], nextKey, listKey, First(chain), Null);
        ListTaken(chain, ran, registered, freed);
        current, chain := chain, [];
      }
      kv[k] := Null;
      assert kv[..] == m;
    }

    /** One pass over the slots.  If it calls nothing, then no slot is armed.  If the
        destructors leave the storage alone, then it calls exactly those of the armed
        slots, in the order of their keys, runs the whole list, and arms nothing. */
    method Pass() returns (called: bool)
      requires Valid() && current == []
      modifies this, kv, destructors
      ensures Valid() && current == [] && registered >= old(registered)
      ensures called <==> |ran| + |calls| > |old(ran)| + |old(calls)|
      ensures !called ==> ran == old(ran) && calls == old(calls) && NothingArmed()
      ensures old(scripts) == [] ==> scripts == [] && AllAtOnce(old(Now()), Now())
    {
      hide NodesInv, QuietUpTo, Visited;
      called := false;
      ghost var before := Now();
      ghost var s := before;
      var k := 0;
      QuietStarts(before);
      while k < nextKey
        invariant Valid() && current == [] && registered >= old(registered) && 0 <= k <= nextKey
        invariant if called then |ran| + |calls| > |old(ran)| + |old(calls)| else ran == old(ran) && calls == old(calls)
        invariant old(scripts) == [] ==> scripts == []
        invariant s == Now() && (!called || old(scripts) == [] ==> QuietUpTo(before, s, k))
        decreases MAX_TLS_KEYS - k
      {
        ghost var was := s;
        var one := Visit(k);
        s, called := Now(), called || one;
        if !called || old(scripts) == [] {
          QuietNext(before, was, s, k);
        }
        k := k + 1;
      }
      if !called || old(scripts) == [] {
        QuietAtEnd(before, s, k);
      }
    }

    /** One slot of a pass. */
    method Visit(k: nat) returns (called: bool)
      requires Valid() && current == [] && k < nextKey
      modifies this, kv, destructors
      ensures Valid() && current == [] && registered >= old(registered) && nextKey >= old(nextKey)
      ensures called <==> Armed(old(kv[..]), old(destructors[..]), k)
      ensures if called then |ran| + |calls| > |old(ran)| + |old(calls)| else ran == old(ran) && calls == old(calls)
      ensures old(scripts) == [] ==> scripts == []
      ensures !called || old(scripts) == [] ==> Visited(old(Now()), Now(), k)
    {
      called := kv[k] != Null && destructors[k] != NoDestructor;
      if called {
        Destroy(k);
      }
    }

    ghost function Now(): Snapshot
      reads this, kv, destructors
    {
      Snapshot(kv[..], destructors[..], nextKey, listKey, listReady, chain, ran, calls)
    }

    /** How many destructors were called so far. */
    ghost function Total(): nat
      reads this, kv, destructors
    {
      Now().Total()
    }

    /** The end of `Run`.  `passes` says which passes called destructors, `totals` how
        many calls there were in front of and behind each of them.  A slot is still
        armed at the end only if all four passes made calls; if none is, then every
        node ever registered has been run exactly once, and deleted.  If the
        destructors leave the storage alone, then one pass calls them all. */
    method RunDestructors() returns (passes: seq<bool>, ghost totals: seq<nat>)
      requires Valid() && current == []
      modifies this, kv, destructors
      ensures Valid() && current == []
      ensures Continued(passes) && (|passes| == ITERATIONS || !passes[|passes| - 1])
      ensures Counted(passes, totals) && totals[0] == old(Total()) && totals[|passes|] == Total()
      ensures AllCalled(passes) || NothingArmed()
      ensures !AllCalled(passes) ==> chain == [] && Permutation(ran, registered) && |freed| == registered
      ensures old(scripts) == [] ==> |passes| <= 2 && AllAtOnce(old(Now()), Now())
    {
      hide KeysInv, NodesInv, AllAtOnce, SoFar, Permutation;
      passes, totals := [], [Total()];
      ghost var first := Now();
      var called := true;
      SoFarStarts(first.Total());
      while |passes| < ITERATIONS && called
        invariant Valid() && current == [] && |passes| <= ITERATIONS
        invariant SoFar(passes, totals, called, first.Total(), Total())
        invariant !called ==> NothingArmed()
        invariant old(scripts) == [] ==> Quiet(first, passes) && (called ==> |passes| <= 1)
        decreases ITERATIONS - |passes|
      {
        ghost var before := Total();
        called := NextPass(first, passes);
        OneMorePass(passes, totals, first.Total(), before, called, Total());
        passes, totals := passes + [called], totals + [Total()];
      }
      SoFarEnds(passes, totals, called, first.Total(), Total());
      if !called {
        AllRun();
      }
    }

    /** The destructors leave the storage alone, and what the first of the passes has
        called is all there is to call. */
    ghost predicate Quiet(first: Snapshot, passes: seq<bool>)
      reads this, kv, destructors
    {
      scripts == [] && if passes == [] then Now() == first else AllAtOnce(first, Now()) && |passes| <= 2
    }

    /** One pass, behind some others. */
    method NextPass(ghost first: Snapshot, passes: seq<bool>) returns (called: bool)
      requires Valid() && current == [] && |passes| < ITERATIONS
      modifies this, kv, destructors
      ensures Valid() && current == [] && old(Total()) <= Total()
      ensures called <==> old(Total()) < Total()
      ensures !called ==> NothingArmed()
      ensures old(Quiet(first, passes)) && |passes| <= 1 ==>
                Quiet(first, passes + [called]) && (called ==> passes == [])
    {
      ghost var s, quiet := Now(), Quiet(first, passes);
      called := Pass();
      if quiet && passes != [] {
        NothingLeft(first, s, Now());
      }
    }

    ghost predicate NothingArmed()
      reads `nextKey, kv, destructors
    {
      && nextKey <= kv.Length == destructors.Length
      && forall k :: 0 <= k < nextKey ==> !Armed(kv[..], destructors[..], k)
    }

    /** With no slot armed, there is no list left. */
    lemma AllRun()
      requires Valid() && current == [] && NothingArmed()
      ensures chain == [] && Permutation(ran, registered) && |freed| == registered
    {
      if listReady {
        assert !Armed(kv[..], destructors[..], listKey);
      }
      assert AllOf(ran, [], []) == ran;
      PermutationCounts(ran, registered, 0);
    }
  }

  /** The calls for the armed slots below `n` that hold no list. */
  function DataCalls(kv: seq<Value>, ds: seq<Destructor>, n: nat): seq<(nat, nat)>
    requires n <= |kv| == |ds|
  {
    if n == 0 then []
    else DataCalls(kv, ds, n - 1) + if Armed(kv, ds, n - 1) && kv[n - 1].Data? then [(n - 1, kv[n - 1].word)] else []
  }

  /** The storage as far as a pass depends on it, and what it has called. */
  datatype Snapshot = Snapshot(kv: seq<Value>, ds: seq<Destructor>, nextKey: nat, listKey: nat, listReady: bool,
                               chain: seq<Node>, ran: seq<nat>, calls: seq<(nat, nat)>)
  {
    ghost predicate Ok() {
      KeysInv(kv, ds, nextKey, listKey, listReady, First(chain))
    }

    function Total(): nat {
      |ran| + |calls|
    }
  }

  /** After `k` slots of a pass whose destructors leave the storage alone. */
  ghost predicate QuietUpTo(before: Snapshot, s: Snapshot, k: nat) {
    var listDone := s.listReady && s.listKey < k;
    && before.Ok() && s.Ok() && k <= s.nextKey
    && s == before.(kv := s.kv, chain := s.chain, ran := s.ran, calls := s.calls)
    && s.kv[k..] == before.kv[k..]
    && (forall i :: 0 <= i < k ==> !Armed(s.kv, s.ds, i))
    && s.calls == before.calls + DataCalls(before.kv, before.ds, k)
    && s.ran == before.ran + (if listDone then Serials(before.chain) else [])
    && s.chain == (if listDone then [] else before.chain)
  }

  /** If the slot is armed then it becomes null and its destructor is called. */
  ghost predicate Visited(s: Snapshot, s': Snapshot, k: nat) {
    && k < |s.kv| == |s.ds| && s'.Ok()
    && s' == if !Armed(s.kv, s.ds, k) then s
             else if s.kv[k].List? then s.(kv := s.kv[k := Null], chain := [], ran := s.ran + Serials(s.chain))
             else s.(kv := s.kv[k := Null], calls := s.calls + [(k, s.kv[k].word)])
  }

  lemma QuietStarts(s: Snapshot)
    requires s.Ok()
    ensures QuietUpTo(s, s, 0)
  {
    assert s.calls + [] == s.calls && s.ran + [] == s.ran;
  }

  lemma QuietNext(before: Snapshot, s: Snapshot, s': Snapshot, k: nat)
    requires QuietUpTo(before, s, k) && k < s.nextKey && Visited(s, s', k)
    ensures QuietUpTo(before, s', k + 1)
  {
    assert s.kv[k] == s.kv[k..][0] == before.kv[k..][0] == before.kv[k];
    assert s'.kv[k + 1..] == s.kv[k..][1..] == before.kv[k + 1..];
    assert s.ran + [] == s.ran && s.calls + [] == s.calls;
    forall i | 0 <= i < k + 1
      ensures !Armed(s'.kv, s'.ds, i)
    {
      if i < k { assert !Armed(s.kv, s.ds, i); }
    }
    assert DataCalls(before.kv, before.ds, k + 1)
           == DataCalls(before.kv, before.ds, k)
              + if Armed(s.kv, s.ds, k) && s.kv[k].Data? then [(k, s.kv[k].word)] else [];
    if s.listReady && k == s.listKey {
      assert s.chain == before.chain && s.ran == before.ran;
      assert Serials([]) == [];
    } else {
      assert !s.kv[k].List?;
    }
  }

  lemma QuietAtEnd(before: Snapshot, s: Snapshot, k: nat)
    requires QuietUpTo(before, s, k) && k == s.nextKey
    ensures AllAtOnce(before, s)
  {
  }

  lemma {:induction false} NoDataCalls(kv: seq<Value>, ds: seq<Destructor>, n: nat)
    requires n <= |kv| == |ds| && forall k :: 0 <= k < n ==> !Armed(kv, ds, k)
    ensures DataCalls(kv, ds, n) == []
  {
    if n > 0 {
      NoDataCalls(kv, ds, n - 1);
    }
  }

  /** Every slot that was armed has had its call, in the order of the keys, and
      nothing else has been called. */
  ghost predicate AllAtOnce(first: Snapshot, s: Snapshot) {
    && first.nextKey <= |first.kv| == |first.ds| && s.nextKey <= |s.kv| == |s.ds|
    && s.ran == first.ran + Serials(first.chain)
    && s.calls == first.calls + DataCalls(first.kv, first.ds, first.nextKey)
    && s.chain == [] && forall k :: 0 <= k < s.nextKey ==> !Armed(s.kv, s.ds, k)
  }

  /** A further pass then calls nothing. */
  lemma NothingLeft(first: Snapshot, s: Snapshot, s': Snapshot)
    requires AllAtOnce(first, s) && AllAtOnce(s, s')
    ensures AllAtOnce(first, s') && |s'.ran| + |s'.calls| == |s.ran| + |s.calls|
  {
    NoDataCalls(s.kv, s.ds, s.nextKey);
    assert s.ran + Serials([]) == s.ran && s.calls + [] == s.calls;
  }

  /** At least one pass, and each but the last has called a destructor. */
  predicate Continued(passes: seq<bool>) {
    1 <= |passes| <= ITERATIONS && forall i :: 0 <= i < |passes| - 1 ==> passes[i]
  }

  /** Pass `i` has raised the number of calls from `totals[i]` to `totals[i + 1]`. */
  predicate Counted(passes: seq<bool>, totals: seq<nat>) {
    && |totals| == |passes| + 1
    && (passes != [] ==>
          var n := |passes| - 1;
          && Counted(passes[..n], totals[..n + 1])
          && totals[n] <= totals[n + 1] && (passes[n] <==> totals[n] < totals[n + 1]))
  }

  /** The passes so far, the last of which has or has not called a destructor. */
  predicate SoFar(passes: seq<bool>, totals: seq<nat>, called: bool, first: nat, total: nat) {
    && Counted(passes, totals) && totals[0] == first && totals[|passes|] == total
    && if passes == [] then called else Continued(passes) && called == passes[|passes| - 1]
  }

  lemma SoFarStarts(total: nat)
    ensures SoFar([], [total], true, total, total)
  {
  }

  lemma OneMorePass(passes: seq<bool>, totals: seq<nat>, first: nat, before: nat, called: bool, total: nat)
    requires |passes| < ITERATIONS && SoFar(passes, totals, true, first, before)
    requires before <= total && (called <==> before < total)
    ensures SoFar(passes + [called], totals + [total], called, first, total)
  {
    var p, t := passes + [called], totals + [total];
    assert p[..|passes|] == passes && t[..|totals|] == totals;
    assert forall i :: 0 <= i < |passes| ==> p[i] == passes[i];
  }

  lemma SoFarEnds(passes: seq<bool>, totals: seq<nat>, called: bool, first: nat, total: nat)
    requires SoFar(passes, totals, called, first, total)
    requires |passes| <= ITERATIONS && (|passes| == ITERATIONS || !called)
    ensures Continued(passes) && (|passes| == ITERATIONS || !passes[|passes| - 1])
    ensures Counted(passes, totals) && totals[0] == first && totals[|passes|] == total
    ensures AllCalled(passes) <==> called
  {
  }

  predicate AllCalled(passes: seq<bool>) {
    |passes| == ITERATIONS && forall i :: 0 <= i < |passes| ==> passes[i]
  }

  /** The destructor of a slot will be called. */
  predicate Armed(kv: seq<Value>, ds: seq<Destructor>, k: nat)
    requires k < |kv| == |ds|
  {
    kv[k] != Null && ds[k] != NoDestructor
  }
}
