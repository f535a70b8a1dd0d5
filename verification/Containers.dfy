/** The shared containers (ms_container.hpp) as a machine: any number of threads take
    the steps of container operations one at a time, in any interleaving. */
module Containers {
  import opened Options
  import opened Utility

  type Tid = nat

  datatype Key = Id(id: nat) | Name(name: string)

  /** Every container of the server. States and macros live inside the item they belong to. */
  datatype ContainerId =
    | Systems | Kernels | Interpreters
    | States(system: Key) | Macros(kernel: Key)

  /** The list mutex of a container, the spin flag of an item, the generator's mutex. */
  datatype Lock = List(c: ContainerId) | Flag(c: ContainerId, key: Key) | Rng

  datatype Hold = Hold(lock: Lock, exclusive: bool)

  /** Items are told apart by the order of their allocation; value lists the edits made. */
  datatype Item = Item(born: nat, value: seq<Tid>)

  datatype Container = Container(items: map<Key, Item>, next: nat)

  const NO_ITEMS := Container(map[], 0)

  /** _keyGenerator is an unsigned 64-bit number. */
  const KEY_RANGE := WORD_RANGE

  datatype Cmd =
    | LockShared(c: ContainerId) | LockUnique(c: ContainerId) | Unlock(c: ContainerId)
    | Find(c: ContainerId, key: Key)      // throws if there is no such item
    | Spin(c: ContainerId, key: Key)      // until test_and_set succeeds
    | Clear(c: ContainerId, key: Key)
    | Load(c: ContainerId, key: Key)      // a body begins to edit the item
    | Store(c: ContainerId, key: Key)     // and ends, with what it made of what it saw
    | Work                                // anything else, which may throw
    | LockRng | UnlockRng
    | InsertNext(c: ContainerId)          // may throw after it has taken its key
    | InsertNamed(c: ContainerId, key: Key)
    | Erase(c: ContainerId, key: Key)
    | CountThen(c: ContainerId, key: Key, absent: seq<Cmd>)  // then unlocks; absent runs if the count was 0

  /** What a thread knows: the locks it holds, oldest first; the items it has looked up
      under a list lock it still holds; interpreters it has seen registered; the item
      whose value it has read. */
  datatype View = View(held: seq<Hold>, found: set<(ContainerId, Key)>, known: set<Key>,
                       loaded: Option<(ContainerId, Key)>)

  const NOTHING := View([], {}, {}, None)

  datatype Thread = Thread(view: View, local: seq<Tid>, todo: seq<Cmd>)

  datatype State = State(threads: map<Tid, Thread>, containers: map<ContainerId, Container>,
                         leaked: set<Lock>, fault: bool, births: nat)

  // ---------------------------------------------------------------- locks

  predicate Holds(held: seq<Hold>, l: Lock)
  {
    exists i :: 0 <= i < |held| && held[i].lock == l
  }

  predicate HoldsAs(held: seq<Hold>, l: Lock, exclusive: bool)
  {
    Hold(l, exclusive) in held
  }

  ghost predicate Free(s: State, l: Lock)
  {
    l !in s.leaked && forall t :: t in s.threads ==> !Holds(s.threads[t].view.held, l)
  }

  ghost predicate NoWriter(s: State, c: ContainerId)
  {
    forall t :: t in s.threads ==> !HoldsAs(s.threads[t].view.held, List(c), true)
  }

  /** Thread t can take its next step now: a lock it asks for is to be had. */
  ghost predicate Enabled(s: State, t: Tid)
  {
    && t in s.threads && s.threads[t].todo != []
    && match s.threads[t].todo[0]
       case LockShared(c) => NoWriter(s, c)
       case LockUnique(c) => Free(s, List(c))
       case Spin(c, k) => Free(s, Flag(c, k))
       case LockRng => Free(s, Rng)
       case _ => true
  }

  /** Even a mutex that makes readers wait for a waiting writer would let t go on. */
  ghost predicate EnabledStrictly(s: State, t: Tid)
  {
    && Enabled(s, t)
    && (s.threads[t].todo[0].LockShared? ==>
          forall u :: u in s.threads && s.threads[u].todo != [] ==>
            s.threads[u].todo[0] != LockUnique(s.threads[t].todo[0].c))
  }

  // ---------------------------------------------------------------- steps

  /** What a completed command adds to, or takes from, the thread's view. */
  function After(v: View, cmd: Cmd): View
  {
    match cmd
    case LockShared(c) => v.(held := v.held + [Hold(List(c), false)])
    case LockUnique(c) => v.(held := v.held + [Hold(List(c), true)])
    case Unlock(c) => v.(held := Popped(v.held), found := set p | p in v.found && p.0 != c)
    case Find(c, k) => v.(found := v.found + {(c, k)})
    case Spin(c, k) => v.(held := v.held + [Hold(Flag(c, k), true)])
    case Clear(c, k) => v.(held := Popped(v.held), loaded := None)
    case Load(c, k) => v.(loaded := Some((c, k)))
    case Store(c, k) => v.(loaded := None)
    case LockRng => v.(held := v.held + [Hold(Rng, true)])
    case UnlockRng => v.(held := Popped(v.held))
    case InsertNamed(c, k) => if c == Interpreters then v.(known := v.known + {k}) else v
    case _ => v
  }

  function Popped(held: seq<Hold>): seq<Hold>
  {
    if held == [] then [] else held[..|held| - 1]
  }

  /** The list locks and the generator's mutex are released by destructors, the newest
      first; the flags are not. */
  function Unwinding(held: seq<Hold>): seq<Cmd>
  {
    if held == [] then [] else
      var rest := Unwinding(held[..|held| - 1]);
      match held[|held| - 1].lock
      case List(c) => [Unlock(c)] + rest
      case Rng => [UnlockRng] + rest
      case Flag(_, _) => rest
  }

  function WithoutFlags(held: seq<Hold>): seq<Hold>
  {
    if held == [] then [] else
      var rest := WithoutFlags(held[..|held| - 1]);
      if held[|held| - 1].lock.Flag? then rest else rest + [held[|held| - 1]]
  }

  function Flags(held: seq<Hold>): set<Lock>
  {
    set h | h in held && h.lock.Flag? :: h.lock
  }

  function Update(s: State, t: Tid, th: Thread): State
  {
    s.(threads := s.threads[t := th])
  }

  /** An exception leaves the operation: flags that are set stay set. */
  function Throw(s: State, t: Tid): State
    requires t in s.threads
  {
    var th := s.threads[t];
    var v := th.view.(held := WithoutFlags(th.view.held), loaded := None);
    var flags := Flags(th.view.held);
    Update(s, t, Thread(v, th.local, Unwinding(th.view.held)))
      .(leaked := s.leaked + flags, fault := s.fault || flags != {})
  }

  predicate Present(s: State, c: ContainerId, k: Key)
  {
    c in s.containers && k in s.containers[c].items
  }

  /** The containers that belong to item k of container c. */
  function Inner(c: ContainerId, k: Key): set<ContainerId>
  {
    if c == Systems then {States(k)} else if c == Kernels then {Macros(k)} else {}
  }

  predicate LockIn(l: Lock, c: ContainerId, k: Key)
  {
    l == Flag(c, k) || (l.Flag? && l.c in Inner(c, k)) || (l.List? && l.c in Inner(c, k))
  }

  function WithItem(s: State, c: ContainerId, k: Key): map<ContainerId, Container>
    requires c in s.containers
  {
    var box := s.containers[c];
    if k in box.items then s.containers
    else (map d | d in Inner(c, k) :: NO_ITEMS) + s.containers[c := box.(items := box.items[k := Item(s.births, [])])]
  }

  function NextKey(box: Container): Key
  {
    Id(box.next % KEY_RANGE)
  }

  /** One step of thread t. A command that may throw does so if throws is set. */
  function Exec(s: State, t: Tid, throws: bool): State
    requires t in s.threads && s.threads[t].todo != []
  {
    var th := s.threads[t];
    var cmd := th.todo[0];
    var going := Update(s, t, Thread(After(th.view, cmd), th.local, th.todo[1..]));
    match cmd
    case Find(c, k) => if Present(s, c, k) then going else Throw(s, t)
    case Work => if throws then Throw(s, t) else going
    case Load(c, k) =>
      if Present(s, c, k) then
        Update(s, t, Thread(After(th.view, cmd), s.containers[c].items[k].value, th.todo[1..]))
      else going
    case Store(c, k) =>
      if Present(s, c, k) then
        var box := s.containers[c];
        var item := box.items[k].(value := th.local + [t]);
        going.(containers := s.containers[c := box.(items := box.items[k := item])])
      else going
    case InsertNext(c) =>
      if c !in s.containers then going
      else if throws then
        var box := s.containers[c];
        Throw(s, t).(containers := s.containers[c := box.(next := box.next + 1)])
      else
        var cs := WithItem(s, c, NextKey(s.containers[c]));
        going.(containers := cs[c := cs[c].(next := cs[c].next + 1)], births := s.births + 1)
    case InsertNamed(c, k) =>
      if c in s.containers then going.(containers := WithItem(s, c, k), births := s.births + 1)
      else going
    case Erase(c, k) =>
      if Present(s, c, k) then
        var box := s.containers[c];
        var cs := s.containers[c := box.(items := box.items - {k})] - Inner(c, k);
        going.(containers := cs, leaked := set l | l in s.leaked && !LockIn(l, c, k))
      else going.(fault := true)
    case CountThen(c, k, absent) =>
      if Present(s, c, k) then
        var known := if c == Interpreters then th.view.known + {k} else th.view.known;
        Update(s, t, Thread(th.view.(known := known), th.local, [Unlock(c)] + th.todo[1..]))
      else Update(s, t, Thread(th.view, th.local, [Unlock(c)] + absent + th.todo[1..]))
    case _ => going
  }
}
