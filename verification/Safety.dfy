/** The invariant holds after every step, whatever the interleaving. */
module Safety {
  import opened Options
  import opened Containers
  import opened LockOrder
  import opened Universe
  import opened Interleaving

  function Thrown(th: Thread): Thread
  {
    Thread(th.view.(held := WithoutFlags(th.view.held), loaded := None), th.local, Unwinding(th.view.held))
  }

  /** Where a step leaves the thread that takes it: past the command, or unwinding. */
  lemma ExecThread(s: State, t: Tid, throws: bool)
    requires t in s.threads && s.threads[t].todo != []
    ensures t in Exec(s, t, throws).threads
    ensures var th, th' := s.threads[t], Exec(s, t, throws).threads[t];
            match th.todo[0]
            case CountThen(c, k, absent) =>
              th' == Thread(Counted(th.view, c, k), th.local, [Unlock(c)] + th.todo[1..])
              || th' == Thread(th.view, th.local, [Unlock(c)] + absent + th.todo[1..])
            case cmd =>
              (th' == Thrown(th) && (cmd.Find? || cmd.Work? || cmd.InsertNext?))
              || (th'.view == After(th.view, cmd) && th'.todo == th.todo[1..])
  {
    hide WithItem, Unwinding, WithoutFlags, Present, After;
  }

  lemma ExecOthers(s: State, t: Tid, throws: bool)
    requires t in s.threads && s.threads[t].todo != []
    ensures Exec(s, t, throws).threads.Keys == s.threads.Keys
    ensures forall u :: u in s.threads && u != t ==> Exec(s, t, throws).threads[u] == s.threads[u]
  {
    hide WithItem, Unwinding, WithoutFlags, Present, After, Flags;
  }

  /** The lock a command adds to the thread's stack. */
  predicate Adds(cmd: Cmd, h: Hold)
  {
    match cmd
    case LockShared(c) => h == Hold(List(c), false)
    case LockUnique(c) => h == Hold(List(c), true)
    case Spin(c, k) => h == Hold(Flag(c, k), true)
    case LockRng => h == Hold(Rng, true)
    case _ => false
  }

  ghost predicate Acquires(s: State, t: Tid, h: Hold)
  {
    t in s.threads && s.threads[t].todo != [] && Adds(s.threads[t].todo[0], h)
  }

  lemma AfterHeld(v: View, cmd: Cmd, h: Hold)
    requires h in After(v, cmd).held
    ensures h in v.held || Adds(cmd, h)
  {
    assert h in Popped(v.held) ==> h in v.held;
  }

  lemma ViewAfter(s: State, t: Tid, throws: bool, h: Hold)
    requires t in s.threads && s.threads[t].todo != []
    ensures var s' := Exec(s, t, throws);
            && s'.threads.Keys == s.threads.Keys
            && (forall u :: u in s.threads && u != t ==> s'.threads[u] == s.threads[u])
            && (h in s'.threads[t].view.held ==> h in s.threads[t].view.held || Acquires(s, t, h))
  {
    hide Exec, Unwinding, After, WithoutFlags, Adds;
    ExecOthers(s, t, throws);
    ExecThread(s, t, throws);
    var v, cmd := s.threads[t].view, s.threads[t].todo[0];
    WithoutFlagsKeeps(v.held, h);
    if h in After(v, cmd).held { AfterHeld(v, cmd, h); }
  }

  lemma OrderlyAfter(s: State, t: Tid, throws: bool)
    requires ThreadsOrderly(s) && t in s.threads && s.threads[t].todo != []
    ensures t in Exec(s, t, throws).threads
    ensures var th := Exec(s, t, throws).threads[t]; WellView(th.view) && Disciplined(th.view, th.todo)
  {
    hide Rank, Exec, Allowed, WellView, Unwinding;
    ExecThread(s, t, throws);
    var th := s.threads[t];
    ThrownWell(th.view);
    UnwindDisciplined(Thrown(th).view, th.view.held);
    match th.todo[0]
    case CountThen(c, k, _) => CountedWell(th.view, c, k);
    case cmd => AfterWell(th.view, cmd);
  }

  lemma CountedWell(v: View, c: ContainerId, k: Key)
    requires WellView(v)
    ensures WellView(Counted(v, c, k))
  {
  }

  // ---------------------------------------------------------------- locks

  /** What a thread acquires, no other thread holds, unless both are readers. */
  lemma AcquiresFree(s: State, t: Tid, h: Hold, u: Tid, g: Hold)
    requires Enabled(s, t) && Acquires(s, t, h) && u in s.threads && g in s.threads[u].view.held && g.lock == h.lock
    ensures !h.exclusive && !g.exclusive
  {
    var i :| 0 <= i < |s.threads[u].view.held| && s.threads[u].view.held[i] == g;
    assert Holds(s.threads[u].view.held, g.lock);
    if g.exclusive { assert HoldsAs(s.threads[u].view.held, g.lock, true); }
  }

  lemma ExclusivePair(s: State, s': State, t: Tid, throws: bool, a: Tid, b: Tid, h: Hold, g: Hold)
    requires t in s.threads && s.threads[t].todo != [] && s' == Exec(s, t, throws)
    requires a in s'.threads && b in s'.threads && a != b
    requires h in s'.threads[a].view.held && g in s'.threads[b].view.held && h.lock == g.lock
    requires Exclusive(s) && Enabled(s, t)
    ensures !h.exclusive && !g.exclusive
  {
    hide Exec, Enabled, Acquires;
    ViewAfter(s, t, throws, h);
    ViewAfter(s, t, throws, g);
    if a == t && h !in s.threads[t].view.held {
      AcquiresFree(s, t, h, b, g);
    } else if b == t && g !in s.threads[t].view.held {
      AcquiresFree(s, t, g, a, h);
    }
  }

  lemma ExclusiveAfter(s: State, s': State, t: Tid, throws: bool)
    requires t in s.threads && s.threads[t].todo != [] && s' == Exec(s, t, throws)
    requires Exclusive(s) && Enabled(s, t)
    ensures Exclusive(s')
  {
    hide Exec, Enabled, Acquires;
    forall a, b, h, g |
      a in s'.threads && b in s'.threads && a != b && h in s'.threads[a].view.held && g in s'.threads[b].view.held
      && h.lock == g.lock
      ensures !h.exclusive && !g.exclusive
    {
      ExclusivePair(s, s', t, throws, a, b, h, g);
    }
  }

  lemma EnabledThread(s: State, t: Tid)
    requires Enabled(s, t)
    ensures t in s.threads && s.threads[t].todo != []
  {
  }

  /** How a step changes the flags that no thread will ever clear. */
  lemma LeakedAfter(s: State, t: Tid, throws: bool)
    requires t in s.threads && s.threads[t].todo != []
    ensures var s' := Exec(s, t, throws);
            || (s'.leaked <= s.leaked && (s.fault ==> s'.fault))
            || (s'.threads[t] == Thrown(s.threads[t]) && s'.leaked == s.leaked + Flags(s.threads[t].view.held)
                && s'.fault == (s.fault || Flags(s.threads[t].view.held) != {}))
  {
    hide WithItem, Unwinding, WithoutFlags, Present, After, Flags;
  }

  lemma AcquiresUnleaked(s: State, t: Tid, h: Hold)
    requires Enabled(s, t) && Acquires(s, t, h) && (forall l :: l in s.leaked ==> l.Flag?)
    ensures h.lock !in s.leaked
  {
  }

  lemma HeldUnleaked(s: State, s': State, t: Tid, throws: bool, u: Tid, h: Hold)
    requires t in s.threads && s.threads[t].todo != [] && s' == Exec(s, t, throws)
    requires u in s'.threads && h in s'.threads[u].view.held
    requires LeaksUnheld(s) && Exclusive(s) && WellView(s.threads[t].view) && Enabled(s, t)
    ensures h.lock !in s'.leaked
  {
    hide Exec, Enabled, Rank, Acquires, Unwinding, WellView;
    LeakedAfter(s, t, throws);
    ViewAfter(s, t, throws, h);
    if u == t {
      if h !in s.threads[t].view.held { AcquiresUnleaked(s, t, h); }
      WithoutFlagsKeeps(s.threads[t].view.held, h);
    } else if h.lock in Flags(s.threads[t].view.held) {
      var g :| g in s.threads[t].view.held && g.lock.Flag? && g.lock == h.lock;
      FlagExclusive(s.threads[t].view, g);
    }
  }

  lemma LeaksAfter(s: State, s': State, t: Tid, throws: bool)
    requires t in s.threads && s.threads[t].todo != [] && s' == Exec(s, t, throws)
    requires LeaksUnheld(s) && Exclusive(s) && WellView(s.threads[t].view) && Enabled(s, t)
    ensures LeaksUnheld(s')
  {
    hide Exec, Enabled, WellView, Unwinding;
    LeakedAfter(s, t, throws);
    forall u, h | u in s'.threads && h in s'.threads[u].view.held ensures h.lock !in s'.leaked {
      HeldUnleaked(s, s', t, throws, u, h);
    }
  }

  lemma FlagExclusive(v: View, g: Hold)
    requires WellView(v) && g in v.held && !g.lock.List?
    ensures g.exclusive
  {
  }

  // ---------------------------------------------------------------- items

  /** Item (c, k) goes with the erased item (d, l): it is that item, or lies inside. */
  predicate GoesWith(c: ContainerId, k: Key, d: ContainerId, l: Key)
  {
    (c == d && k == l) || c in Inner(d, l)
  }

  predicate Erases(s: State, t: Tid, d: ContainerId, l: Key)
  {
    t in s.threads && s.threads[t].todo != [] && s.threads[t].todo[0] == Erase(d, l) && Present(s, d, l)
  }

  /** A step keeps an item, as the same object with the same value, unless it stores to it
      or erases it. */
  lemma ItemKept(s: State, t: Tid, throws: bool, c: ContainerId, k: Key)
    requires t in s.threads && s.threads[t].todo != [] && Present(s, c, k)
    requires ContainersExist(s)
    ensures var s', cmd := Exec(s, t, throws), s.threads[t].todo[0];
            if cmd.Erase? && Erases(s, t, cmd.c, cmd.key) && GoesWith(c, k, cmd.c, cmd.key) then !Present(s', c, k)
            else
              && Present(s', c, k) && s'.containers[c].items[k].born == s.containers[c].items[k].born
              && s'.containers[c].items[k].value ==
                   if cmd == Store(c, k) then s.threads[t].local + [t] else s.containers[c].items[k].value
  {
    hide Unwinding, WithoutFlags, After, Flags;
    var cmd := s.threads[t].todo[0];
    if (cmd.InsertNext? || cmd.InsertNamed?) && cmd.c in s.containers {
      var l := if cmd.InsertNext? then NextKey(s.containers[cmd.c]) else cmd.key;
      InsertKeeps(s, cmd.c, l, c, k);
    }
  }

  lemma InsertKeeps(s: State, d: ContainerId, l: Key, c: ContainerId, k: Key)
    requires d in s.containers && Present(s, c, k) && ContainersExist(s)
    ensures var cs := WithItem(s, d, l); c in cs && k in cs[c].items && cs[c].items[k] == s.containers[c].items[k]
  {
  }

  /** An item that a step adds is the one it inserts, a new object. */
  lemma ItemAdded(s: State, t: Tid, throws: bool, c: ContainerId, k: Key)
    requires t in s.threads && s.threads[t].todo != [] && !Present(s, c, k) && Present(Exec(s, t, throws), c, k)
    ensures var s', cmd := Exec(s, t, throws), s.threads[t].todo[0];
            && c in s.containers
            && (cmd == InsertNamed(c, k) || (cmd == InsertNext(c) && k == NextKey(s.containers[c])))
            && s'.containers[c].items[k] == Item(s.births, []) && s'.births == s.births + 1
  {
    hide Unwinding, WithoutFlags, After, Flags;
  }

  lemma BirthsGrow(s: State, t: Tid, throws: bool)
    requires t in s.threads && s.threads[t].todo != []
    ensures s.births <= Exec(s, t, throws).births
  {
    hide Unwinding, WithoutFlags, After, Flags, WithItem;
  }

  lemma BirthAfter(s: State, s': State, t: Tid, throws: bool, c: ContainerId, k: Key)
    requires t in s.threads && s.threads[t].todo != [] && s' == Exec(s, t, throws)
    requires BirthsDistinct(s) && ContainersExist(s) && Present(s', c, k)
    ensures s'.containers[c].items[k].born < s'.births
    ensures if Present(s, c, k) then s'.containers[c].items[k].born == s.containers[c].items[k].born < s.births
            else s'.containers[c].items[k].born == s.births
  {
    hide Exec, ContainersExist;
    BirthsGrow(s, t, throws);
    if Present(s, c, k) { ItemKept(s, t, throws, c, k); } else { ItemAdded(s, t, throws, c, k); }
  }

  lemma BirthsAfter(s: State, s': State, t: Tid, throws: bool)
    requires t in s.threads && s.threads[t].todo != [] && s' == Exec(s, t, throws)
    requires BirthsDistinct(s) && ContainersExist(s)
    ensures BirthsDistinct(s')
  {
    hide Exec, ContainersExist;
    forall c, k | Present(s', c, k) ensures s'.containers[c].items[k].born < s'.births {
      BirthAfter(s, s', t, throws, c, k);
    }
    forall c, k, d, l | Present(s', c, k) && Present(s', d, l)
      && s'.containers[c].items[k].born == s'.containers[d].items[l].born
      ensures c == d && k == l
    {
      BirthAfter(s, s', t, throws, c, k);
      BirthAfter(s, s', t, throws, d, l);
      if !Present(s, c, k) && !Present(s, d, l) {
        ItemAdded(s, t, throws, c, k);
        ItemAdded(s, t, throws, d, l);
      }
    }
  }

  // ---------------------------------------------------------------- erasing

  lemma HeldOneWay(v: View, l: Lock)
    requires WellView(v) && HoldsAs(v.held, l, true)
    ensures !HoldsAs(v.held, l, false)
  {
    var i :| 0 <= i < |v.held| && v.held[i] == Hold(l, true);
    assert forall j :: 0 <= j < |v.held| && v.held[j].lock == l ==> i == j;
  }

  /** What is found inside an item is found under that item. */
  lemma FoundOwned(v: View, c: ContainerId, k: Key)
    requires WellView(v) && (c, k) in v.found
    ensures Owned(v, c)
  {
    assert HoldsAs(v.held, List((c, k).0), false);
    var i :| 0 <= i < |v.held| && v.held[i] == Hold(List(c), false);
  }

  /** While a thread holds a list as its writer, no thread has looked anything up in it. */
  lemma WriterAlone(s: State, t: Tid, d: ContainerId, u: Tid, l: Key)
    requires t in s.threads && u in s.threads && HoldsAs(s.threads[t].view.held, List(d), true)
    requires WellView(s.threads[t].view) && WellView(s.threads[u].view) && Exclusive(s)
    ensures (d, l) !in s.threads[u].view.found
  {
    hide Rank, Owned;
    if (d, l) in s.threads[u].view.found {
      assert HoldsAs(s.threads[u].view.held, List((d, l).0), false);
      if u == t { HeldOneWay(s.threads[t].view, List(d)); }
    }
  }

  /** An erased item is in use by no thread, and neither is anything inside it. */
  lemma ErasedUnused(s: State, t: Tid, d: ContainerId, l: Key, u: Tid, c: ContainerId, k: Key)
    requires t in s.threads && u in s.threads && HoldsAs(s.threads[t].view.held, List(d), true)
    requires WellView(s.threads[t].view) && WellView(s.threads[u].view) && Exclusive(s)
    requires GoesWith(c, k, d, l)
    ensures (c, k) !in s.threads[u].view.found
  {
    hide Rank, WellView, Exclusive;
    WriterAlone(s, t, d, u, l);
    if (c, k) in s.threads[u].view.found { FoundOwned(s.threads[u].view, c, k); }
  }

  lemma AllowedNow(s: State, t: Tid)
    requires t in s.threads && s.threads[t].todo != [] && ThreadsOrderly(s)
    ensures Allowed(s.threads[t].view, s.threads[t].todo[0]) && WellView(s.threads[t].view)
  {
    hide WellView, Allowed;
  }

  /** What some thread has looked up survives every step. */
  lemma FoundSurvives(s: State, s': State, t: Tid, throws: bool, u: Tid, c: ContainerId, k: Key)
    requires t in s.threads && s.threads[t].todo != [] && s' == Exec(s, t, throws)
    requires u in s.threads && (c, k) in s.threads[u].view.found
    requires ThreadsOrderly(s) && Exclusive(s) && ContainersExist(s) && FoundPresent(s)
    ensures Present(s', c, k)
  {
    hide Exec, ContainersExist, WellView, Disciplined, Rank, Exclusive;
    assert Present(s, (c, k).0, (c, k).1);
    ItemKept(s, t, throws, c, k);
    var cmd := s.threads[t].todo[0];
    AllowedNow(s, t);
    if cmd.Erase? && GoesWith(c, k, cmd.c, cmd.key) {
      ErasedUnused(s, t, cmd.c, cmd.key, u, c, k);
    }
  }

  /** Interpreters are never erased. */
  lemma InterpreterStays(s: State, s': State, t: Tid, throws: bool, k: Key)
    requires t in s.threads && s.threads[t].todo != [] && s' == Exec(s, t, throws)
    requires Present(s, Interpreters, k) && ThreadsOrderly(s) && ContainersExist(s)
    ensures Present(s', Interpreters, k)
    ensures s'.containers[Interpreters].items[k].born == s.containers[Interpreters].items[k].born
  {
    hide Exec, ContainersExist, WellView, Disciplined, Rank;
    AllowedNow(s, t);
    ItemKept(s, t, throws, Interpreters, k);
  }

  /** A look-up goes on only if the item is there. */
  lemma FindGoes(s: State, t: Tid, throws: bool, c: ContainerId, k: Key)
    requires t in s.threads && s.threads[t].todo != [] && s.threads[t].todo[0] == Find(c, k)
    ensures Exec(s, t, throws).containers == s.containers
    ensures t in Exec(s, t, throws).threads
    ensures !Present(s, c, k) ==> Exec(s, t, throws).threads[t] == Thrown(s.threads[t])
  {
    hide Unwinding, WithoutFlags, Flags, After, WithItem, Present;
  }

  lemma FoundGrows(v: View, cmd: Cmd, p: (ContainerId, Key))
    requires p in After(v, cmd).found && p !in v.found
    ensures cmd == Find(p.0, p.1)
  {
  }

  /** What a step lets its thread look up is there. */
  lemma LearnsFound(s: State, s': State, t: Tid, throws: bool, p: (ContainerId, Key))
    requires t in s.threads && s.threads[t].todo != [] && s' == Exec(s, t, throws)
    requires t in s'.threads && p in s'.threads[t].view.found && p !in s.threads[t].view.found
    ensures Present(s', p.0, p.1)
  {
    hide Exec, After, Unwinding, WithoutFlags;
    ExecThread(s, t, throws);
    var th := s.threads[t];
    if p in After(th.view, th.todo[0]).found { FoundGrows(th.view, th.todo[0], p); }
    if th.todo[0] == Find(p.0, p.1) { FindGoes(s, t, throws, p.0, p.1); }
  }

  /** A count that finds nothing teaches nothing; otherwise the interpreter is there. */
  lemma CountGoes(s: State, t: Tid, throws: bool, c: ContainerId, k: Key, absent: seq<Cmd>)
    requires t in s.threads && s.threads[t].todo != [] && s.threads[t].todo[0] == CountThen(c, k, absent)
    ensures Exec(s, t, throws).containers == s.containers
    ensures t in Exec(s, t, throws).threads
    ensures var th := s.threads[t];
            Exec(s, t, throws).threads[t] ==
              if Present(s, c, k) then Thread(Counted(th.view, c, k), th.local, [Unlock(c)] + th.todo[1..])
              else Thread(th.view, th.local, [Unlock(c)] + absent + th.todo[1..])
  {
    hide Present;
  }

  lemma InsertNamedGoes(s: State, t: Tid, throws: bool, c: ContainerId, k: Key)
    requires t in s.threads && s.threads[t].todo != [] && s.threads[t].todo[0] == InsertNamed(c, k)
    ensures c in s.containers ==> Present(Exec(s, t, throws), c, k)
  {
  }

  lemma KnownGrows(v: View, cmd: Cmd, k: Key)
    requires k in After(v, cmd).known && k !in v.known
    ensures cmd == InsertNamed(Interpreters, k)
  {
  }

  /** What a step lets its thread know to be registered is there. */
  lemma LearnsKnown(s: State, s': State, t: Tid, throws: bool, k: Key)
    requires t in s.threads && s.threads[t].todo != [] && s' == Exec(s, t, throws)
    requires t in s'.threads && k in s'.threads[t].view.known && k !in s.threads[t].view.known
    requires Interpreters in s.containers
    ensures Present(s', Interpreters, k)
  {
    hide Exec, After, Unwinding, WithoutFlags;
    ExecThread(s, t, throws);
    var th := s.threads[t];
    match th.todo[0]
    case CountThen(c, l, absent) => CountGoes(s, t, throws, c, l, absent);
    case cmd =>
      KnownGrows(th.view, cmd, k);
      InsertNamedGoes(s, t, throws, Interpreters, k);
  }

  lemma InterpretersExist(s: State)
    requires ContainersExist(s)
    ensures Interpreters in s.containers
  {
  }

  lemma FoundAfter(s: State, s': State, t: Tid, throws: bool)
    requires t in s.threads && s.threads[t].todo != [] && s' == Exec(s, t, throws)
    requires ThreadsOrderly(s) && Exclusive(s) && ContainersExist(s) && FoundPresent(s)
    ensures FoundPresent(s')
  {
    hide Exec, ContainersExist, ThreadsOrderly, Exclusive, Present;
    ViewAfter(s, t, throws, Hold(Rng, true));
    InterpretersExist(s);
    forall u, p | u in s'.threads && p in s'.threads[u].view.found ensures Present(s', p.0, p.1) {
      if p in s.threads[u].view.found {
        FoundSurvives(s, s', t, throws, u, p.0, p.1);
      } else {
        LearnsFound(s, s', t, throws, p);
      }
    }
    forall u, k | u in s'.threads && k in s'.threads[u].view.known ensures Present(s', Interpreters, k) {
      if k in s.threads[u].view.known {
        InterpreterStays(s, s', t, throws, k);
      } else {
        LearnsKnown(s, s', t, throws, k);
      }
    }
  }

  // ---------------------------------------------------------------- containers and values

  /** Only insertions, stores and erasures change the containers. */
  lemma SameContainers(s: State, t: Tid, throws: bool)
    requires t in s.threads && s.threads[t].todo != []
    ensures var cmd := s.threads[t].todo[0];
            cmd.InsertNext? || cmd.InsertNamed? || cmd.Store? || cmd.Erase? || Exec(s, t, throws).containers == s.containers
  {
    hide WithItem, Unwinding, WithoutFlags, Present, After, Flags;
  }

  lemma ExistOnly(s: State, s': State)
    requires ContainersExist(s) && s'.containers == s.containers
    ensures ContainersExist(s')
  {
  }

  lemma ExistAfter(s: State, s': State, t: Tid, throws: bool)
    requires t in s.threads && s.threads[t].todo != [] && s' == Exec(s, t, throws)
    requires ContainersExist(s) && Allowed(s.threads[t].view, s.threads[t].todo[0])
    ensures ContainersExist(s')
  {
    hide Unwinding, WithoutFlags, Flags, After, Above, Owned, ContainersExist, WithItem;
    var cmd := s.threads[t].todo[0];
    match cmd
    case InsertNext(c) =>
      if c in s.containers && throws {
        StoreExist(s, s', c);
      } else if c in s.containers {
        InsertStays(s, c, NextKey(s.containers[c]));
        InsertExist(s, s', c, NextKey(s.containers[c]));
      } else {
        ExistOnly(s, s');
      }
    case InsertNamed(c, k) => if c in s.containers { InsertExist(s, s', c, k); } else { ExistOnly(s, s'); }
    case Store(c, k) => if Present(s, c, k) { StoreExist(s, s', c); } else { ExistOnly(s, s'); }
    case Erase(c, k) => if Present(s, c, k) { EraseExist(s, s', c, k); } else { ExistOnly(s, s'); }
    case _ =>
      SameContainers(s, t, throws);
      ExistOnly(s, s');
  }

  lemma StoreExist(s: State, s': State, c: ContainerId)
    requires ContainersExist(s) && c in s.containers
    requires s'.containers.Keys == s.containers.Keys
    requires forall d :: d in s.containers ==> s'.containers[d].items.Keys == s.containers[d].items.Keys
    ensures ContainersExist(s')
  {
    assert forall d, l :: Present(s', d, l) <==> Present(s, d, l);
  }

  lemma EraseExist(s: State, s': State, c: ContainerId, k: Key)
    requires ContainersExist(s) && Present(s, c, k) && c != Interpreters
    requires s'.containers == s.containers[c := s.containers[c].(items := s.containers[c].items - {k})] - Inner(c, k)
    ensures ContainersExist(s')
  {
  }

  lemma InsertStays(s: State, d: ContainerId, l: Key)
    requires d in s.containers
    ensures d in WithItem(s, d, l)
  {
  }

  lemma InsertExist(s: State, s': State, d: ContainerId, l: Key)
    requires ContainersExist(s) && d in s.containers
    requires s'.containers.Keys == WithItem(s, d, l).Keys
    requires forall e :: e in s'.containers ==> s'.containers[e].items == WithItem(s, d, l)[e].items
    ensures ContainersExist(s')
  {
  }

  /** What a step does to the value its thread is working on. */
  lemma LoadedAfterStep(s: State, t: Tid, throws: bool)
    requires t in s.threads && s.threads[t].todo != []
    ensures var s', th := Exec(s, t, throws), s.threads[t];
            var th' := s'.threads[t];
            || th'.view.loaded.None?
            || (th.todo[0].Load? && th'.view.loaded == Some((th.todo[0].c, th.todo[0].key)) && s'.containers == s.containers
                && (Present(s, th.todo[0].c, th.todo[0].key) ==>
                      th'.local == s.containers[th.todo[0].c].items[th.todo[0].key].value))
            || (th'.view.loaded == th.view.loaded && th'.local == th.local && !th.todo[0].Store?)
  {
    hide Unwinding, WithoutFlags, Flags, WithItem;
  }

  lemma LoadedIsFound(v: View)
    requires WellView(v) && v.loaded.Some?
    ensures v.loaded.value in v.found && Hold(Flag(v.loaded.value.0, v.loaded.value.1), true) in v.held
  {
    var f := Flag(v.loaded.value.0, v.loaded.value.1);
    var i :| 0 <= i < |v.held| && v.held[i].lock == f;
    assert v.held[i] == Hold(f, true);
  }

  /** No two threads work on the same value. */
  lemma LoadedApart(s: State, t: Tid, u: Tid)
    requires t in s.threads && u in s.threads && t != u && Exclusive(s)
    requires WellView(s.threads[t].view) && WellView(s.threads[u].view)
    requires s.threads[t].view.loaded.Some?
    ensures s.threads[t].view.loaded != s.threads[u].view.loaded
  {
    hide WellView;
    LoadedIsFound(s.threads[t].view);
    if s.threads[u].view.loaded.Some? { LoadedIsFound(s.threads[u].view); }
  }

  lemma LoadedStays(s: State, s': State, t: Tid, throws: bool, u: Tid)
    requires t in s.threads && s.threads[t].todo != [] && s' == Exec(s, t, throws)
    requires u in s.threads && s.threads[u].view.loaded.Some? && (u == t ==> !s.threads[t].todo[0].Store?)
    requires ThreadsOrderly(s) && Exclusive(s) && ContainersExist(s) && FoundPresent(s) && LoadedCurrent(s)
    ensures var p := s.threads[u].view.loaded.value;
            Present(s', p.0, p.1) && s'.containers[p.0].items[p.1].value == s.threads[u].local
  {
    hide Exec, ContainersExist, WellView, Disciplined, Rank, Exclusive, FoundPresent;
    var p := s.threads[u].view.loaded.value;
    AllowedNow(s, t);
    assert WellView(s.threads[u].view);
    LoadedIsFound(s.threads[u].view);
    FoundSurvives(s, s', t, throws, u, p.0, p.1);
    ItemKept(s, t, throws, p.0, p.1);
    if s.threads[t].todo[0] == Store(p.0, p.1) && u != t { LoadedApart(s, t, u); }
  }

  lemma LoadedAfter(s: State, s': State, t: Tid, throws: bool)
    requires t in s.threads && s.threads[t].todo != [] && s' == Exec(s, t, throws)
    requires ThreadsOrderly(s) && Exclusive(s) && ContainersExist(s) && FoundPresent(s) && LoadedCurrent(s)
    ensures LoadedCurrent(s')
  {
    hide Exec, ContainersExist, WellView, Disciplined, Rank, Exclusive, FoundPresent;
    ViewAfter(s, t, throws, Hold(Rng, true));
    LoadedAfterStep(s, t, throws);
    forall u | u in s'.threads && s'.threads[u].view.loaded.Some?
      ensures var p := s'.threads[u].view.loaded.value;
              Present(s', p.0, p.1) && s'.containers[p.0].items[p.1].value == s'.threads[u].local
    {
      if u == t && s.threads[t].todo[0].Load? && s'.threads[t].view.loaded != s.threads[t].view.loaded {
        LoadPresent(s, t);
      } else if u == t && s.threads[t].todo[0].Load? {
        LoadPresent(s, t);
        if s'.threads[t].local == s.threads[t].local && s.threads[t].view.loaded.Some? {
          LoadedStays(s, s', t, throws, t);
        }
      } else {
        LoadedStays(s, s', t, throws, u);
      }
    }
  }

  lemma LoadPresent(s: State, t: Tid)
    requires t in s.threads && s.threads[t].todo != [] && s.threads[t].todo[0].Load?
    requires ThreadsOrderly(s) && FoundPresent(s)
    ensures Present(s, s.threads[t].todo[0].c, s.threads[t].todo[0].key)
  {
    hide Rank;
    var v, cmd := s.threads[t].view, s.threads[t].todo[0];
    AllowedNow(s, t);
    var i :| 0 <= i < |v.held| && v.held[i].lock == Flag(cmd.c, cmd.key);
    assert (v.held[i].lock.c, v.held[i].lock.key) in v.found;
    assert Present(s, (cmd.c, cmd.key).0, (cmd.c, cmd.key).1);
  }

  // ---------------------------------------------------------------- keys

  /** The generator of a container only moves when a key is taken from it. */
  lemma NextAfter(s: State, s': State, t: Tid, throws: bool, c: ContainerId)
    requires t in s.threads && s.threads[t].todo != [] && s' == Exec(s, t, throws) && ContainersExist(s)
    requires c in s.containers && c in s'.containers
    ensures s'.containers[c].next == s.containers[c].next + if s.threads[t].todo[0] == InsertNext(c) then 1 else 0
  {
    hide Unwinding, WithoutFlags, Flags, After;
    var cmd := s.threads[t].todo[0];
    if (cmd.InsertNext? || cmd.InsertNamed?) && cmd.c in s.containers {
      InsertNextKeeps(s, cmd.c, if cmd.InsertNext? then NextKey(s.containers[cmd.c]) else cmd.key, c);
    }
  }

  lemma InsertNextKeeps(s: State, d: ContainerId, l: Key, c: ContainerId)
    requires ContainersExist(s) && d in s.containers && c in s.containers
    ensures c in WithItem(s, d, l) && WithItem(s, d, l)[c].next == s.containers[c].next
  {
  }

  lemma KeysAfter(s: State, s': State, t: Tid, throws: bool)
    requires t in s.threads && s.threads[t].todo != [] && s' == Exec(s, t, throws)
    requires KeysIssued(s) && ContainersExist(s) && Allowed(s.threads[t].view, s.threads[t].todo[0])
    ensures KeysIssued(s')
  {
    hide Exec, ContainersExist, Above, Owned, Newest, Holds;
    forall c, k | c != Interpreters && Present(s', c, k)
      ensures k.Id? && (s'.containers[c].next <= KEY_RANGE ==> k.id < s'.containers[c].next)
    {
      if Present(s, c, k) {
        ItemKept(s, t, throws, c, k);
      } else {
        ItemAdded(s, t, throws, c, k);
      }
      NextAfter(s, s', t, throws, c);
    }
  }

  // ---------------------------------------------------------------- every run

  lemma GoKeepsInv(s: State, t: Tid, throws: bool)
    requires Inv(s) && Enabled(s, t)
    ensures Inv(Exec(s, t, throws))
  {
    hide Exec, WellView, Disciplined, Allowed, Enabled, Exclusive, LeaksUnheld, FoundPresent, ContainersExist,
         LoadedCurrent, KeysIssued, BirthsDistinct;
    EnabledThread(s, t);
    var s' := Exec(s, t, throws);
    AllowedNow(s, t);
    OrderlyAfter(s, t, throws);
    ViewAfter(s, t, throws, Hold(Rng, true));
    ExclusiveAfter(s, s', t, throws);
    LeaksAfter(s, s', t, throws);
    FoundAfter(s, s', t, throws);
    ExistAfter(s, s', t, throws);
    LoadedAfter(s, s', t, throws);
    KeysAfter(s, s', t, throws);
    BirthsAfter(s, s', t, throws);
  }

  lemma NothingWell()
    ensures WellView(NOTHING)
  {
  }

  lemma BeginOrderly(s: State, s': State, t: Tid, op: Operation)
    requires s' == Update(s, t, Thread(NOTHING, [], Script(op))) && ThreadsOrderly(s)
    ensures ThreadsOrderly(s')
  {
    hide Disciplined, Script, WellView;
    ScriptDisciplined(op);
    NothingWell();
  }

  /** A thread that begins an operation holds nothing and knows nothing. */
  lemma BeginLocks(s: State, s': State, t: Tid, todo: seq<Cmd>)
    requires s' == Update(s, t, Thread(NOTHING, [], todo)) && Exclusive(s) && LeaksUnheld(s)
    ensures Exclusive(s') && LeaksUnheld(s')
  {
  }

  lemma BeginItems(s: State, s': State, t: Tid, todo: seq<Cmd>)
    requires s' == Update(s, t, Thread(NOTHING, [], todo))
    requires FoundPresent(s) && ContainersExist(s) && LoadedCurrent(s) && KeysIssued(s) && BirthsDistinct(s)
    ensures FoundPresent(s') && ContainersExist(s') && LoadedCurrent(s') && KeysIssued(s') && BirthsDistinct(s')
  {
    assert forall c, k :: Present(s', c, k) == Present(s, c, k);
  }

  lemma BeginKeepsInv(s: State, t: Tid, op: Operation)
    requires Inv(s) && (t in s.threads ==> s.threads[t].todo == [])
    ensures Inv(Update(s, t, Thread(NOTHING, [], Script(op))))
  {
    hide Script, Update, ThreadsOrderly, Exclusive, LeaksUnheld, FoundPresent, ContainersExist, LoadedCurrent,
         KeysIssued, BirthsDistinct;
    var s' := Update(s, t, Thread(NOTHING, [], Script(op)));
    BeginOrderly(s, s', t, op);
    BeginLocks(s, s', t, Script(op));
    BeginItems(s, s', t, Script(op));
  }

  lemma StepKeepsInv(s: State, e: Event, s': State)
    requires Inv(s) && Step(s, e, s')
    ensures Inv(s')
  {
    hide Inv, Exec, Enabled, Script;
    match e
    case Begin(t, op) => BeginKeepsInv(s, t, op);
    case Go(t, throws) => GoKeepsInv(s, t, throws);
  }

  lemma InitialInv()
    ensures Inv(Initial())
  {
  }

  lemma RunStep(ss: seq<State>, es: seq<Event>, i: int)
    requires IsRun(ss, es) && 0 < i < |ss|
    ensures Step(ss[i - 1], es[i - 1], ss[i])
  {
    hide Step;
    assert Step(ss[i - 1], es[i - 1], ss[i - 1 + 1]);
  }

  /** In every state of every run the invariant holds. */
  lemma {:induction false} RunInvariant(ss: seq<State>, es: seq<Event>, i: nat)
    requires IsRun(ss, es) && i < |ss|
    ensures Inv(ss[i])
  {
    hide Inv, Step;
    if i == 0 {
      InitialInv();
    } else {
      RunInvariant(ss, es, i - 1);
      RunStep(ss, es, i);
      StepKeepsInv(ss[i - 1], es[i - 1], ss[i]);
    }
  }
}
