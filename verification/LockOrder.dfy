/** The order in which locks are taken, and the commands a thread may issue. */
module LockOrder {
  import opened Options
  import opened Containers

  function Rank(l: Lock): nat
  {
    match l
    case List(Systems) => 0
    case Flag(Systems, _) => 1
    case List(Kernels) => 2
    case Flag(Kernels, _) => 3
    case List(Interpreters) => 4
    case Flag(Interpreters, _) => 5
    case List(States(_)) => 6
    case Flag(States(_), _) => 7
    case List(Macros(_)) => 8
    case Flag(Macros(_), _) => 9
    case Rng => 10
  }

  /** l comes after every lock held. */
  predicate Above(held: seq<Hold>, l: Lock)
  {
    forall i :: 0 <= i < |held| ==> Rank(held[i].lock) < Rank(l)
  }

  /** The item that the container lives in has been looked up, and cannot go away. */
  predicate Owned(v: View, c: ContainerId)
  {
    match c
    case States(k) => (Systems, k) in v.found
    case Macros(k) => (Kernels, k) in v.found
    case _ => true
  }

  /** The flag of the item that the container lives in is held. */
  predicate Inside(v: View, c: ContainerId)
  {
    match c
    case States(k) => Holds(v.held, Flag(Systems, k))
    case Macros(k) => Holds(v.held, Flag(Kernels, k))
    case _ => true
  }

  predicate Newest(v: View, l: Lock)
  {
    v.held != [] && v.held[|v.held| - 1].lock == l
  }

  /** What the code sees to before each command. */
  predicate Allowed(v: View, cmd: Cmd)
  {
    match cmd
    case LockShared(c) => Above(v.held, List(c)) && Owned(v, c) && Inside(v, c)
    case LockUnique(c) => Above(v.held, List(c)) && Owned(v, c) && Inside(v, c)
    case Unlock(c) => Newest(v, List(c))
    case Find(c, k) =>
      HoldsAs(v.held, List(c), false) && Newest(v, List(c)) && Inside(v, c) && (c == Interpreters ==> k in v.known)
    case Spin(c, k) => Above(v.held, Flag(c, k)) && (c, k) in v.found
    case Clear(c, k) => Newest(v, Flag(c, k))
    case Load(c, k) => Holds(v.held, Flag(c, k))
    case Store(c, k) => v.loaded == Some((c, k))
    case Work => true
    case LockRng => Above(v.held, Rng)
    case UnlockRng => Newest(v, Rng)
    case InsertNext(c) => HoldsAs(v.held, List(c), true) && c != Interpreters && Inside(v, c)
    case InsertNamed(c, k) => HoldsAs(v.held, List(c), true) && c == Interpreters
    case Erase(c, k) => HoldsAs(v.held, List(c), true) && c != Interpreters && Inside(v, c)
    case CountThen(c, k, _) => HoldsAs(v.held, List(c), false) && Newest(v, List(c))
  }

  function Weight(todo: seq<Cmd>): nat
  {
    if todo == [] then 0
    else (if todo[0].CountThen? then 2 + Weight(todo[0].absent) else 1) + Weight(todo[1..])
  }

  lemma {:induction false} WeightSum(a: seq<Cmd>, b: seq<Cmd>)
    ensures Weight(a + b) == Weight(a) + Weight(b)
  {
    if a == [] {
      assert a + b == b;
    } else {
      assert (a + b)[1..] == a[1..] + b;
      WeightSum(a[1..], b);
    }
  }

  function Counted(v: View, c: ContainerId, k: Key): View
  {
    if c == Interpreters then v.(known := v.known + {k}) else v
  }

  /** Every command is allowed when its turn comes, whatever a count returns, and in the
      end no lock is held. */
  ghost predicate Disciplined(v: View, todo: seq<Cmd>)
    decreases Weight(todo)
  {
    if todo == [] then v.held == []
    else
      && Allowed(v, todo[0])
      && match todo[0]
         case CountThen(c, k, absent) =>
           WeightSum([Unlock(c)] + absent, todo[1..]);
           WeightSum([Unlock(c)], absent);
           WeightSum([Unlock(c)], todo[1..]);
           && Disciplined(v, [Unlock(c)] + absent + todo[1..])
           && Disciplined(Counted(v, c, k), [Unlock(c)] + todo[1..])
         case cmd => Disciplined(After(v, cmd), todo[1..])
  }

  // ---------------------------------------------------------------- views

  /** Locks are held in rank order, flags and the generator exclusively; an item that was
      looked up is under a shared list lock; whatever lies inside an item is held under it. */
  ghost predicate WellView(v: View)
  {
    && (forall i, j :: 0 <= i < j < |v.held| ==> Rank(v.held[i].lock) < Rank(v.held[j].lock))
    && (forall i :: 0 <= i < |v.held| ==> v.held[i].lock.List? || v.held[i].exclusive)
    && (forall i :: 0 <= i < |v.held| && v.held[i].lock.List? ==> Owned(v, v.held[i].lock.c))
    && (forall i :: 0 <= i < |v.held| && v.held[i].lock.Flag? ==> (v.held[i].lock.c, v.held[i].lock.key) in v.found)
    && (forall p :: p in v.found ==> HoldsAs(v.held, List(p.0), false))
    && (v.loaded.Some? ==> Holds(v.held, Flag(v.loaded.value.0, v.loaded.value.1)))
  }

  lemma HoldsAppend(held: seq<Hold>, h: Hold, l: Lock)
    ensures Holds(held + [h], l) <==> Holds(held, l) || h.lock == l
    ensures forall g :: g in held + [h] <==> g in held || g == h
  {
    if Holds(held, l) {
      var i :| 0 <= i < |held| && held[i].lock == l;
      assert (held + [h])[i].lock == l;
    }
    assert (held + [h])[|held|] == h;
  }

  lemma PushWell(v: View, l: Lock, exclusive: bool)
    requires WellView(v) && Above(v.held, l)
    requires l.List? || exclusive
    requires l.List? ==> Owned(v, l.c)
    requires l.Flag? ==> (l.c, l.key) in v.found
    ensures WellView(v.(held := v.held + [Hold(l, exclusive)]))
  {
    hide Rank, Holds;
    var h := Hold(l, exclusive);
    var v' := v.(held := v.held + [h]);
    HoldsAppend(v.held, h, l);
    if v.loaded.Some? { HoldsAppend(v.held, h, Flag(v.loaded.value.0, v.loaded.value.1)); }
    assert forall c :: Owned(v', c) == Owned(v, c);
    assert forall i :: 0 <= i < |v.held| ==> v'.held[i] == v.held[i];
  }

  lemma HoldsPop(held: seq<Hold>, l: Lock)
    requires held != []
    ensures Holds(held, l) <==> Holds(Popped(held), l) || held[|held| - 1].lock == l
    ensures forall g :: g in held <==> g in Popped(held) || g == held[|held| - 1]
  {
    assert held == Popped(held) + [held[|held| - 1]];
    HoldsAppend(Popped(held), held[|held| - 1], l);
  }

  lemma PopListWell(v: View, c: ContainerId)
    requires WellView(v) && Newest(v, List(c))
    ensures WellView(After(v, Unlock(c)))
  {
    var v' := After(v, Unlock(c));
    var m := |v.held| - 1;
    forall i | 0 <= i < m
      ensures v.held[i].lock.List? ==> Owned(v', v.held[i].lock.c)
      ensures v.held[i].lock.Flag? ==> (v.held[i].lock.c, v.held[i].lock.key) in v'.found
    {
      assert Rank(v.held[i].lock) < Rank(v.held[m].lock);
    }
    forall p | p in v'.found ensures HoldsAs(v'.held, List(p.0), false) {
      HoldsPop(v.held, List(c));
      assert HoldsAs(v.held, List(p.0), false);
    }
    if v.loaded.Some? { HoldsPop(v.held, Flag(v.loaded.value.0, v.loaded.value.1)); }
  }

  lemma PopOtherWell(v: View, l: Lock)
    requires WellView(v) && Newest(v, l) && !l.List?
    ensures WellView(v.(held := Popped(v.held), loaded := if l.Flag? then None else v.loaded))
  {
    hide Rank;
    var m := |v.held| - 1;
    forall p | p in v.found ensures HoldsAs(Popped(v.held), List(p.0), false) {
      HoldsPop(v.held, l);
      assert HoldsAs(v.held, List(p.0), false);
    }
    if v.loaded.Some? { HoldsPop(v.held, Flag(v.loaded.value.0, v.loaded.value.1)); }
  }

  /** A command that is allowed and completes leaves a well-formed view. */
  lemma AfterWell(v: View, cmd: Cmd)
    requires WellView(v) && Allowed(v, cmd)
    ensures WellView(After(v, cmd))
  {
    hide Rank, WellView;
    match cmd
    case LockShared(c) => PushWell(v, List(c), false);
    case LockUnique(c) => PushWell(v, List(c), true);
    case Spin(c, k) => PushWell(v, Flag(c, k), true);
    case LockRng => PushWell(v, Rng, true);
    case Unlock(c) => PopListWell(v, c);
    case Clear(c, k) => PopOtherWell(v, Flag(c, k));
    case UnlockRng => PopOtherWell(v, Rng);
    case _ => SameLocksWell(v, cmd);
  }

  lemma SameLocksWell(v: View, cmd: Cmd)
    requires WellView(v) && Allowed(v, cmd) && After(v, cmd).held == v.held
    ensures WellView(After(v, cmd))
  {
    hide Rank;
    var v' := After(v, cmd);
    assert v.found <= v'.found || cmd.Unlock?;
  }
}
