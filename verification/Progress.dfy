/** No deadlock: while no flag has been left behind, some thread can go on. */
module Progress {
  import opened Options
  import opened Containers
  import opened LockOrder
  import opened Universe
  import opened Interleaving
  import opened Safety
  import opened Guarantees

  function Top(held: seq<Hold>): int
  {
    if held == [] then -1 else Rank(held[|held| - 1].lock)
  }

  predicate Unfinished(s: State, t: Tid)
  {
    t in s.threads && s.threads[t].todo != []
  }

  /** Of some threads one is deepest in the order of the locks. */
  lemma {:induction false} Deepest(s: State, ts: set<Tid>) returns (u: Tid)
    requires ts != {} && ts <= s.threads.Keys
    ensures u in ts && forall w :: w in ts ==> Top(s.threads[w].view.held) <= Top(s.threads[u].view.held)
    decreases ts
  {
    var t :| t in ts;
    if ts == {t} {
      u := t;
    } else {
      u := Deepest(s, ts - {t});
      if Top(s.threads[u].view.held) < Top(s.threads[t].view.held) { u := t; }
      assert forall w :: w in ts ==> w == t || w in ts - {t};
    }
  }

  lemma BelowTop(v: View, l: Lock)
    requires WellView(v) && Holds(v.held, l)
    ensures Rank(l) <= Top(v.held)
  {
  }

  lemma AboveTop(v: View, l: Lock)
    requires Above(v.held, l)
    ensures Top(v.held) < Rank(l)
  {
  }

  lemma FinishedHoldsNothing(v: View)
    requires Disciplined(v, [])
    ensures v.held == []
  {
  }

  /** What the deepest thread asks for is held by none. */
  lemma DeepestIsFree(s: State, u: Tid, l: Lock)
    requires Unfinished(s, u) && Above(s.threads[u].view.held, l) && l !in s.leaked
    requires forall w :: Unfinished(s, w) ==> Top(s.threads[w].view.held) <= Top(s.threads[u].view.held)
    requires ThreadsOrderly(s)
    ensures Free(s, l) && (l.List? ==> NoWriter(s, l.c))
  {
    hide Rank, Above, WellView, Disciplined, Top;
    AboveTop(s.threads[u].view, l);
    forall w | w in s.threads
      ensures !Holds(s.threads[w].view.held, l) && !HoldsAs(s.threads[w].view.held, l, true)
    {
      OrderlyThread(s, w);
      assert HoldsAs(s.threads[w].view.held, l, true) ==> Holds(s.threads[w].view.held, l);
      if Unfinished(s, w) {
        if Holds(s.threads[w].view.held, l) { BelowTop(s.threads[w].view, l); }
      } else {
        FinishedHoldsNothing(s.threads[w].view);
      }
    }
  }

  /** The lock a command asks for. */
  function Wanted(cmd: Cmd): Option<Lock>
  {
    match cmd
    case LockShared(c) => Some(List(c))
    case LockUnique(c) => Some(List(c))
    case Spin(c, k) => Some(Flag(c, k))
    case LockRng => Some(Rng)
    case _ => None
  }

  lemma WantedAbove(v: View, cmd: Cmd)
    requires Allowed(v, cmd) && Wanted(cmd).Some?
    ensures Above(v.held, Wanted(cmd).value)
  {
  }

  lemma EnabledIfFree(s: State, t: Tid)
    requires Unfinished(s, t)
    requires Wanted(s.threads[t].todo[0]).Some? ==>
               var l := Wanted(s.threads[t].todo[0]).value; Free(s, l) && (l.List? ==> NoWriter(s, l.c))
    ensures Enabled(s, t)
  {
  }

  predicate Stuck(s: State, u: Tid, c: ContainerId, k: Key)
  {
    Flag(c, k) in s.leaked && Unfinished(s, u) && s.threads[u].todo[0] == Spin(c, k)
  }

  /** Some thread spins on a flag that no thread will clear. */
  ghost predicate SomeoneStuck(s: State)
  {
    exists u, c, k :: Stuck(s, u, c, k)
  }

  predicate AllFinished(s: State)
  {
    forall t :: t in s.threads ==> !Unfinished(s, t)
  }

  /** While anything is left to do, a thread can take a step without spinning, even if the
      list mutexes make readers wait for a writer that waits, or else a thread is stuck. */
  lemma GoesOrSticks(s: State, t: Tid) returns (u: Tid)
    requires Unfinished(s, t) && ThreadsOrderly(s) && LeaksUnheld(s)
    ensures Unfinished(s, u) && (EnabledStrictly(s, u) || exists c, k :: Stuck(s, u, c, k))
  {
    hide Rank, Above, WellView, Disciplined, Top, Allowed, Free, NoWriter;
    var ts := set w | w in s.threads && Unfinished(s, w);
    assert t in ts;
    u := Deepest(s, ts);
    AllowedNow(s, u);
    var cmd := s.threads[u].todo[0];
    if Wanted(cmd).Some? && Wanted(cmd).value in s.leaked {
      assert Stuck(s, u, cmd.c, cmd.key);
    } else {
      if Wanted(cmd).Some? {
        WantedAbove(s.threads[u].view, cmd);
        DeepestIsFree(s, u, Wanted(cmd).value);
      }
      EnabledIfFree(s, u);
      if cmd.LockShared? {
        if w :| w in s.threads && s.threads[w].todo != [] && s.threads[w].todo[0] == LockUnique(cmd.c) {
          EnabledIfFree(s, w);
          u := w;
        }
      }
    }
  }

  /** In every state of every run with something left to do, some thread can go on, or some
      thread is stuck. */
  lemma ProgressOrStuck(ss: seq<State>, es: seq<Event>, i: nat, t: Tid) returns (u: Tid)
    requires IsRun(ss, es) && i < |ss| && Unfinished(ss[i], t)
    ensures Unfinished(ss[i], u) && (EnabledStrictly(ss[i], u) || exists c, k :: Stuck(ss[i], u, c, k))
  {
    hide IsRun, ThreadsOrderly, LeaksUnheld, EnabledStrictly, Stuck;
    RunInvariant(ss, es, i);
    u := GoesOrSticks(ss[i], t);
  }

  /** Nothing can move. */
  ghost predicate Standstill(s: State)
  {
    forall t :: Unfinished(s, t) ==> !Enabled(s, t)
  }

  /** A state of a run in which nothing can move is one in which everything is done,
      exactly if no thread spins on a flag that was left behind. */
  lemma StandstillIsDone(ss: seq<State>, es: seq<Event>, i: nat)
    requires IsRun(ss, es) && i < |ss| && Standstill(ss[i])
    ensures AllFinished(ss[i]) <==> !SomeoneStuck(ss[i])
  {
    hide IsRun, Enabled;
    if t :| t in ss[i].threads && Unfinished(ss[i], t) {
      var u := ProgressOrStuck(ss, es, i, t);
    }
  }

  // ---------------------------------------------------------------- every operation ends

  lemma {:induction false} HeldIsReleased(v: View, todo: seq<Cmd>)
    requires Disciplined(v, todo)
    ensures |v.held| <= Weight(todo)
    decreases Weight(todo)
  {
    if todo != [] {
      match todo[0]
      case CountThen(c, k, absent) =>
        WeightSum([Unlock(c)], todo[1..]);
        assert Weight([Unlock(c)]) == 1 by { assert [Unlock(c)][1..] == []; }
        HeldIsReleased(Counted(v, c, k), [Unlock(c)] + todo[1..]);
      case cmd => HeldIsReleased(After(v, cmd), todo[1..]);
    }
  }

  lemma {:induction false} UnwindingWeight(held: seq<Hold>)
    ensures Weight(Unwinding(held)) <= |held|
  {
    if held != [] {
      var rest := Unwinding(held[..|held| - 1]);
      UnwindingWeight(held[..|held| - 1]);
      assert forall cmd :: ([cmd] + rest)[1..] == rest;
    }
  }

  /** Every step, even one that throws, brings its thread nearer to the end. */
  lemma StepDecreases(s: State, t: Tid, throws: bool)
    requires ThreadsOrderly(s) && Unfinished(s, t)
    ensures t in Exec(s, t, throws).threads
    ensures Weight(Exec(s, t, throws).threads[t].todo) < Weight(s.threads[t].todo)
  {
    hide Exec, WellView, Allowed, Disciplined, Unwinding;
    var th := s.threads[t];
    ExecThread(s, t, throws);
    OrderlyThread(s, t);
    assert th.todo == [th.todo[0]] + th.todo[1..];
    WeightSum([th.todo[0]], th.todo[1..]);
    match th.todo[0]
    case CountThen(c, k, absent) =>
      assert Weight([Unlock(c)]) == 1 by { assert [Unlock(c)][1..] == []; }
      WeightSum([Unlock(c)] + absent, th.todo[1..]);
      WeightSum([Unlock(c)], absent);
      WeightSum([Unlock(c)], th.todo[1..]);
    case cmd =>
      if cmd.Find? || cmd.Work? || cmd.InsertNext? { ThrownWeight(th); }
  }

  lemma ThrownWeight(th: Thread)
    requires th.todo != [] && (th.todo[0].Find? || th.todo[0].Work? || th.todo[0].InsertNext?) && Disciplined(th.view, th.todo)
    ensures Weight(Thrown(th).todo) < Weight(th.todo)
  {
    hide Unwinding, Allowed;
    HeldIsReleased(After(th.view, th.todo[0]), th.todo[1..]);
    UnwindingWeight(th.view.held);
  }

  /** The steps of thread t from state i to state j. */
  function StepsOf(es: seq<Event>, t: Tid, i: nat, j: nat): nat
    requires i <= j <= |es|
  {
    if i == j then 0
    else StepsOf(es, t, i, j - 1) + if es[j - 1].Go? && es[j - 1].t == t then 1 else 0
  }

  predicate BeginsNothing(es: seq<Event>, t: Tid, i: nat, j: nat)
    requires i <= j <= |es|
  {
    forall m :: i <= m < j ==> !(es[m].Begin? && es[m].t == t)
  }

  lemma OneStep(ss: seq<State>, es: seq<Event>, t: Tid, j: nat)
    requires IsRun(ss, es) && j < |es| < |ss| && t in ss[j].threads && !(es[j].Begin? && es[j].t == t)
    ensures t in ss[j + 1].threads
    ensures Weight(ss[j + 1].threads[t].todo) + (if es[j].Go? && es[j].t == t then 1 else 0)
         <= Weight(ss[j].threads[t].todo)
  {
    hide IsRun, Exec, Exclusive, LeaksUnheld, FoundPresent, ContainersExist, LoadedCurrent, KeysIssued,
         BirthsDistinct, ThreadsOrderly, Script, Enabled;
    AtStep(ss, es, j);
    if es[j].Go? {
      EnabledThread(ss[j], es[j].t);
      ViewAfter(ss[j], es[j].t, es[j].throws, Hold(Rng, true));
      StepDecreases(ss[j], es[j].t, es[j].throws);
    }
  }

  /** Spinning aside, an operation ends: however the threads are interleaved and whatever
      throws, it takes no more steps than its script is long. */
  lemma {:induction false} OperationEnds(ss: seq<State>, es: seq<Event>, t: Tid, i: nat, j: nat)
    requires IsRun(ss, es) && i <= j <= |es| < |ss| && t in ss[i].threads && BeginsNothing(es, t, i, j)
    ensures t in ss[j].threads
    ensures StepsOf(es, t, i, j) + Weight(ss[j].threads[t].todo) <= Weight(ss[i].threads[t].todo)
  {
    hide IsRun, Weight;
    if i < j {
      OperationEnds(ss, es, t, i, j - 1);
      OneStep(ss, es, t, j - 1);
    }
  }

  // ---------------------------------------------------------------- stray flags

  /** The step is one that throws: a look-up of what is not there, or work or an insertion
      that fails. */
  predicate Throws(s: State, t: Tid, throws: bool)
  {
    && Unfinished(s, t)
    && match s.threads[t].todo[0]
       case Find(c, k) => !Present(s, c, k)
       case Work => throws
       case InsertNext(c) => throws && c in s.containers
       case _ => false
  }

  /** An exception inside a body leaves the flag of its item set, and no other step leaves
      one: stray flags are exactly what bodies that throw leave behind. */
  lemma OnlyThrowingLeaks(s: State, t: Tid, throws: bool, l: Lock)
    requires Enabled(s, t) && l !in s.leaked
    ensures l in Exec(s, t, throws).leaked <==> Throws(s, t, throws) && l.Flag? && Holds(s.threads[t].view.held, l)
  {
    hide After, WithItem, Unwinding, WithoutFlags;
    var held := s.threads[t].view.held;
    assert Holds(held, l) <==> exists h :: h in held && h.lock == l;
  }

  lemma StuckCannotGo(s: State, u: Tid, c: ContainerId, k: Key)
    requires Stuck(s, u, c, k)
    ensures !Enabled(s, u)
  {
  }

  /** A stray flag goes only when its item does. */
  lemma LeakStays(s: State, t: Tid, throws: bool, l: Lock)
    requires Unfinished(s, t) && l in s.leaked && l.Flag? && l !in Exec(s, t, throws).leaked
    ensures var cmd := s.threads[t].todo[0]; cmd.Erase? && GoesWith(l.c, l.key, cmd.c, cmd.key)
  {
    hide After, WithItem, Unwinding, WithoutFlags, Flags;
  }

  lemma StuckAfterGo(s: State, t: Tid, throws: bool, s': State, u: Tid, c: ContainerId, k: Key)
    requires Enabled(s, t) && s' == Exec(s, t, throws) && Stuck(s, u, c, k)
    requires ThreadsOrderly(s) && Exclusive(s)
    ensures Stuck(s', u, c, k)
  {
    hide Exec, Enabled, WellView, Disciplined, Exclusive, GoesWith, Allowed;
    EnabledThread(s, t);
    StuckCannotGo(s, u, c, k);
    ViewAfter(s, t, throws, Hold(Rng, true));
    if Flag(c, k) !in s'.leaked {
      LeakStays(s, t, throws, Flag(c, k));
      AllowedNow(s, t);
      AllowedNow(s, u);
      var cmd := s.threads[t].todo[0];
      EraseWrites(s.threads[t].view, cmd);
      SpinFound(s.threads[u].view, c, k);
      ErasedUnused(s, t, cmd.c, cmd.key, u, c, k);
    }
  }

  lemma EraseWrites(v: View, cmd: Cmd)
    requires Allowed(v, cmd) && cmd.Erase?
    ensures HoldsAs(v.held, List(cmd.c), true)
  {
  }

  lemma SpinFound(v: View, c: ContainerId, k: Key)
    requires Allowed(v, Spin(c, k))
    ensures (c, k) in v.found
  {
  }

  /** A thread that spins on a stray flag spins for ever, whatever the others do: the list
      lock it holds keeps the item from being erased. */
  lemma {:induction false} StuckForEver(ss: seq<State>, es: seq<Event>, u: Tid, c: ContainerId, k: Key, i: nat, j: nat)
    requires IsRun(ss, es) && i <= j < |ss| && Stuck(ss[i], u, c, k)
    ensures Stuck(ss[j], u, c, k) && !Enabled(ss[j], u)
  {
    hide IsRun, Exec, Stuck, Enabled, Script, ThreadsOrderly, Exclusive, LeaksUnheld, FoundPresent, ContainersExist,
         LoadedCurrent, KeysIssued, BirthsDistinct;
    if i < j {
      RunLength(ss, es);
      StuckForEver(ss, es, u, c, k, i, j - 1);
      AtStep(ss, es, j - 1);
      match es[j - 1]
      case Begin(t, op) => StuckAfterBegin(ss[j - 1], t, op, ss[j], u, c, k);
      case Go(t, throws) => StuckAfterGo(ss[j - 1], t, throws, ss[j], u, c, k);
    }
    StuckCannotGo(ss[j], u, c, k);
  }

  lemma StuckAfterBegin(s: State, t: Tid, op: Operation, s': State, u: Tid, c: ContainerId, k: Key)
    requires Step(s, Begin(t, op), s') && Stuck(s, u, c, k)
    ensures Stuck(s', u, c, k)
  {
    hide Script;
  }

  // ---------------------------------------------------------------- bodies that return

  /** The event is a throw inside a body. */
  predicate ThrowsInBody(s: State, e: Event)
  {
    e.Go? && Throws(s, e.t, e.throws) && Flags(s.threads[e.t].view.held) != {}
  }

  /** No body has thrown before state i. */
  predicate BodiesReturn(ss: seq<State>, es: seq<Event>, i: nat)
    requires i <= |es| <= |ss|
  {
    forall j :: 0 <= j < i ==> !ThrowsInBody(ss[j], es[j])
  }

  lemma NoNewLeak(s: State, e: Event, s': State)
    requires Step(s, e, s') && !ThrowsInBody(s, e) && s.leaked == {} && LeaksUnheld(s')
    ensures s'.leaked == {}
  {
    hide Exec, Enabled, Script;
    if l :| l in s'.leaked {
      match e
      case Begin(_, _) =>
      case Go(t, throws) =>
        EnabledThread(s, t);
        OnlyThrowingLeaks(s, t, throws, l);
        HeldFlags(s.threads[t].view.held, l);
    }
  }

  lemma HeldFlags(held: seq<Hold>, l: Lock)
    ensures l in Flags(held) <==> Holds(held, l) && l.Flag?
  {
    if Holds(held, l) {
      var i :| 0 <= i < |held| && held[i].lock == l;
      assert held[i] in held;
    }
  }

  /** While no body throws, no flag is left behind. */
  lemma {:induction false} ReturningLeavesNothing(ss: seq<State>, es: seq<Event>, i: nat)
    requires IsRun(ss, es) && i <= |es| < |ss| && BodiesReturn(ss, es, i)
    ensures ss[i].leaked == {}
  {
    hide IsRun, Step, ThrowsInBody, Initial, ThreadsOrderly, Exclusive, LeaksUnheld, FoundPresent, ContainersExist,
         LoadedCurrent, KeysIssued, BirthsDistinct;
    if i == 0 {
      RunStarts(ss, es);
    } else {
      ReturningLeavesNothing(ss, es, i - 1);
      AtStep(ss, es, i - 1);
      NoNewLeak(ss[i - 1], es[i - 1], ss[i]);
    }
  }

  lemma RunStarts(ss: seq<State>, es: seq<Event>)
    requires IsRun(ss, es)
    ensures |ss| == |es| + 1 && ss[0].leaked == {}
  {
  }

  /** If every body has returned so far, there is no deadlock. */
  lemma NoDeadlock(ss: seq<State>, es: seq<Event>, i: nat, t: Tid) returns (u: Tid)
    requires IsRun(ss, es) && i <= |es| < |ss| && BodiesReturn(ss, es, i) && Unfinished(ss[i], t)
    ensures Unfinished(ss[i], u) && EnabledStrictly(ss[i], u)
  {
    hide IsRun, BodiesReturn, EnabledStrictly;
    ReturningLeavesNothing(ss, es, i);
    u := ProgressOrStuck(ss, es, i, t);
  }

  // ---------------------------------------------------------------- all operations end

  /** The steps that some threads have still to take. */
  ghost function Remaining(s: State, ts: set<Tid>): nat
    requires ts <= s.threads.Keys
    decreases ts
  {
    if ts == {} then 0 else
      var t :| t in ts;
      Weight(s.threads[t].todo) + Remaining(s, ts - {t})
  }

  lemma {:induction false} RemainingSplit(s: State, ts: set<Tid>, u: Tid)
    requires ts <= s.threads.Keys && u in ts
    ensures Remaining(s, ts) == Weight(s.threads[u].todo) + Remaining(s, ts - {u})
    decreases ts
  {
    hide Weight;
    var t :| t in ts && Remaining(s, ts) == Weight(s.threads[t].todo) + Remaining(s, ts - {t});
    if t != u {
      RemainingSplit(s, ts - {t}, u);
      RemainingSplit(s, ts - {u}, t);
      assert ts - {t} - {u} == ts - {u} - {t};
    }
  }

  lemma {:induction false} RemainingSame(s: State, s': State, ts: set<Tid>)
    requires ts <= s.threads.Keys && ts <= s'.threads.Keys && forall t :: t in ts ==> s.threads[t] == s'.threads[t]
    ensures Remaining(s, ts) == Remaining(s', ts)
    decreases ts
  {
    hide Weight;
    if t :| t in ts {
      RemainingSplit(s, ts, t);
      RemainingSplit(s', ts, t);
      RemainingSame(s, s', ts - {t});
    }
  }

  lemma RemainingDecreases(s: State, t: Tid, throws: bool, s': State)
    requires ThreadsOrderly(s) && Unfinished(s, t) && s' == Exec(s, t, throws)
    ensures s'.threads.Keys == s.threads.Keys && Remaining(s', s'.threads.Keys) < Remaining(s, s.threads.Keys)
  {
    hide Exec, ThreadsOrderly, Weight;
    ExecOthers(s, t, throws);
    StepDecreases(s, t, throws);
    RemainingSplit(s, s.threads.Keys, t);
    RemainingSplit(s', s.threads.Keys, t);
    RemainingSame(s, s', s.threads.Keys - {t});
  }

  predicate NoneBegin(es: seq<Event>, i: nat, j: nat)
    requires i <= j <= |es|
  {
    forall m :: i <= m < j ==> es[m].Go?
  }

  /** While no operation begins, a run takes at most as many steps as its threads have left. */
  lemma {:induction false} RunsAreBounded(ss: seq<State>, es: seq<Event>, i: nat, j: nat)
    requires IsRun(ss, es) && i <= j <= |es| < |ss| && NoneBegin(es, i, j)
    ensures j - i + Remaining(ss[j], ss[j].threads.Keys) <= Remaining(ss[i], ss[i].threads.Keys)
  {
    hide IsRun, Exec, Enabled, Exclusive, LeaksUnheld, FoundPresent, ContainersExist, LoadedCurrent, KeysIssued,
         BirthsDistinct, ThreadsOrderly, Script;
    if i < j {
      RunsAreBounded(ss, es, i, j - 1);
      AtStep(ss, es, j - 1);
      EnabledThread(ss[j - 1], es[j - 1].t);
      RemainingDecreases(ss[j - 1], es[j - 1].t, es[j - 1].throws, ss[j]);
    }
  }

  lemma RunExtends(ss: seq<State>, es: seq<Event>, e: Event, s': State)
    requires IsRun(ss, es) && Step(ss[|es|], e, s')
    ensures IsRun(ss + [s'], es + [e])
  {
    hide Step, Initial;
    var ss', es' := ss + [s'], es + [e];
    forall i | 0 <= i < |es'| ensures Step(ss'[i], es'[i], ss'[i + 1]) {
      if i < |es| { assert Step(ss[i], es[i], ss[i + 1]); }
    }
  }

  /** Every run can go on, without new operations, to a standstill. */
  lemma {:induction false} RunsDown(ss: seq<State>, es: seq<Event>) returns (ss': seq<State>, es': seq<Event>)
    requires IsRun(ss, es) && |ss| == |es| + 1
    ensures IsRun(ss', es') && |ss'| == |es'| + 1 && es <= es' && ss <= ss' && NoneBegin(es', |es|, |es'|)
    ensures Standstill(ss'[|es'|])
    decreases Remaining(ss[|es|], ss[|es|].threads.Keys)
  {
    hide IsRun, Exec, Enabled, Remaining, Unfinished, ThreadsOrderly, Exclusive, LeaksUnheld, FoundPresent,
         ContainersExist, LoadedCurrent, KeysIssued, BirthsDistinct;
    var s := ss[|es|];
    if t :| Unfinished(s, t) && Enabled(s, t) {
      EnabledThread(s, t);
      RunInvariant(ss, es, |es|);
      RunExtends(ss, es, Go(t, false), Exec(s, t, false));
      RemainingDecreases(s, t, false, Exec(s, t, false));
      ss', es' := RunsDown(ss + [Exec(s, t, false)], es + [Go(t, false)]);
    } else {
      ss', es' := ss, es;
    }
  }

  /** However the threads are interleaved: once no operation begins any more, the run comes
      to a standstill within a bound known in advance, and if every body returned, every
      operation has then ended. */
  lemma EverythingEnds(ss: seq<State>, es: seq<Event>, i: nat)
    requires IsRun(ss, es) && i <= |es| < |ss| && NoneBegin(es, i, |es|)
    ensures |es| - i <= Remaining(ss[i], ss[i].threads.Keys)
    ensures Standstill(ss[|es|]) ==> (AllFinished(ss[|es|]) <==> !SomeoneStuck(ss[|es|]))
    ensures Standstill(ss[|es|]) && BodiesReturn(ss, es, |es|) ==> AllFinished(ss[|es|])
  {
    hide IsRun, Enabled, BodiesReturn, Unfinished, AllFinished;
    RunsAreBounded(ss, es, i, |es|);
    if Standstill(ss[|es|]) {
      StandstillIsDone(ss, es, |es|);
      if BodiesReturn(ss, es, |es|) { ReturningLeavesNothing(ss, es, |es|); }
    }
  }
}
