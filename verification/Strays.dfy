/** A run that ends in a thread spinning for ever: a body must not throw. */
module Strays {
  import opened Options
  import opened Containers
  import opened Universe
  import opened Interleaving
  import opened Progress

  ghost predicate Reachable(s: State)
  {
    exists ss: seq<State>, es: seq<Event> :: IsRun(ss, es) && ss[|es|] == s
  }

  lemma InitialReachable()
    ensures Reachable(Initial())
  {
    var ss: seq<State>, es: seq<Event> := [Initial()], [];
    assert IsRun(ss, es) && ss[|es|] == Initial();
  }

  lemma StepReachable(s: State, e: Event, s': State)
    requires Reachable(s) && Step(s, e, s')
    ensures Reachable(s')
  {
    hide Step, Initial;
    var ss: seq<State>, es: seq<Event> :| IsRun(ss, es) && ss[|es|] == s;
    RunExtends(ss, es, e, s');
    assert (ss + [s'])[|es + [e]|] == s';
  }

  /** One container, with the interpreters in it. */
  function Server(threads: map<Tid, Thread>, items: map<Key, Item>, leaked: set<Lock>): State
  {
    State(threads, map[Systems := NO_ITEMS, Kernels := NO_ITEMS, Interpreters := Container(items, 0)], leaked,
          leaked != {}, |items|)
  }

  lemma GoReachable(s: State, t: Tid, throws: bool, s': State)
    requires Reachable(s) && Enabled(s, t) && s' == Exec(s, t, throws)
    ensures Reachable(s')
  {
    hide Exec, Enabled, Reachable;
    StepReachable(s, Go(t, throws), s');
  }

  lemma NeedsNothing(s: State, t: Tid)
    requires Unfinished(s, t) && Wanted(s.threads[t].todo[0]).None?
    ensures Enabled(s, t)
  {
  }

  function Absent(d: Key): seq<Cmd>
  {
    [Work, LockUnique(Interpreters), InsertNamed(Interpreters, d), Unlock(Interpreters)]
  }

  function Body(d: Key): seq<Cmd>
  {
    [LockShared(Interpreters), Find(Interpreters, d), Spin(Interpreters, d), Work, Clear(Interpreters, d), Unlock(Interpreters)]
  }

  lemma CompileIs(d: Key)
    ensures Compile(d) == [LockShared(Interpreters), CountThen(Interpreters, d, Absent(d))] + Body(d)
  {
  }

  const I := Interpreters
  const NOBODY: map<Key, Item> := map[]
  const READS := View([Hold(List(I), false)], {}, {}, None)
  const WRITES := View([Hold(List(I), true)], {}, {}, None)

  /** Thread 0 begins to compile. */
  lemma Begins(d: Key)
    ensures Reachable(Server(map[0 := Thread(NOTHING, [], [LockShared(I)] + ([CountThen(I, d, Absent(d))] + Body(d)))], NOBODY, {}))
  {
    hide Reachable;
    InitialReachable();
    CompileIs(d);
    assert Compile(d) == [LockShared(I)] + ([CountThen(I, d, Absent(d))] + Body(d));
    var s0 := Server(map[0 := Thread(NOTHING, [], Compile(d))], NOBODY, {});
    StepReachable(Initial(), Begin(0, CompileProgram(d)), s0);
  }

  /** It takes the list to look for the interpreter. */
  lemma Looks(d: Key)
    ensures Reachable(Server(map[0 := Thread(READS, [], [CountThen(I, d, Absent(d))] + Body(d))], NOBODY, {}))
  {
    hide Reachable, Body, Absent;
    Begins(d);
    var todo := [CountThen(I, d, Absent(d))] + Body(d);
    var s0 := Server(map[0 := Thread(NOTHING, [], [LockShared(I)] + todo)], NOBODY, {});
    var s1 := Server(map[0 := Thread(READS, [], todo)], NOBODY, {});
    assert After(NOTHING, LockShared(I)) == READS;
    GoReachable(s0, 0, false, s1);
  }

  /** It is not there. */
  lemma Misses(d: Key)
    ensures Reachable(Server(map[0 := Thread(NOTHING, [], Absent(d) + Body(d))], NOBODY, {}))
  {
    hide Reachable, Enabled, Body, Absent;
    Looks(d);
    var count := CountThen(I, d, Absent(d));
    var s1 := Server(map[0 := Thread(READS, [], [count] + Body(d))], NOBODY, {});
    assert ([count] + Body(d))[1..] == Body(d);
    var s2 := Server(map[0 := Thread(READS, [], [Unlock(I)] + Absent(d) + Body(d))], NOBODY, {});
    NeedsNothing(s1, 0);
    GoReachable(s1, 0, false, s2);
    assert ([Unlock(I)] + Absent(d) + Body(d))[1..] == Absent(d) + Body(d);
    var s3 := Server(map[0 := Thread(NOTHING, [], Absent(d) + Body(d))], NOBODY, {});
    assert After(READS, Unlock(I)) == NOTHING;
    NeedsNothing(s2, 0);
    GoReachable(s2, 0, false, s3);
  }

  /** Thread 0 makes the interpreter and is about to register it. */
  lemma Makes(d: Key)
    ensures Reachable(Server(map[0 := Thread(WRITES, [], [InsertNamed(I, d)] + ([Unlock(I)] + Body(d)))], NOBODY, {}))
  {
    hide Reachable, Body;
    Misses(d);
    var s3 := Server(map[0 := Thread(NOTHING, [], Absent(d) + Body(d))], NOBODY, {});
    assert (Absent(d) + Body(d))[1..] == Absent(d)[1..] + Body(d);
    var s4 := Server(map[0 := Thread(NOTHING, [], Absent(d)[1..] + Body(d))], NOBODY, {});
    GoReachable(s3, 0, false, s4);
    assert (Absent(d)[1..] + Body(d))[1..] == [InsertNamed(I, d)] + ([Unlock(I)] + Body(d));
    assert After(NOTHING, LockUnique(I)) == WRITES;
    var s5 := Server(map[0 := Thread(WRITES, [], [InsertNamed(I, d)] + ([Unlock(I)] + Body(d)))], NOBODY, {});
    GoReachable(s4, 0, false, s5);
  }

  lemma Inserted(s: State, d: Key)
    requires s.containers == Server(map[], NOBODY, {}).containers && s.births == 0
    ensures WithItem(s, I, d) == Server(map[], map[d := Item(0, [])], {}).containers
  {
  }

  /** Thread 0 registers it. */
  lemma Registers(d: Key)
    ensures Reachable(Server(map[0 := Thread(WRITES.(known := {d}), [], [Unlock(I)] + Body(d))], map[d := Item(0, [])], {}))
  {
    hide Reachable, Body, Enabled, WithItem;
    Makes(d);
    var s5 := Server(map[0 := Thread(WRITES, [], [InsertNamed(I, d)] + ([Unlock(I)] + Body(d)))], NOBODY, {});
    var s6 := Server(map[0 := Thread(WRITES.(known := {d}), [], [Unlock(I)] + Body(d))], map[d := Item(0, [])], {});
    Inserted(s5, d);
    NeedsNothing(s5, 0);
    GoReachable(s5, 0, false, s6);
  }

  /** Thread 0 goes on to edit it. */
  lemma Returns(d: Key)
    ensures Reachable(Server(map[0 := Thread(View([], {}, {d}, None), [], Body(d))], map[d := Item(0, [])], {}))
  {
    hide Reachable, Body, WithItem;
    Registers(d);
    var s6 := Server(map[0 := Thread(WRITES.(known := {d}), [], [Unlock(I)] + Body(d))], map[d := Item(0, [])], {});
    var s7 := Server(map[0 := Thread(View([], {}, {d}, None), [], Body(d))], map[d := Item(0, [])], {});
    assert After(WRITES.(known := {d}), Unlock(I)) == View([], {}, {d}, None);
    NeedsNothing(s6, 0);
    GoReachable(s6, 0, false, s7);
  }

  function Looking(d: Key): View
  {
    View([Hold(List(I), false)], {(I, d)}, {d}, None)
  }

  function Inside(d: Key): View
  {
    View([Hold(List(I), false), Hold(Flag(I, d), true)], {(I, d)}, {d}, None)
  }

  /** It enters the body of the edit. */
  lemma Enters(d: Key)
    ensures Reachable(Server(map[0 := Thread(Looking(d), [], Body(d)[2..])], map[d := Item(0, [])], {}))
  {
    hide Reachable;
    var it := map[d := Item(0, [])];
    Returns(d);
    var s7 := Server(map[0 := Thread(View([], {}, {d}, None), [], Body(d))], it, {});
    var s8 := Server(map[0 := Thread(READS.(known := {d}), [], Body(d)[1..])], it, {});
    assert After(View([], {}, {d}, None), LockShared(I)) == READS.(known := {d});
    GoReachable(s7, 0, false, s8);
    var s9 := Server(map[0 := Thread(Looking(d), [], Body(d)[2..])], it, {});
    GoReachable(s8, 0, false, s9);
  }

  /** The text does not parse: the exception leaves the flag set. */
  lemma Fails(d: Key)
    ensures Reachable(Server(map[0 := Thread(Looking(d), [], [Unlock(I)])], map[d := Item(0, [])], {Flag(I, d)}))
  {
    hide Reachable;
    var it := map[d := Item(0, [])];
    Enters(d);
    var s9 := Server(map[0 := Thread(Looking(d), [], Body(d)[2..])], it, {});
    var s10 := Server(map[0 := Thread(Inside(d), [], Body(d)[3..])], it, {});
    assert After(Looking(d), Spin(I, d)) == Inside(d);
    GoReachable(s9, 0, false, s10);
    Unwound(d);
    var s11 := Server(map[0 := Thread(Looking(d), [], [Unlock(I)])], it, {Flag(I, d)});
    GoReachable(s10, 0, true, s11);
  }

  lemma Unwound(d: Key)
    ensures Unwinding(Inside(d).held) == [Unlock(I)] && WithoutFlags(Inside(d).held) == Looking(d).held
    ensures Flags(Inside(d).held) == {Flag(I, d)}
  {
    var held := Inside(d).held;
    var one := [Hold(List(I), false)];
    assert held[..1] == one && one[..0] == [];
    assert Unwinding([]) == [] && Unwinding(one) == [Unlock(I)];
    assert WithoutFlags([]) == [] && WithoutFlags(one) == one;
    assert held[1] in held;
  }

  /** Thread 0 has failed; thread 1 is where it is. */
  function Left(d: Key, th: Thread): State
  {
    Server(map[0 := Thread(Looking(d), [], [Unlock(I)]), 1 := th], map[d := Item(0, [])], {Flag(I, d)})
  }

  lemma MayRead(d: Key, th: Thread)
    requires th.todo != [] && th.todo[0] == LockShared(I) && th.view.held == []
    ensures Enabled(Left(d, th), 1)
  {
  }

  /** Another thread begins to compile with the same interpreter. */
  lemma ComesSecond(d: Key)
    ensures Reachable(Left(d, Thread(NOTHING, [], [LockShared(I)] + ([CountThen(I, d, Absent(d))] + Body(d)))))
  {
    hide Reachable, Enabled, Looking;
    Fails(d);
    CompileIs(d);
    var todo := [LockShared(I)] + ([CountThen(I, d, Absent(d))] + Body(d));
    assert Compile(d) == todo;
    var s11 := Server(map[0 := Thread(Looking(d), [], [Unlock(I)])], map[d := Item(0, [])], {Flag(I, d)});
    StepReachable(s11, Begin(1, CompileProgram(d)), Left(d, Thread(NOTHING, [], todo)));
  }

  lemma LooksToo(d: Key)
    ensures Reachable(Left(d, Thread(READS, [], [CountThen(I, d, Absent(d))] + Body(d))))
  {
    hide Reachable, Enabled, Looking, Body, Absent;
    ComesSecond(d);
    var todo := [CountThen(I, d, Absent(d))] + Body(d);
    var s12 := Left(d, Thread(NOTHING, [], [LockShared(I)] + todo));
    assert After(NOTHING, LockShared(I)) == READS;
    MayRead(d, s12.threads[1]);
    GoReachable(s12, 1, false, Left(d, Thread(READS, [], todo)));
  }

  /** It finds the interpreter registered. */
  lemma FindsIt(d: Key)
    ensures Reachable(Left(d, Thread(READS.(known := {d}), [], [Unlock(I)] + Body(d))))
  {
    hide Reachable, Enabled, Looking, Body, Absent;
    LooksToo(d);
    var count := CountThen(I, d, Absent(d));
    var s13 := Left(d, Thread(READS, [], [count] + Body(d)));
    assert ([count] + Body(d))[1..] == Body(d);
    var s14 := Left(d, Thread(READS.(known := {d}), [], [Unlock(I)] + Body(d)));
    NeedsNothing(s13, 1);
    GoReachable(s13, 1, false, s14);
  }

  lemma KnowsIt(d: Key)
    ensures Reachable(Left(d, Thread(View([], {}, {d}, None), [], Body(d))))
  {
    hide Reachable, Enabled, Looking, Body;
    FindsIt(d);
    var s14 := Left(d, Thread(READS.(known := {d}), [], [Unlock(I)] + Body(d)));
    var s15 := Left(d, Thread(View([], {}, {d}, None), [], Body(d)));
    assert After(READS.(known := {d}), Unlock(I)) == View([], {}, {d}, None);
    NeedsNothing(s14, 1);
    GoReachable(s14, 1, false, s15);
  }

  /** It goes on to edit it. */
  lemma WantsIt(d: Key)
    ensures Reachable(Left(d, Thread(READS.(known := {d}), [], Body(d)[1..])))
  {
    hide Reachable, Enabled, Looking;
    KnowsIt(d);
    var s15 := Left(d, Thread(View([], {}, {d}, None), [], Body(d)));
    var s16 := Left(d, Thread(READS.(known := {d}), [], Body(d)[1..]));
    assert After(View([], {}, {d}, None), LockShared(I)) == READS.(known := {d});
    MayRead(d, s15.threads[1]);
    GoReachable(s15, 1, false, s16);
  }

  /** One text that does not parse takes its interpreter from everyone: there is a run in
      which another thread, compiling with the same interpreter, is stuck for ever. */
  lemma ThrowingBodyDeadlocks(d: Key)
    ensures exists s :: Reachable(s) && Stuck(s, 1, Interpreters, d) && !Enabled(s, 1)
  {
    hide Reachable, Enabled, Looking;
    WantsIt(d);
    var s16 := Left(d, Thread(READS.(known := {d}), [], Body(d)[1..]));
    var s17 := Left(d, Thread(READS.(known := {d}, found := {(I, d)}), [], Body(d)[2..]));
    NeedsNothing(s16, 1);
    GoReachable(s16, 1, false, s17);
    StuckCannotGo(s17, 1, I, d);
  }
}
